/**
 * The import-job table and the recipe tables the bulk processor writes, held
 * in memory: jobs, recipes and image rows in creation order, each job's id
 * and each recipe's id being its position, and one counter standing for the
 * clock that stamps `createdAt` and `completedAt`.
 */
module JobManager {
  import opened Wrappers
  import opened Runtime
  import opened Json
  import opened RecipeSchema
  import opened Lists

  /** `ImportJobStatus` */
  datatype Status = Pending | Processing | Completed | Failed

  /** The two statuses that end a job's processing. */
  predicate IsTerminal(s: Status) {
    s == Completed || s == Failed
  }

  /** `ImportJob`; `None` stands for a null column. */
  datatype Job = Job(
    id: nat,
    url: string,
    status: Status,
    errorMessage: Option<string>,
    recipeId: Option<nat>,
    createdAt: nat,
    completedAt: Option<nat>
  )

  /** The result of `getJobStats()`. */
  datatype JobStats = JobStats(pending: nat, processing: nat, completed: nat, failed: nat)

  /** A row of the recipe table, as `processImportJob` fills it. */
  datatype RecipeRow = RecipeRow(
    url: string,
    title: string,
    description: Option<string>,
    prepTime: Option<int>,
    cookTime: Option<int>,
    totalTime: Option<int>,
    servings: Option<int>,
    yieldText: Option<string>,
    ingredients: seq<Json>,
    instructions: seq<Instruction>,
    notes: Option<string>,
    mainImageUrl: Option<string>,
    categories: seq<string>,
    cuisine: Option<string>,
    dietary: seq<string>,
    siteName: Option<string>,
    author: Option<string>,
    datePublished: Option<string>,
    rawData: RawData
  )

  /** A row of the recipe-image table. */
  datatype ImageRow = ImageRow(recipeId: nat, url: string, localPath: string, alt: Option<string>, order: nat)

  /** The contents of the database at one moment. */
  datatype Tables = Tables(jobs: seq<Job>, recipes: seq<RecipeRow>, images: seq<ImageRow>, clock: nat)

  /** The default `limit` of `getPendingJobs`. */
  const DefaultPendingLimit: nat := 10

  /** The message of the rejection of an update whose job does not exist. */
  const RecordNotFound: string := "Record to update not found."

  /** The message of the rejection of a second recipe with a URL already stored. */
  const UniqueUrlViolation: string := "Unique constraint failed on the fields: (`url`)"

  /** The job row `importJob.create` adds: pending, with no error, recipe or completion time. */
  function NewJob(id: nat, url: string, now: nat): Job {
    Job(id, url, Pending, None, None, now, None)
  }

  /** The rows `importJob.createMany` adds, one per URL in list order, duplicates included. */
  function NewJobs(urls: seq<string>, firstId: nat, now: nat): (r: seq<Job>)
    ensures |r| == |urls|
    ensures forall i :: 0 <= i < |urls| ==> r[i] == NewJob(firstId + i, urls[i], now + i)
  {
    seq(|urls|, i requires 0 <= i < |urls| => NewJob(firstId + i, urls[i], now + i))
  }

  /** The row written by `importJob.update` with this status and optional fields at time `now`. */
  function Updated(job: Job, status: Status, errorMessage: Option<string>, recipeId: Option<nat>, now: nat): Job {
    job.(
      status := status,
      errorMessage := if errorMessage.Some? then errorMessage else job.errorMessage,
      recipeId := if recipeId.Some? then recipeId else job.recipeId,
      completedAt := if IsTerminal(status) then Some(now) else job.completedAt
    )
  }

  /**
   * The update writes the status it is given, whatever the old one (there is
   * no transition guard), stamps the completion time exactly when that status
   * is terminal, and replaces the optional fields only when they are supplied.
   */
  lemma UpdatedFields(job: Job, status: Status, errorMessage: Option<string>, recipeId: Option<nat>, now: nat)
    ensures var j := Updated(job, status, errorMessage, recipeId, now);
      && j.status == status
      && j.id == job.id && j.url == job.url && j.createdAt == job.createdAt
      && (IsTerminal(status) ==> j.completedAt == Some(now))
      && (!IsTerminal(status) ==> j.completedAt == job.completedAt)
      && (errorMessage.Some? ==> j.errorMessage == errorMessage)
      && (errorMessage.None? ==> j.errorMessage == job.errorMessage)
      && (recipeId.Some? ==> j.recipeId == recipeId)
      && (recipeId.None? ==> j.recipeId == job.recipeId)
  {
  }

  /** `where: { status: s }` */
  function HasStatus(s: Status): Job -> bool {
    (j: Job) => j.status == s
  }

  /** `importJob.count({ where: { status: s } })` */
  function CountStatus(js: seq<Job>, s: Status): (n: nat)
    ensures n <= |js|
  {
    |Positions(js, HasStatus(s))|
  }

  /** One more job adds one to the count of its own status only. */
  lemma CountStatusSnoc(js: seq<Job>, j: Job, s: Status)
    ensures CountStatus(js + [j], s) == CountStatus(js, s) + (if j.status == s then 1 else 0)
  {
    assert (js + [j])[..|js|] == js;
  }

  /** Every job has exactly one of the four statuses, so the four counts add up to the number of jobs. */
  lemma {:induction false} CountsPartition(js: seq<Job>)
    ensures CountStatus(js, Pending) + CountStatus(js, Processing) + CountStatus(js, Completed) + CountStatus(js, Failed) == |js|
  {
    if js != [] {
      var n := |js| - 1;
      CountsPartition(js[..n]);
      assert js[..n] + [js[n]] == js;
      CountStatusSnoc(js[..n], js[n], Pending);
      CountStatusSnoc(js[..n], js[n], Processing);
      CountStatusSnoc(js[..n], js[n], Completed);
      CountStatusSnoc(js[..n], js[n], Failed);
    }
  }

  /** Replacing one job changes the count of a status by what the old and the new job contribute. */
  lemma {:induction false} CountStatusUpdate(js: seq<Job>, i: nat, j: Job, s: Status)
    requires i < |js|
    ensures CountStatus(js[i := j], s) + (if js[i].status == s then 1 else 0)
              == CountStatus(js, s) + (if j.status == s then 1 else 0)
  {
    var n := |js| - 1;
    var updated := js[i := j];
    assert js[..n] + [js[n]] == js;
    assert updated[..n] + [updated[n]] == updated;
    CountStatusSnoc(js[..n], js[n], s);
    CountStatusSnoc(updated[..n], updated[n], s);
    if i < n {
      assert updated[..n] == js[..n][i := j];
      CountStatusUpdate(js[..n], i, j, s);
    } else {
      assert updated[..n] == js[..n];
    }
  }

  /** The rows of the in-memory database. */
  class Store {
    var jobs: seq<Job>
    var recipes: seq<RecipeRow>
    var images: seq<ImageRow>
    var clock: nat

    /**
     * Ids are positions, creation times increase with them and lie in the
     * past, and no two recipes share a URL (the recipe URL is a unique key).
     */
    ghost predicate Valid()
      reads this
    {
      && (forall i :: 0 <= i < |jobs| ==> jobs[i].id == i && jobs[i].createdAt < clock)
      && CreatedInOrder(jobs)
      && (forall i, j :: 0 <= i < j < |recipes| ==> recipes[i].url != recipes[j].url)
    }

    /** The current contents. */
    function Snapshot(): Tables
      reads this
    {
      Tables(jobs, recipes, images, clock)
    }

    /** An empty database. */
    constructor()
      ensures Valid()
      ensures jobs == [] && recipes == [] && images == []
    {
      jobs, recipes, images, clock := [], [], [], 0;
    }

    /** `createImportJob(url)`: one new pending job for the URL. */
    method CreateImportJob(url: string) returns (job: Job)
      requires Valid()
      modifies this
      ensures Valid()
      ensures job == NewJob(|old(jobs)|, url, old(clock))
      ensures jobs == old(jobs) + [job]
      ensures recipes == old(recipes) && images == old(images) && clock == old(clock) + 1
    {
      job := NewJob(|jobs|, url, clock);
      jobs := jobs + [job];
      clock := clock + 1;
    }

    /**
     * `createBulkImportJobs(urls)`: one new pending job per URL, duplicates
     * included, and the jobs just created, newest first.
     */
    method CreateBulkImportJobs(urls: seq<string>) returns (created: seq<Job>)
      requires Valid()
      modifies this
      ensures Valid()
      ensures jobs == old(jobs) + NewJobs(urls, |old(jobs)|, old(clock))
      ensures recipes == old(recipes) && images == old(images) && clock == old(clock) + |urls|
      ensures created == RecentPending(jobs, urls)
      ensures |created| == |urls|
      ensures forall k :: 0 <= k < |urls| ==> created[k] == jobs[|jobs| - 1 - k]
    {
      var added := NewJobs(urls, |jobs|, clock);
      AppendNewJobs(jobs, urls, clock);
      RecentPendingAfterAppend(jobs, added, urls);
      var grown := jobs + added;
      created := RecentPending(grown, urls);
      jobs, clock := grown, clock + |urls|;
    }

    /**
     * `updateJobStatus(jobId, status, data)`: rewrites one job's row, or
     * rejects when there is no job with that id; nothing else changes.
     */
    method UpdateJobStatus(jobId: nat, status: Status, errorMessage: Option<string>, recipeId: Option<nat>)
      returns (r: Outcome<Job>)
      requires Valid()
      modifies this
      ensures Valid()
      ensures jobId >= |old(jobs)| ==> r == Threw(Database(RecordNotFound)) && jobs == old(jobs) && clock == old(clock)
      ensures jobId < |old(jobs)| ==>
                && r == Returned(Updated(old(jobs)[jobId], status, errorMessage, recipeId, old(clock)))
                && jobs == old(jobs)[jobId := r.value]
                && clock == old(clock) + 1
      ensures recipes == old(recipes) && images == old(images)
    {
      if jobId >= |jobs| {
        return Threw(Database(RecordNotFound));
      }
      var job := Updated(jobs[jobId], status, errorMessage, recipeId, clock);
      jobs := jobs[jobId := job];
      clock := clock + 1;
      r := Returned(job);
    }

    /** `getPendingJobs()`: the default limit of ten. */
    function DefaultPendingJobs(): (r: seq<Job>)
      reads this
      requires Valid()
      ensures |r| <= DefaultPendingLimit && r == PendingJobs(DefaultPendingLimit)
      ensures forall k :: 0 <= k < |r| ==> r[k].status == Pending
    {
      PendingJobs(DefaultPendingLimit)
    }

    /** `getPendingJobs(limit)`: the oldest pending jobs, oldest first, at most `limit` of them. */
    function PendingJobs(limit: nat): (r: seq<Job>)
      reads this
      requires Valid()
      ensures |r| <= limit
      ensures forall k :: 0 <= k < |r| ==> r[k].status == Pending && r[k].id < |jobs| && jobs[r[k].id] == r[k]
      ensures forall j, k :: 0 <= j < k < |r| ==> r[j].createdAt < r[k].createdAt
    {
      var js := jobs;
      var p := Positions(js, HasStatus(Pending));
      var n := if limit < |p| then limit else |p|;
      seq(n, k requires 0 <= k < n => js[p[k]])
    }

    /** `getAllJobs()`: every job, newest first. */
    function AllJobs(): (r: seq<Job>)
      reads this
      requires Valid()
      ensures |r| == |jobs|
      ensures forall job :: job in r <==> job in jobs
      ensures forall j, k :: 0 <= j < k < |r| ==> r[j].createdAt > r[k].createdAt
    {
      var js := jobs;
      var n := |js|;
      var r := seq(n, k requires 0 <= k < n => js[n - 1 - k]);
      assert forall i :: 0 <= i < n ==> js[i] == r[n - 1 - i];
      r
    }

    /** `getJobById(jobId)` */
    function JobById(jobId: nat): (r: Option<Job>)
      reads this
      requires Valid()
      ensures r.Some? <==> exists i :: 0 <= i < |jobs| && jobs[i].id == jobId
      ensures r.Some? ==> r.value in jobs && r.value.id == jobId
    {
      if jobId < |jobs| then Some(jobs[jobId]) else None
    }

    /** `getJobStats()`: the number of jobs in each status. */
    function Stats(): (s: JobStats)
      reads this
      ensures s.pending + s.processing + s.completed + s.failed == |jobs|
    {
      CountsPartition(jobs);
      JobStats(CountStatus(jobs, Pending), CountStatus(jobs, Processing), CountStatus(jobs, Completed), CountStatus(jobs, Failed))
    }

    /** `recipe.findUnique({ where: { url } })`: the id of the recipe stored for the URL, if any. */
    function RecipeWithUrl(url: string): (r: Option<nat>)
      reads this
      ensures r.Some? ==> r.value < |recipes| && recipes[r.value].url == url
      ensures r.None? ==> forall i :: 0 <= i < |recipes| ==> recipes[i].url != url
    {
      IndexOfUrl(recipes, url)
    }

    /**
     * `recipe.create`: stores the row under the next id, or rejects with the
     * database's message, or when a recipe with that URL is already stored.
     */
    method CreateRecipe(row: RecipeRow, writeError: Option<string>) returns (r: Outcome<nat>)
      requires Valid()
      modifies this
      ensures Valid()
      ensures writeError.Some? ==> r == Threw(Database(writeError.value))
      ensures writeError.None? && old(RecipeWithUrl(row.url)).Some? ==> r == Threw(Database(UniqueUrlViolation))
      ensures r.Threw? ==> recipes == old(recipes)
      ensures r.Returned? ==> r.value == |old(recipes)| && recipes == old(recipes) + [row]
      ensures r.Returned? <==> writeError.None? && old(RecipeWithUrl(row.url)).None?
      ensures jobs == old(jobs) && images == old(images) && clock == old(clock)
    {
      if writeError.Some? {
        return Threw(Database(writeError.value));
      }
      if RecipeWithUrl(row.url).Some? {
        return Threw(Database(UniqueUrlViolation));
      }
      r := Returned(|recipes|);
      recipes := recipes + [row];
    }

    /** `recipeImage.createMany`: all the rows, or none of them when the database rejects. */
    method CreateImageRows(rows: seq<ImageRow>, writeError: Option<string>) returns (r: Outcome<nat>)
      requires Valid()
      modifies this
      ensures Valid()
      ensures writeError.Some? ==> r == Threw(Database(writeError.value)) && images == old(images)
      ensures writeError.None? ==> r == Returned(|rows|) && images == old(images) + rows
      ensures jobs == old(jobs) && recipes == old(recipes) && clock == old(clock)
    {
      if writeError.Some? {
        return Threw(Database(writeError.value));
      }
      images := images + rows;
      r := Returned(|rows|);
    }
  }

  /** `where: { url: { in: urls }, status: 'pending' }` */
  function PendingFor(urls: seq<string>): Job -> bool {
    (j: Job) => j.status == Pending && j.url in urls
  }

  /**
   * Appending the jobs created at `clock` keeps ids equal to positions and
   * creation times rising and in the past; every new job is pending for its URL.
   */
  lemma AppendNewJobs(js: seq<Job>, urls: seq<string>, clock: nat)
    requires forall i :: 0 <= i < |js| ==> js[i].id == i && js[i].createdAt < clock
    requires CreatedInOrder(js)
    ensures var added := NewJobs(urls, |js|, clock);
      && (forall i :: 0 <= i < |js + added| ==> (js + added)[i].id == i && (js + added)[i].createdAt < clock + |urls|)
      && CreatedInOrder(js + added)
      && forall i :: 0 <= i < |added| ==> PendingFor(urls)(added[i])
  {
    var added := NewJobs(urls, |js|, clock);
    forall i | 0 <= i < |added| ensures PendingFor(urls)(added[i]) {
      assert added[i].url == urls[i];
    }
  }

  /** Creation times rise along the table. */
  ghost predicate CreatedInOrder(js: seq<Job>) {
    forall i, j :: 0 <= i < j < |js| ==> js[i].createdAt < js[j].createdAt
  }

  /**
   * The `findMany` of `createBulkImportJobs`: pending jobs for one of the
   * URLs, newest first, at most one per URL in the list.
   */
  function RecentPending(js: seq<Job>, urls: seq<string>): (r: seq<Job>)
    requires CreatedInOrder(js)
    ensures |r| <= |urls|
    ensures forall k :: 0 <= k < |r| ==> r[k].status == Pending && r[k].url in urls && r[k] in js
    ensures forall j, k :: 0 <= j < k < |r| ==> r[j].createdAt > r[k].createdAt
  {
    var p := Positions(js, PendingFor(urls));
    var n := if |urls| < |p| then |urls| else |p|;
    seq(n, k requires 0 <= k < n => js[p[|p| - 1 - k]])
  }

  /** The position of the first row with the URL. */
  function IndexOfUrl(rows: seq<RecipeRow>, url: string): (r: Option<nat>)
    ensures r.Some? ==> r.value < |rows| && rows[r.value].url == url
    ensures r.Some? ==> forall i :: 0 <= i < r.value ==> rows[i].url != url
    ensures r.None? ==> forall i :: 0 <= i < |rows| ==> rows[i].url != url
  {
    if rows == [] then None
    else if rows[0].url == url then Some(0)
    else
      match IndexOfUrl(rows[1..], url)
      case None => None
      case Some(i) => Some(i + 1)
  }

  /**
   * The pending jobs `getPendingJobs` leaves out are newer than every one it
   * returns, and it leaves none out when it returns fewer than `limit`.
   */
  lemma PendingJobsOldestFirst(store: Store, limit: nat)
    requires store.Valid()
    ensures var r := store.PendingJobs(limit);
      forall i :: 0 <= i < |store.jobs| && store.jobs[i].status == Pending && store.jobs[i] !in r ==>
        |r| == limit && forall k :: 0 <= k < |r| ==> r[k].createdAt < store.jobs[i].createdAt
  {
    var jobs, r := store.jobs, store.PendingJobs(limit);
    var p := Positions(jobs, HasStatus(Pending));
    PendingJobsPicks(store, limit);
    PositionsComplete(jobs, HasStatus(Pending));
    forall i | 0 <= i < |jobs| && jobs[i].status == Pending && jobs[i] !in r
      ensures |r| == limit && forall k :: 0 <= k < |r| ==> r[k].createdAt < jobs[i].createdAt
    {
      assert HasStatus(Pending)(jobs[i]);
      var m :| 0 <= m < |p| && p[m] == i;
      LeftOutIsNewer(jobs, p, r, i, m);
    }
  }

  /** The `k`-th of the oldest pending jobs is the `k`-th pending job of the table. */
  lemma PendingJobsPicks(store: Store, limit: nat)
    requires store.Valid()
    ensures var r, p := store.PendingJobs(limit), Positions(store.jobs, HasStatus(Pending));
      && |r| == (if limit < |p| then limit else |p|)
      && forall k :: 0 <= k < |r| ==> r[k] == store.jobs[p[k]]
  {
  }

  /** A matching job left out of a prefix of the matches comes after every job in it. */
  lemma LeftOutIsNewer(js: seq<Job>, p: seq<nat>, r: seq<Job>, i: nat, m: nat)
    requires CreatedInOrder(js)
    requires forall j :: 0 <= j < |p| ==> p[j] < |js|
    requires forall j, k :: 0 <= j < k < |p| ==> p[j] < p[k]
    requires |r| <= |p| && forall k :: 0 <= k < |r| ==> r[k] == js[p[k]]
    requires m < |p| && p[m] == i && js[i] !in r
    ensures |r| <= m && forall k :: 0 <= k < |r| ==> r[k].createdAt < js[i].createdAt
  {
    forall k | 0 <= k < |r| ensures r[k].createdAt < js[i].createdAt {
      assert p[k] < p[m];
    }
  }

  /** There is a batch to take exactly when the limit is positive and some job is pending. */
  lemma PendingJobsEmpty(store: Store, limit: nat)
    requires store.Valid()
    ensures store.PendingJobs(limit) == [] <==> limit == 0 || CountStatus(store.jobs, Pending) == 0
  {
  }

  /**
   * Right after pending jobs for every URL of the list were appended, the
   * newest pending jobs for those URLs are exactly the appended ones.
   */
  lemma RecentPendingAfterAppend(before: seq<Job>, added: seq<Job>, urls: seq<string>)
    requires CreatedInOrder(before + added) && |added| == |urls|
    requires forall i :: 0 <= i < |added| ==> PendingFor(urls)(added[i])
    ensures var js := before + added;
      var r := RecentPending(js, urls);
      |r| == |urls| && forall k :: 0 <= k < |urls| ==> r[k] == js[|js| - 1 - k]
  {
    PositionsOfKeptSuffix(before, added, PendingFor(urls));
    RecentPendingOfRange(before + added, urls, Positions(before, PendingFor(urls)), |before|);
  }

  /** When the matching positions end with every position from `lo` on, the newest matches are the last jobs. */
  lemma RecentPendingOfRange(js: seq<Job>, urls: seq<string>, kept: seq<nat>, lo: nat)
    requires CreatedInOrder(js) && lo + |urls| == |js|
    requires Positions(js, PendingFor(urls)) == kept + Range(lo, |js|)
    ensures var r := RecentPending(js, urls);
      |r| == |urls| && forall k :: 0 <= k < |urls| ==> r[k] == js[|js| - 1 - k]
  {
    var r := RecentPending(js, urls);
    forall k | 0 <= k < |urls| ensures r[k] == js[|js| - 1 - k] {
      RangeTail(kept, lo, |js|, k);
    }
  }
}
