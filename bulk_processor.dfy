/**
 * Working through the import queue: one job is taken from pending through
 * processing to completed or failed, reusing a recipe already stored for its
 * URL or scraping and storing a new one; the drain takes batches of the
 * oldest pending jobs until none is left.
 */
module BulkProcessor {
  import opened Wrappers
  import opened Runtime
  import opened Platform
  import opened RecipeSchema
  import opened ImageDownloader
  import opened Scrapers
  import opened JobManager

  /** The default batch size of `processPendingJobs`. */
  const ConcurrentLimit: nat := 3

  const ScrapeFailedDefault: string := "Failed to scrape recipe"
  const UnknownErrorDefault: string := "Unknown error"

  /** `s || null` for an optional text: the empty text is stored as null. */
  function TextOrNull(s: Option<string>): (r: Option<string>)
    ensures r.Some? <==> s.Some? && s.value != ""
    ensures r.Some? ==> r == s
  {
    if s.Some? && s.value != "" then s else None
  }

  /** `n || null` for an optional number: zero is stored as null. */
  function NumberOrNull(n: Option<int>): (r: Option<int>)
    ensures r.Some? <==> n.Some? && n.value != 0
    ensures r.Some? ==> r == n
  {
    if n.Some? && n.value != 0 then n else None
  }

  /** `xs || []` for an optional list. */
  function ListOrEmpty(xs: Option<seq<string>>): (r: seq<string>)
    ensures xs.Some? ==> r == xs.value
    ensures xs.None? ==> r == []
  {
    if xs.Some? then xs.value else []
  }

  /**
   * The row `recipe.create` is given for a scraped recipe. The schema's
   * `notes` is never produced by either extractor, so it is always null.
   */
  function RecipeRowOf(d: RecipeData): RecipeRow {
    RecipeRow(
      d.url, d.title, TextOrNull(d.description),
      NumberOrNull(d.prepTime), NumberOrNull(d.cookTime), NumberOrNull(d.totalTime), NumberOrNull(d.servings),
      TextOrNull(d.yieldText), d.ingredients, d.instructions, None,
      TextOrNull(d.mainImageUrl), ListOrEmpty(d.categories), TextOrNull(d.cuisine), ListOrEmpty(d.dietary),
      TextOrNull(Some(d.siteName)), TextOrNull(d.author), TextOrNull(d.datePublished), d.rawData)
  }

  /**
   * The stored row keeps the recipe's URL, title, lists and payload; each
   * optional field is kept when it is truthy and stored as null otherwise,
   * so a time or a serving count of 0 is lost.
   */
  lemma RecipeRowFields(d: RecipeData)
    ensures var row := RecipeRowOf(d);
      && row.url == d.url && row.title == d.title
      && row.ingredients == d.ingredients && row.instructions == d.instructions && row.rawData == d.rawData
      && (row.prepTime.Some? <==> d.prepTime.Some? && d.prepTime.value != 0)
      && (row.servings.Some? <==> d.servings.Some? && d.servings.value != 0)
      && (row.description.Some? <==> d.description.Some? && d.description.value != "")
      && (row.siteName.Some? <==> d.siteName != "")
      && (d.categories.None? ==> row.categories == [])
      && row.notes.None?
  {
  }

  /** The image rows for a new recipe: one per saved image, numbered from 0 in download order. */
  function ImageRowsOf(recipeId: nat, downloaded: seq<DownloadedImage>): (rows: seq<ImageRow>)
    ensures |rows| == |downloaded|
    ensures forall i :: 0 <= i < |rows| ==>
              && rows[i].recipeId == recipeId && rows[i].order == i
              && rows[i].url == downloaded[i].originalUrl && rows[i].localPath == downloaded[i].localPath
              && rows[i].alt == TextOrNull(downloaded[i].alt)
  {
    seq(|downloaded|, i requires 0 <= i < |downloaded| =>
      ImageRow(recipeId, downloaded[i].originalUrl, downloaded[i].localPath, TextOrNull(downloaded[i].alt), i))
  }

  /** `result.error || 'Failed to scrape recipe'` */
  function ScrapeFailureMessage(r: ScrapeResult): (m: string)
    ensures m != ""
    ensures r.error.Some? && r.error.value != "" ==> m == r.error.value
  {
    if r.error.Some? && r.error.value != "" then r.error.value else ScrapeFailedDefault
  }

  /** An unsuccessful scrape always explains itself, so the default message is never stored. */
  lemma ScrapeFailureExplained(url: string, world: World)
    requires !Scrape(url, world).success
    ensures ScrapeFailureMessage(Scrape(url, world)) == Scrape(url, world).error.value
  {
  }

  /** `error.message || 'Unknown error'` */
  function CaughtMessage(f: Fault): (m: string)
    ensures m != ""
    ensures Message(f) != "" ==> m == Message(f)
  {
    if Message(f) != "" then Message(f) else UnknownErrorDefault
  }

  /** The job exists and waits to be processed. */
  predicate IsPendingJob(jobs: seq<Job>, jobId: nat) {
    jobId < |jobs| && jobs[jobId].status == Pending
  }

  /** An `updateJobStatus` of an existing job. */
  function WithStatus(t: Tables, jobId: nat, status: Status, errorMessage: Option<string>, recipeId: Option<nat>): (r: Tables)
    requires jobId < |t.jobs|
    ensures |r.jobs| == |t.jobs| && r.recipes == t.recipes && r.images == t.images
  {
    t.(jobs := t.jobs[jobId := Updated(t.jobs[jobId], status, errorMessage, recipeId, t.clock)], clock := t.clock + 1)
  }

  /** From `recipe.create` on: store the recipe and its image rows, then complete the job. */
  function Stored(t: Tables, jobId: nat, data: ScrapeData, world: World): (r: Tables)
    requires jobId < |t.jobs|
    ensures |r.jobs| == |t.jobs|
  {
    var row := RecipeRowOf(data.recipe);
    var createError := world.recipeWriteError(row.url);
    if createError.Some? then WithStatus(t, jobId, Failed, Some(CaughtMessage(Database(createError.value))), None)
    else if IndexOfUrl(t.recipes, row.url).Some? then
      WithStatus(t, jobId, Failed, Some(CaughtMessage(Database(UniqueUrlViolation))), None)
    else
      var id := |t.recipes|;
      var withRecipe := t.(recipes := t.recipes + [row]);
      var downloaded := data.downloadedImages;
      var imageError := world.imageWriteError(row.url);
      if |downloaded| > 0 && imageError.Some? then
        WithStatus(withRecipe, jobId, Failed, Some(CaughtMessage(Database(imageError.value))), None)
      else
        var withImages := if |downloaded| > 0 then withRecipe.(images := t.images + ImageRowsOf(id, downloaded)) else withRecipe;
        WithStatus(withImages, jobId, Completed, None, Some(id))
  }

  /** The database after `processImportJob(jobId)`, with the scrape and the writes decided by `world`. */
  function Processed(t: Tables, jobId: nat, world: World): (r: Tables)
    ensures |r.jobs| == |t.jobs|
  {
    if !IsPendingJob(t.jobs, jobId) then t
    else
      var url := t.jobs[jobId].url;
      var processing := WithStatus(t, jobId, Processing, None, None);
      match IndexOfUrl(t.recipes, url)
      case Some(existing) => WithStatus(processing, jobId, Completed, None, Some(existing))
      case None => Scraped(processing, jobId, Scrape(url, world), world)
  }

  /** After `scrapeRecipe`: fail the job on an unsuccessful result, else store the recipe. */
  function Scraped(t: Tables, jobId: nat, result: ScrapeResult, world: World): (r: Tables)
    requires jobId < |t.jobs|
    ensures |r.jobs| == |t.jobs|
  {
    if !result.success || result.data.None? then
      WithStatus(t, jobId, Failed, Some(ScrapeFailureMessage(result)), None)
    else
      Stored(t, jobId, result.data.value, world)
  }

  /**
   * Only the processed job changes, and only if it was pending; it then ends
   * completed or failed, with its completion time set; no job is added.
   */
  lemma ProcessedFrame(t: Tables, jobId: nat, world: World)
    ensures var after := Processed(t, jobId, world);
      && |after.jobs| == |t.jobs|
      && (forall i :: 0 <= i < |t.jobs| && i != jobId ==> after.jobs[i] == t.jobs[i])
      && (!IsPendingJob(t.jobs, jobId) ==> after == t)
      && (IsPendingJob(t.jobs, jobId) ==>
            IsTerminal(after.jobs[jobId].status) && after.jobs[jobId].completedAt.Some?
            && after.jobs[jobId].url == t.jobs[jobId].url && after.jobs[jobId].createdAt == t.jobs[jobId].createdAt)
  {
    if IsPendingJob(t.jobs, jobId) {
      var processing := WithStatus(t, jobId, Processing, None, None);
      var result := Scrape(t.jobs[jobId].url, world);
      if IndexOfUrl(t.recipes, t.jobs[jobId].url).None? && result.success && result.data.Some? {
        StoredFrame(processing, jobId, result.data.value, world);
      }
    }
  }

  /** The store step changes no job but the one it completes or fails. */
  lemma StoredFrame(t: Tables, jobId: nat, data: ScrapeData, world: World)
    requires jobId < |t.jobs|
    ensures var after := Stored(t, jobId, data, world);
      && |after.jobs| == |t.jobs|
      && (forall i :: 0 <= i < |t.jobs| && i != jobId ==> after.jobs[i] == t.jobs[i])
      && IsTerminal(after.jobs[jobId].status) && after.jobs[jobId].completedAt.Some?
      && after.jobs[jobId].url == t.jobs[jobId].url && after.jobs[jobId].createdAt == t.jobs[jobId].createdAt
  {
  }

  /** Processing a pending job takes exactly one job out of the pending count. */
  lemma ProcessedLeavesPending(t: Tables, jobId: nat, world: World)
    requires IsPendingJob(t.jobs, jobId)
    ensures CountStatus(Processed(t, jobId, world).jobs, Pending) + 1 == CountStatus(t.jobs, Pending)
  {
    var after := Processed(t, jobId, world);
    ProcessedFrame(t, jobId, world);
    assert after.jobs == t.jobs[jobId := after.jobs[jobId]];
    CountStatusUpdate(t.jobs, jobId, after.jobs[jobId], Pending);
  }

  /**
   * A job whose URL already has a recipe completes with that recipe: nothing
   * is scraped and no recipe or image is stored.
   */
  lemma ExistingRecipeReused(t: Tables, jobId: nat, world: World)
    requires IsPendingJob(t.jobs, jobId)
    requires IndexOfUrl(t.recipes, t.jobs[jobId].url).Some?
    ensures var after := Processed(t, jobId, world);
      && after.jobs[jobId].status == Completed
      && after.jobs[jobId].recipeId == IndexOfUrl(t.recipes, t.jobs[jobId].url)
      && t.recipes[after.jobs[jobId].recipeId.value].url == t.jobs[jobId].url
      && after.recipes == t.recipes && after.images == t.images
  {
  }

  /** A failed scrape fails the job with the scrape's own error and stores nothing. */
  lemma ScrapeFailureStoresNothing(t: Tables, jobId: nat, world: World)
    requires IsPendingJob(t.jobs, jobId)
    requires IndexOfUrl(t.recipes, t.jobs[jobId].url).None?
    requires !Scrape(t.jobs[jobId].url, world).success
    ensures var after := Processed(t, jobId, world);
      && after.jobs[jobId].status == Failed
      && after.jobs[jobId].errorMessage == Scrape(t.jobs[jobId].url, world).error
      && after.recipes == t.recipes && after.images == t.images
  {
    ScrapeFailureExplained(t.jobs[jobId].url, world);
  }

  /**
   * A successful import stores exactly one recipe, for the job's own URL,
   * with one image row per saved image numbered from 0, and completes the
   * job with the new recipe's id.
   */
  lemma SuccessfulImport(t: Tables, jobId: nat, world: World)
    requires IsPendingJob(t.jobs, jobId)
    requires IndexOfUrl(t.recipes, t.jobs[jobId].url).None?
    requires Scrape(t.jobs[jobId].url, world).success
    requires world.recipeWriteError(t.jobs[jobId].url).None? && world.imageWriteError(t.jobs[jobId].url).None?
    ensures var after := Processed(t, jobId, world);
      var data := Scrape(t.jobs[jobId].url, world).data.value;
      && after.recipes == t.recipes + [RecipeRowOf(data.recipe)]
      && after.recipes[|t.recipes|].url == t.jobs[jobId].url
      && after.images == t.images + ImageRowsOf(|t.recipes|, data.downloadedImages)
      && after.jobs[jobId].status == Completed
      && after.jobs[jobId].recipeId == Some(|t.recipes|)
  {
    ScrapedRecipeValid(t.jobs[jobId].url, world);
  }

  /**
   * The recipe is stored before its image rows, and a failure writing them
   * does not take it back: the job fails but the recipe stays.
   */
  lemma ImageFailureKeepsRecipe(t: Tables, jobId: nat, world: World)
    requires IsPendingJob(t.jobs, jobId)
    requires IndexOfUrl(t.recipes, t.jobs[jobId].url).None?
    requires Scrape(t.jobs[jobId].url, world).success
    requires |Scrape(t.jobs[jobId].url, world).data.value.downloadedImages| > 0
    requires world.recipeWriteError(t.jobs[jobId].url).None? && world.imageWriteError(t.jobs[jobId].url).Some?
    ensures var after := Processed(t, jobId, world);
      && |after.recipes| == |t.recipes| + 1
      && after.images == t.images
      && after.jobs[jobId].status == Failed
      && after.jobs[jobId].errorMessage == Some(CaughtMessage(Database(world.imageWriteError(t.jobs[jobId].url).value)))
      && after.jobs[jobId].recipeId == t.jobs[jobId].recipeId
  {
    ScrapedRecipeValid(t.jobs[jobId].url, world);
  }

  /**
   * A rejected `recipe.create` is caught: the job fails with the database's
   * message, and neither a recipe nor an image row is stored.
   */
  lemma RecipeWriteFailure(t: Tables, jobId: nat, world: World)
    requires IsPendingJob(t.jobs, jobId)
    requires IndexOfUrl(t.recipes, t.jobs[jobId].url).None?
    requires Scrape(t.jobs[jobId].url, world).success
    requires world.recipeWriteError(t.jobs[jobId].url).Some?
    ensures var after := Processed(t, jobId, world);
      && after.recipes == t.recipes
      && after.images == t.images
      && after.jobs[jobId].status == Failed
      && after.jobs[jobId].errorMessage == Some(CaughtMessage(Database(world.recipeWriteError(t.jobs[jobId].url).value)))
      && after.jobs[jobId].recipeId == t.jobs[jobId].recipeId
  {
    ScrapedRecipeValid(t.jobs[jobId].url, world);
  }

  /** A stored recipe's URL is never stored again: the recipe URLs stay distinct. */
  lemma RecipeUrlsStayDistinct(t: Tables, jobId: nat, world: World)
    requires forall i, j :: 0 <= i < j < |t.recipes| ==> t.recipes[i].url != t.recipes[j].url
    ensures var after := Processed(t, jobId, world);
      forall i, j :: 0 <= i < j < |after.recipes| ==> after.recipes[i].url != after.recipes[j].url
  {
    var after := Processed(t, jobId, world);
    if IsPendingJob(t.jobs, jobId) && IndexOfUrl(t.recipes, t.jobs[jobId].url).None? {
      var processing := WithStatus(t, jobId, Processing, None, None);
      var result := Scrape(t.jobs[jobId].url, world);
      if result.success && result.data.Some? {
        var row := RecipeRowOf(result.data.value.recipe);
        StoredRecipes(processing, jobId, result.data.value, world);
        if after.recipes != t.recipes {
          DistinctAfterAppend(t.recipes, row);
        }
      }
    }
  }

  /** The store step keeps the recipes, or appends the new row when no stored recipe has its URL. */
  lemma StoredRecipes(t: Tables, jobId: nat, data: ScrapeData, world: World)
    requires jobId < |t.jobs|
    ensures var row := RecipeRowOf(data.recipe);
      var after := Stored(t, jobId, data, world).recipes;
      after == t.recipes || (IndexOfUrl(t.recipes, row.url).None? && after == t.recipes + [row])
  {
  }

  /** A row whose URL no row has keeps the URLs distinct. */
  lemma DistinctAfterAppend(rows: seq<RecipeRow>, row: RecipeRow)
    requires forall i, j :: 0 <= i < j < |rows| ==> rows[i].url != rows[j].url
    requires IndexOfUrl(rows, row.url).None?
    ensures forall i, j :: 0 <= i < j < |rows + [row]| ==> (rows + [row])[i].url != (rows + [row])[j].url
  {
  }

  /**
   * Importing a URL a second time reuses the recipe the first import stored:
   * a later pending job for the same URL completes with the same recipe id and
   * stores nothing.
   */
  lemma ImportIdempotent(t: Tables, first: nat, second: nat, world: World)
    requires forall i, j :: 0 <= i < j < |t.recipes| ==> t.recipes[i].url != t.recipes[j].url
    requires IsPendingJob(t.jobs, first) && IsPendingJob(t.jobs, second) && first != second
    requires t.jobs[first].url == t.jobs[second].url
    requires Processed(t, first, world).jobs[first].status == Completed
    ensures var once := Processed(t, first, world);
      var twice := Processed(once, second, world);
      && twice.jobs[second].status == Completed
      && twice.jobs[second].recipeId == once.jobs[first].recipeId
      && twice.recipes == once.recipes && twice.images == once.images
  {
    var url, once := t.jobs[first].url, Processed(t, first, world);
    ProcessedFrame(t, first, world);
    CompletedHasRecipe(t, first, world);
    RecipeUrlsStayDistinct(t, first, world);
    IndexOfDistinct(once.recipes, once.jobs[first].recipeId.value);
    ExistingRecipeReused(once, second, world);
  }

  /** A completed job names a stored recipe with the job's URL. */
  lemma CompletedHasRecipe(t: Tables, jobId: nat, world: World)
    requires IsPendingJob(t.jobs, jobId)
    requires Processed(t, jobId, world).jobs[jobId].status == Completed
    ensures var after := Processed(t, jobId, world);
      && after.jobs[jobId].recipeId.Some? && after.jobs[jobId].recipeId.value < |after.recipes|
      && after.recipes[after.jobs[jobId].recipeId.value].url == t.jobs[jobId].url
  {
    if IndexOfUrl(t.recipes, t.jobs[jobId].url).None? {
      ScrapedRecipeValid(t.jobs[jobId].url, world);
    }
  }

  /** With distinct URLs, the first row with a row's URL is that row. */
  lemma IndexOfDistinct(rows: seq<RecipeRow>, id: nat)
    requires forall i, j :: 0 <= i < j < |rows| ==> rows[i].url != rows[j].url
    requires id < |rows|
    ensures IndexOfUrl(rows, rows[id].url) == Some(id)
  {
  }

  /** `processImportJob(jobId)`, statement by statement. */
  method ProcessImportJob(store: Store, jobId: nat, world: World)
    requires store.Valid()
    modifies store
    ensures store.Valid()
    ensures store.Snapshot() == Processed(old(store.Snapshot()), jobId, world)
  {
    var job := store.JobById(jobId);
    if job.None? || job.value.status != Pending {
      return;
    }
    var url := job.value.url;
    var updated := store.UpdateJobStatus(jobId, Processing, None, None);
    var existingRecipe := store.RecipeWithUrl(url);
    if existingRecipe.Some? {
      updated := store.UpdateJobStatus(jobId, Completed, None, existingRecipe);
      return;
    }
    var result := ScrapeRecipe(url, world);
    RecordScrape(store, jobId, result, world);
  }

  /** What follows the scrape: a failed job, or the recipe stored. */
  method RecordScrape(store: Store, jobId: nat, result: ScrapeResult, world: World)
    requires store.Valid() && jobId < |store.jobs|
    modifies store
    ensures store.Valid()
    ensures store.Snapshot() == Scraped(old(store.Snapshot()), jobId, result, world)
  {
    if !result.success || result.data.None? {
      var updated := store.UpdateJobStatus(jobId, Failed, Some(ScrapeFailureMessage(result)), None);
      return;
    }
    StoreRecipe(store, jobId, result.data.value, world);
  }

  /** The end of the `try` block: create the recipe and its image rows, then complete the job. */
  method StoreRecipe(store: Store, jobId: nat, data: ScrapeData, world: World)
    requires store.Valid() && jobId < |store.jobs|
    modifies store
    ensures store.Valid()
    ensures store.Snapshot() == Stored(old(store.Snapshot()), jobId, data, world)
  {
    var row := RecipeRowOf(data.recipe);
    var recipe := store.CreateRecipe(row, world.recipeWriteError(row.url));
    var updated;
    if recipe.Threw? {
      updated := store.UpdateJobStatus(jobId, Failed, Some(CaughtMessage(recipe.fault)), None);
      return;
    }
    if |data.downloadedImages| > 0 {
      var rows := store.CreateImageRows(ImageRowsOf(recipe.value, data.downloadedImages), world.imageWriteError(row.url));
      if rows.Threw? {
        updated := store.UpdateJobStatus(jobId, Failed, Some(CaughtMessage(rows.fault)), None);
        return;
      }
    }
    updated := store.UpdateJobStatus(jobId, Completed, None, Some(recipe.value));
  }

  /** Every job either is as it was or was pending and has been completed or failed. */
  ghost predicate Advanced(before: seq<Job>, after: seq<Job>) {
    && |after| == |before|
    && forall i :: 0 <= i < |before| ==>
         after[i] == before[i] || (before[i].status == Pending && IsTerminal(after[i].status))
  }

  /** A job that has advanced advances no further: the relation is transitive. */
  lemma AdvancedTransitive(a: seq<Job>, b: seq<Job>, c: seq<Job>)
    requires Advanced(a, b) && Advanced(b, c)
    ensures Advanced(a, c)
  {
  }

  /** Processing one job advances the jobs. */
  lemma ProcessedAdvances(t: Tables, jobId: nat, world: World)
    ensures Advanced(t.jobs, Processed(t, jobId, world).jobs)
  {
    ProcessedFrame(t, jobId, world);
  }

  /** The job names a stored recipe, and that recipe has the job's URL. */
  predicate NamesRecipe(job: Job, recipes: seq<RecipeRow>) {
    job.recipeId.Some? && job.recipeId.value < |recipes| && recipes[job.recipeId.value].url == job.url
  }

  /** Every job that was pending before and is completed after names a stored recipe with its URL. */
  ghost predicate CompletedNamed(before: seq<Job>, after: seq<Job>, recipes: seq<RecipeRow>) {
    forall i :: 0 <= i < |before| && i < |after| && before[i].status == Pending && after[i].status == Completed ==>
      NamesRecipe(after[i], recipes)
  }

  /** Recipes are only ever appended, so a recipe named stays named. */
  lemma NamesRecipeGrows(job: Job, recipes: seq<RecipeRow>, more: seq<RecipeRow>)
    requires NamesRecipe(job, recipes) && recipes <= more
    ensures NamesRecipe(job, more)
  {
    assert more[job.recipeId.value] == more[..|recipes|][job.recipeId.value];
  }

  /** One more job processed: the completed jobs still name their recipes. */
  lemma CompletedNamedStep(a: seq<Job>, b: seq<Job>, c: seq<Job>, r1: seq<RecipeRow>, r2: seq<RecipeRow>, jobId: nat)
    requires CompletedNamed(a, b, r1) && r1 <= r2
    requires |a| == |b| == |c| && jobId < |c|
    requires forall i :: 0 <= i < |c| && i != jobId ==> c[i] == b[i]
    requires a[jobId].status == Pending && c[jobId].status == Completed ==> NamesRecipe(c[jobId], r2)
    ensures CompletedNamed(a, c, r2)
  {
    forall i | 0 <= i < |a| && a[i].status == Pending && c[i].status == Completed
      ensures NamesRecipe(c[i], r2)
    {
      if i != jobId {
        NamesRecipeGrows(b[i], r1, r2);
      }
    }
  }

  /** Two rounds of processing compose. */
  lemma CompletedNamedTransitive(a: seq<Job>, b: seq<Job>, c: seq<Job>, r1: seq<RecipeRow>, r2: seq<RecipeRow>)
    requires CompletedNamed(a, b, r1) && CompletedNamed(b, c, r2) && Advanced(b, c) && r1 <= r2
    requires |a| == |b|
    ensures CompletedNamed(a, c, r2)
  {
    forall i | 0 <= i < |a| && a[i].status == Pending && c[i].status == Completed
      ensures NamesRecipe(c[i], r2)
    {
      if c[i] == b[i] {
        NamesRecipeGrows(b[i], r1, r2);
      }
    }
  }

  /** Processing one job only appends recipes and image rows. */
  lemma ProcessedAppends(t: Tables, jobId: nat, world: World)
    ensures var after := Processed(t, jobId, world);
      t.recipes <= after.recipes && t.images <= after.images
  {
    if IsPendingJob(t.jobs, jobId) {
      var processing := WithStatus(t, jobId, Processing, None, None);
      var result := Scrape(t.jobs[jobId].url, world);
      if IndexOfUrl(t.recipes, t.jobs[jobId].url).None? && result.success && result.data.Some? {
        StoredRecipes(processing, jobId, result.data.value, world);
      }
    }
  }

  /** The ids of a batch's jobs. */
  function BatchIds(batch: seq<Job>): set<nat> {
    set k | 0 <= k < |batch| :: batch[k].id
  }

  /**
   * After the first `done` jobs of a batch: those are completed or failed and
   * name their recipes when completed, the rest of the batch is pending, no
   * other job has changed, and recipes and image rows were only appended.
   */
  ghost predicate BatchProgress(jobs0: seq<Job>, jobs: seq<Job>, recipes0: seq<RecipeRow>, recipes: seq<RecipeRow>,
                                images0: seq<ImageRow>, images: seq<ImageRow>, batch: seq<Job>, done: nat)
    requires done <= |batch|
  {
    && Advanced(jobs0, jobs)
    && (forall m :: done <= m < |batch| ==> IsPendingJob(jobs, batch[m].id))
    && (forall m :: 0 <= m < done ==> batch[m].id < |jobs| && IsTerminal(jobs[batch[m].id].status))
    && (forall i :: 0 <= i < |jobs| && i !in BatchIds(batch[..done]) ==> jobs[i] == jobs0[i])
    && recipes0 <= recipes && images0 <= images
    && CompletedNamed(jobs0, jobs, recipes)
  }

  /** Processing the next job of the batch keeps the progress relation. */
  lemma BatchStep(jobs0: seq<Job>, before: seq<Job>, after: seq<Job>,
                  recipes0: seq<RecipeRow>, recipesBefore: seq<RecipeRow>, recipesAfter: seq<RecipeRow>,
                  images0: seq<ImageRow>, imagesBefore: seq<ImageRow>, imagesAfter: seq<ImageRow>,
                  batch: seq<Job>, k: nat)
    requires k < |batch|
    requires forall j, m :: 0 <= j < m < |batch| ==> batch[j].id != batch[m].id
    requires BatchProgress(jobs0, before, recipes0, recipesBefore, images0, imagesBefore, batch, k)
    requires Advanced(before, after) && IsTerminal(after[batch[k].id].status)
    requires forall i :: 0 <= i < |after| && i != batch[k].id ==> after[i] == before[i]
    requires recipesBefore <= recipesAfter && imagesBefore <= imagesAfter
    requires after[batch[k].id].status == Completed ==> NamesRecipe(after[batch[k].id], recipesAfter)
    ensures BatchProgress(jobs0, after, recipes0, recipesAfter, images0, imagesAfter, batch, k + 1)
  {
    var id := batch[k].id;
    AdvancedTransitive(jobs0, before, after);
    assert jobs0[id] == before[id] by {
      assert id !in BatchIds(batch[..k]);
    }
    CompletedNamedStep(jobs0, before, after, recipesBefore, recipesAfter, id);
    assert BatchIds(batch[..k + 1]) == BatchIds(batch[..k]) + {id} by {
      assert forall m :: 0 <= m < k ==> batch[..k + 1][m] == batch[..k][m];
    }
  }

  /**
   * One batch, one job after the other: every job of the batch ends completed
   * or failed, no other job changes, recipes and image rows are only
   * appended, and each job completed names a stored recipe with its URL.
   */
  method ProcessBatch(store: Store, batch: seq<Job>, world: World)
    requires store.Valid()
    requires forall k :: 0 <= k < |batch| ==> IsPendingJob(store.jobs, batch[k].id)
    requires forall j, k :: 0 <= j < k < |batch| ==> batch[j].id != batch[k].id
    modifies store
    ensures store.Valid()
    ensures Advanced(old(store.jobs), store.jobs)
    ensures forall k :: 0 <= k < |batch| ==> batch[k].id < |store.jobs| && IsTerminal(store.jobs[batch[k].id].status)
    ensures forall i :: 0 <= i < |store.jobs| && i !in BatchIds(batch) ==> store.jobs[i] == old(store.jobs)[i]
    ensures old(store.recipes) <= store.recipes && old(store.images) <= store.images
    ensures CompletedNamed(old(store.jobs), store.jobs, store.recipes)
    ensures CountStatus(store.jobs, Pending) + |batch| == CountStatus(old(store.jobs), Pending)
  {
    assert BatchIds(batch[..0]) == {};
    for k := 0 to |batch|
      invariant store.Valid()
      invariant BatchProgress(old(store.jobs), store.jobs, old(store.recipes), store.recipes,
                              old(store.images), store.images, batch, k)
      invariant CountStatus(store.jobs, Pending) + k == CountStatus(old(store.jobs), Pending)
    {
      ghost var before, recipesBefore, imagesBefore := store.jobs, store.recipes, store.images;
      ProcessPendingJob(store, batch[k].id, world);
      BatchStep(old(store.jobs), before, store.jobs, old(store.recipes), recipesBefore, store.recipes,
                old(store.images), imagesBefore, store.images, batch, k);
    }
    assert batch[..|batch|] == batch;
  }

  /**
   * `processImportJob` on a pending job, as a batch sees it: the job ends
   * completed or failed, no other job changes, and the pending count drops by one.
   */
  method ProcessPendingJob(store: Store, jobId: nat, world: World)
    requires store.Valid() && IsPendingJob(store.jobs, jobId)
    modifies store
    ensures store.Valid()
    ensures Advanced(old(store.jobs), store.jobs) && IsTerminal(store.jobs[jobId].status)
    ensures forall i :: 0 <= i < |store.jobs| && i != jobId ==> store.jobs[i] == old(store.jobs)[i]
    ensures CountStatus(store.jobs, Pending) + 1 == CountStatus(old(store.jobs), Pending)
    ensures old(store.recipes) <= store.recipes && old(store.images) <= store.images
    ensures store.jobs[jobId].status == Completed ==> NamesRecipe(store.jobs[jobId], store.recipes)
  {
    ghost var before := store.Snapshot();
    ProcessedFrame(before, jobId, world);
    ProcessedAppends(before, jobId, world);
    if Processed(before, jobId, world).jobs[jobId].status == Completed {
      CompletedHasRecipe(before, jobId, world);
    }
    ProcessedLeavesPending(before, jobId, world);
    ProcessedAdvances(before, jobId, world);
    ProcessImportJob(store, jobId, world);
  }

  /**
   * `processPendingJobs(limit)`: batches of the oldest pending jobs until the
   * pending count is zero; each batch takes at least one job out of pending,
   * so the drain ends. A limit of 0 selects nothing and changes nothing.
   */
  method ProcessPendingJobs(store: Store, limit: nat, world: World)
    requires store.Valid()
    modifies store
    ensures store.Valid()
    ensures Advanced(old(store.jobs), store.jobs)
    ensures limit > 0 ==> CountStatus(store.jobs, Pending) == 0
    ensures limit == 0 ==> store.Snapshot() == old(store.Snapshot())
    ensures old(store.recipes) <= store.recipes && old(store.images) <= store.images
    ensures CompletedNamed(old(store.jobs), store.jobs, store.recipes)
  {
    var pendingJobs := store.PendingJobs(limit);
    PendingJobsEmpty(store, limit);
    while pendingJobs != []
      invariant store.Valid()
      invariant Advanced(old(store.jobs), store.jobs)
      invariant pendingJobs == store.PendingJobs(limit)
      invariant pendingJobs == [] ==> limit == 0 || CountStatus(store.jobs, Pending) == 0
      invariant limit == 0 ==> store.Snapshot() == old(store.Snapshot())
      invariant old(store.recipes) <= store.recipes && old(store.images) <= store.images
      invariant CompletedNamed(old(store.jobs), store.jobs, store.recipes)
      decreases CountStatus(store.jobs, Pending)
    {
      ghost var before, recipesBefore := store.jobs, store.recipes;
      ProcessBatch(store, pendingJobs, world);
      CompletedNamedTransitive(old(store.jobs), before, store.jobs, recipesBefore, store.recipes);
      var remainingJobs := CountStatus(store.jobs, Pending);
      if remainingJobs == 0 {
        break;
      }
      pendingJobs := store.PendingJobs(limit);
      PendingJobsEmpty(store, limit);
    }
  }

  /** `processPendingJobs()`: the default batch size of three, which drains every pending job. */
  method ProcessAllPendingJobs(store: Store, world: World)
    requires store.Valid()
    modifies store
    ensures store.Valid()
    ensures Advanced(old(store.jobs), store.jobs)
    ensures CountStatus(store.jobs, Pending) == 0
    ensures old(store.recipes) <= store.recipes && old(store.images) <= store.images
    ensures CompletedNamed(old(store.jobs), store.jobs, store.recipes)
  {
    ProcessPendingJobs(store, ConcurrentLimit, world);
  }
}
