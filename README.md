# Recipe extraction and bulk import, modelled in Dafny

This project models the pipeline a recipe-collection web application uses to
turn a URL into a stored recipe:

- **Structured-data extractor.** It finds the first schema.org `Recipe` node
  among a page's JSON-LD blocks, including members of a JSON-LD 1.1 `@graph`
  container. It then builds a recipe draft from that node:
  - ISO 8601 `PT…H…M` durations become minutes;
  - the `HowToStep`/`HowToSection` instruction shapes and the `image` field are
    normalised;
  - dietary tags are taken from the keywords.
- **Markup fallback extractor.** It reads title, description, ingredients,
  instructions and images through ordered chains of CSS selectors, with a
  second pass when the first finds nothing.
- **Recipe schema.** It admits or rejects a draft field by field.
- **Scrape orchestrator.** It fetches the page, tries the extractors in
  priority order, validates the draft and saves its images. Every failure
  becomes an unsuccessful result with a message.
- **Image downloader.** It keeps the images that could be saved, in their
  order, under a path derived from the image URL.
- **Bookmarks parser.** It keeps the `http` links of a browser bookmark
  export, one per URL, and recognises the export format.
- **Import job store and bulk processor.** Import jobs go pending → processing
  → completed or failed. A URL that already has a recipe is not scraped
  again. A drain takes batches of the oldest pending jobs until none is left.

The model is organised as follows:

- Functions that only compute are Dafny functions over datatypes: JSON values,
  drafts, jobs and tables.
- Loops that push into arrays are methods with loop invariants. Each is proved
  equal to a specification function, and the properties are proved as lemmas
  about that function.
- The job store is a class (`JobManager.Store`) whose fields the operations
  update in place.
- A JavaScript exception is an `Outcome` value (`Threw(fault)`), so `try`/`catch`
  is modelled precisely. The faults modelled are:
  - reading a property of `null`;
  - calling a method that does not exist;
  - `new URL` failing;
  - the schema rejecting a draft;
  - network and database errors.
- Everything outside the pipeline is a function-typed parameter (`Platform.World`):
  - the HTML parser, reduced to the element texts and attributes each
    selector group picks out;
  - the URL parser;
  - HTTP;
  - image transcoding and file writes;
  - MD5;
  - `path.extname`;
  - database write failures.

Modules, one per source file plus shared ones:

- `Wrappers`: `Option`.
- `Runtime`: the `Outcome` type and JavaScript error messages.
- `Json`: JSON values, truthiness, `||` and `String(v)`.
- `JsText`: `trim`, `includes`, `split`, `toLowerCase` and number formatting.
- `Lists`: filter-with-index and its positions.
- `Platform`: pages and the foreign calls.
- `RecipeSchema`, `JsonLdScraper`, `HtmlScraper`, `ImageDownloader`, `Scrapers`,
  `ChromeBookmarks`, `JobManager`, `BulkProcessor`: one per source file.

Where the code and its own description differ:

- **Duplicate bookmark URLs.** The code keeps the title of the *last* anchor
  for a URL, because `Map.set` overwrites. The model follows the code
  (`ChromeBookmarks.DuplicateKeepsLastTitle`).
- **Optional numbers on storage.** Every optional number is stored through
  `|| null`, so a time or a serving count of `0` is stored as null. The model
  follows the code (`BulkProcessor.RecipeRowFields`).
- **The default scrape-failure message.** `'Failed to scrape recipe'` can never
  be stored, because an unsuccessful scrape always carries a non-empty error
  (`BulkProcessor.ScrapeFailureExplained`).
- **The `catch` around `downloadImages`.** It is unreachable, because
  `downloadImage` catches every failure itself. The model has no such branch.

## Model

| member | source | states |
|---|---|---|
| JsText.TrimIsSlice | lib/parsers/chrome-bookmarks.ts:15 | `trim` returns a slice of its input with only white space (ECMAScript white space and line terminators) before and after it |
| JsText.TrimSlice | lib/parsers/chrome-bookmarks.ts:15 | conversely, any slice that starts and ends on a non-space character with only white space around it is what `trim` returns |
| JsText.TrimEmptyIff | lib/scrapers/html-scraper.ts:30-31 | a text trims to empty exactly when every character is white space |
| JsText.IndexOfFrom | lib/scrapers/jsonld-scraper.ts:25 | the search finds the leftmost occurrence at or after the start, and finds none only when there is none |
| JsText.SplitJoin | lib/scrapers/jsonld-scraper.ts:127 | splitting on a separator and joining with it again gives back the text; no part contains the separator |
| JsText.ToLowerLowers | lib/scrapers/jsonld-scraper.ts:129 | lowering case leaves no ASCII capital, changes only the capitals (each by 32) and is idempotent |
| Runtime.TryMap | lib/scrapers/jsonld-scraper.ts:36-57 | `map` returns a list of the same length, element by element, exactly when no call throws; otherwise it throws the first throw in index order |
| Runtime.RuntimeMessagesNonEmpty | lib/scrapers/index.ts:70 | every engine and schema error carries a non-empty message |
| Platform.SiteName | lib/scrapers/jsonld-scraper.ts:117 | the site name is a non-empty og:site_name, else the URL's host; it throws "Invalid URL" exactly when it needs the host of a malformed URL |
| RecipeSchema.ValidIffAllFieldsOk | lib/validation/recipe-schema.ts:3-33 | a draft is valid exactly when every checked field passes its own check |
| RecipeSchema.FailingFields | lib/validation/recipe-schema.ts:3-33 | the failing fields are exactly the fields whose check fails; there are none exactly when the draft is valid |
| RecipeSchema.Issues | lib/validation/recipe-schema.ts:3-33 | the issue list is empty exactly when the draft is valid |
| RecipeSchema.TitleIssueNamed | lib/validation/recipe-schema.ts:4 | a title that is not a non-empty string is reported under "title" |
| RecipeSchema.Validate | lib/validation/recipe-schema.ts:3-33 | parsing returns exactly for a valid draft, and otherwise throws a validation error listing the failing fields |
| RecipeSchema.ValidateKeepsValues | lib/validation/recipe-schema.ts:3-33 | the parsed record holds the draft's own values: loosening it back gives the draft |
| RecipeSchema.ValidateTyped | lib/validation/recipe-schema.ts:4-6 | a typed record passes exactly when its title is non-empty and its URL parses, and parsing then returns it unchanged |
| RecipeSchema.NumbersAndEmptyListsAdmitted | lib/validation/recipe-schema.ts:8-15 | any durations and serving counts (no sign or range check) and empty ingredient and instruction lists leave a valid draft valid |
| JsonLdScraper.ParseISODuration | lib/scrapers/jsonld-scraper.ts:23-31 | a duration without "PT" gives 0 minutes and never throws |
| JsonLdScraper.PTAfter | lib/scrapers/jsonld-scraper.ts:25 | the unanchored pattern matches at the leftmost "PT" |
| JsonLdScraper.ParseDesignatedDuration | lib/scrapers/jsonld-scraper.ts:25-30 | for any prefix without "PT", optional hour and minute digit groups and following text that does not start with a digit when minutes are absent, the minutes are 60·h + m; an absent component counts 0 |
| JsonLdScraper.UndesignatedDigitsIgnored | lib/scrapers/jsonld-scraper.ts:25-30 | digits after the hours that are not followed by `M` (seconds, as in `PT1H30S` or `PT30S`, or a bare number) contribute nothing: the value is 60·h |
| JsonLdScraper.HoursAndMinutesDigits | lib/scrapers/jsonld-scraper.ts:25-30 | "PT{hours}H{minutes}M" with non-empty digit strings is 60 times the hours plus the minutes |
| JsonLdScraper.HoursAndMinutes | lib/scrapers/jsonld-scraper.ts:23-31 | "PT{h}H{m}M" is 60·h + m minutes for every h and m |
| JsonLdScraper.SectionStepOf | lib/scrapers/jsonld-scraper.ts:49-52 | a section's item becomes its text (or '') numbered from 1 within the section, and a null item throws |
| JsonLdScraper.SectionSteps | lib/scrapers/jsonld-scraper.ts:49-52 | a missing or null item list gives no steps; an array gives one step per item, the k-th being that item's text numbered k + 1, and throws exactly when an item is null; any other value throws |
| JsonLdScraper.NormalizeStep | lib/scrapers/jsonld-scraper.ts:36-56 | a string becomes a step; `HowToStep` takes text, else name, else ''; `HowToSection` becomes a named section holding its item list's steps and throws exactly when they throw; anything else becomes `String(step)`; the order is index + 1; a null step throws |
| JsonLdScraper.NormalizeInstructions | lib/scrapers/jsonld-scraper.ts:33-58 | the instruction list keeps its length, and element i is step i normalised with order i + 1; it returns exactly when no step throws |
| JsonLdScraper.NormalizeImage | lib/scrapers/jsonld-scraper.ts:64-72 | a string becomes `{url}`; an object with a url becomes `{url, alt: caption}`; anything else becomes `{url: String(img)}`; null throws |
| JsonLdScraper.NormalizeImages | lib/scrapers/jsonld-scraper.ts:60-73 | an absent image gives []; a single value is wrapped; the output keeps the length and normalises element by element |
| JsonLdScraper.DietaryTagsInOrder | lib/scrapers/jsonld-scraper.ts:128-133 | the dietary tags are the keywords at the dietary positions, in keyword order |
| JsonLdScraper.DietaryTagsMembers | lib/scrapers/jsonld-scraper.ts:128-133 | a text is a dietary tag exactly when it is a keyword whose lower-case form contains vegetarian, vegan, gluten-free or dairy-free |
| JsonLdScraper.Keywords | lib/scrapers/jsonld-scraper.ts:127 | missing keywords give []; a string gives its comma-separated parts trimmed; any other value throws |
| JsonLdScraper.Duration | lib/scrapers/jsonld-scraper.ts:140-142 | an absent or empty duration gives undefined, a string gives its minutes, and any other truthy value throws |
| JsonLdScraper.ReadParts | lib/scrapers/jsonld-scraper.ts:117-147 | the draft's throwing steps all return, giving each part its value, or the first one to throw, in the source's order, decides the fault; a malformed URL without a site name throws "Invalid URL" |
| JsonLdScraper.BuildDraft | lib/scrapers/jsonld-scraper.ts:135-161 | the draft carries the requested URL and the node as raw data; mainImageUrl is the first image's url, and absent exactly when there is no image |
| JsonLdScraper.RecipeDraft | lib/scrapers/jsonld-scraper.ts:135-161 | the draft is built exactly when its parts are read without a throw |
| JsonLdScraper.RecipeDraftFields | lib/scrapers/jsonld-scraper.ts:116-161 | title is name, else the page title; an absent prep time is undefined, a present one is parsed; servings is recipeYield when it is a number and unset otherwise; the site-name fallback; mainImageUrl; dietary is exactly the dietary keywords in keyword order |
| JsonLdScraper.RecipeDraftContents | lib/scrapers/jsonld-scraper.ts:135-161 | description, cuisine and datePublished are copied; yield is `String(recipeYield \|\| '')`; ingredients default to []; cook and total times are parsed when present; instructions, images, categories and author are the normalised values |
| JsonLdScraper.DeclaredShapeNeverThrows | lib/scrapers/jsonld-scraper.ts:4-21 | a node with the field shapes the extractor's interface declares, on a page with a site name or a parsable URL, always yields a draft |
| JsonLdScraper.FindInGraph | lib/scrapers/jsonld-scraper.ts:92-95 | the graph search returns a member typed Recipe (or with Recipe in its type list), finds none only when no member is one, and throws only on a null member |
| JsonLdScraper.FindInGraphFirst | lib/scrapers/jsonld-scraper.ts:92-95 | as `Array.prototype.find`: the member found is the first Recipe-typed one, and the search throws exactly when a null member comes before every Recipe |
| JsonLdScraper.BlockRecipe | lib/scrapers/jsonld-scraper.ts:84-110 | a block yields only nodes typed Recipe, and an empty or unparsable block yields nothing |
| JsonLdScraper.GraphCheckedFirst | lib/scrapers/jsonld-scraper.ts:91-107 | a Recipe found in a block's `@graph` wins over the block's own type; a graph array without one falls back to the block's own type; a graph search that throws, or a truthy non-array `@graph`, makes the block be skipped |
| JsonLdScraper.OwnTypeWithoutGraph | lib/scrapers/jsonld-scraper.ts:103-107 | without a graph, a block is picked exactly when it is typed Recipe itself |
| JsonLdScraper.FirstRecipe | lib/scrapers/jsonld-scraper.ts:83-111 | the node is the first block's, in document order, that yields one; there is none exactly when no block yields one |
| JsonLdScraper.FindRecipeBlock | lib/scrapers/jsonld-scraper.ts:81-111 | the loop with its early break settles on the first block that yields a Recipe |
| JsonLdScraper.JsonLdResult | lib/scrapers/jsonld-scraper.ts:113-161 | no Recipe node gives null; otherwise the result is the draft built from the first Recipe node, or that draft's throw |
| JsonLdScraper.ScrapeJsonLd | lib/scrapers/jsonld-scraper.ts:75-162 | the statement-by-statement extractor gives the same result as its specification |
| HtmlScraper.HtmlFallbackChains | lib/scrapers/html-scraper.ts:8-68 | title: the trimmed h1, else og:title, else the trimmed title; description is empty only when both metas are; ingredients and instructions come from the first pass when it kept anything, else from the second pass, never from both |
| HtmlScraper.KeptTextsAtPositions | lib/scrapers/html-scraper.ts:29-34 | the kept texts are the trimmed texts of exactly the non-blank elements, in document order, none of them empty |
| HtmlScraper.StepOrdersIncrease | lib/scrapers/html-scraper.ts:53-58 | each step is numbered with its element's index + 1 (skipped elements count), numbers strictly increase, and every non-blank element gives a step |
| HtmlScraper.ImageOf | lib/scrapers/html-scraper.ts:81 | an image entry has a string url and, when present, a string alt |
| HtmlScraper.RecipeImages | lib/scrapers/html-scraper.ts:77-83 | the accepted images are at most the elements and have the schema's image shape |
| HtmlScraper.HtmlImages | lib/scrapers/html-scraper.ts:74-91 | the accepted images, else a non-empty og:image alone, else none |
| HtmlScraper.HtmlImagesFiltered | lib/scrapers/html-scraper.ts:77-91 | every kept image comes from an element with a source naming no logo or icon, with that source and alt, in document order; og:image adds at most one |
| HtmlScraper.Prefix | lib/scrapers/html-scraper.ts:119 | the raw data keeps a prefix of at most 1000 characters, the whole markup when shorter |
| HtmlScraper.HtmlDraft | lib/scrapers/html-scraper.ts:104-121 | the draft carries the title, description, URL, site name, ingredients (as strings), instructions and images, with mainImageUrl the first image's url and the first 1000 characters as raw data; every other field, the times included, is unset |
| HtmlScraper.HtmlResult | lib/scrapers/html-scraper.ts:4-122 | it throws exactly when the site name needs the host of a malformed URL; otherwise it is null exactly when the title is empty or there are neither ingredients nor instructions, and a draft is the fallback draft built from the chains' title, description, ingredients, instructions and images (mainImageUrl the first image's url, every other field unset) |
| HtmlScraper.HtmlDraftValid | lib/scrapers/html-scraper.ts:104-121 | a fallback draft fails the schema only on a malformed URL |
| HtmlScraper.CollectTexts | lib/scrapers/html-scraper.ts:29-34 | the push loop builds the kept texts |
| HtmlScraper.CollectSteps | lib/scrapers/html-scraper.ts:53-58 | the push loop builds the numbered steps |
| HtmlScraper.CollectImages | lib/scrapers/html-scraper.ts:77-83 | the push loop builds the accepted images |
| HtmlScraper.CollectIngredients | lib/scrapers/html-scraper.ts:23-44 | the two ingredient passes give the specified ingredients |
| HtmlScraper.CollectInstructions | lib/scrapers/html-scraper.ts:47-68 | the two instruction passes give the specified steps |
| HtmlScraper.CollectPageImages | lib/scrapers/html-scraper.ts:71-91 | the image pass and the og:image fallback give the specified images |
| HtmlScraper.ScrapeHtml | lib/scrapers/html-scraper.ts:4-122 | the statement-by-statement extractor gives the same result as its specification |
| ImageDownloader.Extension | lib/scrapers/image-downloader.ts:29 | for a URL that parses, the extension is its path's extension, or `.jpg` when the path has none; an unparsable URL throws in `new URL` and never gets its extension used, since `DownloadImage` then gives none |
| ImageDownloader.LocalPathsDistinct | lib/scrapers/image-downloader.ts:28-32 | the saved name is content-addressed: the digest can be read back from the path, and URLs with different digests get different paths |
| ImageDownloader.DownloadImage | lib/scrapers/image-downloader.ts:13-55 | it saves an image exactly when every step succeeds, keeping the requested URL and the alt unchanged, and it never throws |
| ImageDownloader.DownloadImages | lib/scrapers/image-downloader.ts:57-69 | the result is no longer than the input |
| ImageDownloader.DownloadImagesInOrder | lib/scrapers/image-downloader.ts:60-68 | the result holds exactly the successful downloads, in input order, and misses none |
| ImageDownloader.AllImagesDownloaded | lib/scrapers/image-downloader.ts:60-68 | when every download succeeds, the result matches the input one for one |
| Scrapers.CaughtError | lib/scrapers/index.ts:70 | a caught error is reported by its message, or by the default one when the message is empty |
| Scrapers.SavedImages | lib/scrapers/index.ts:48-55 | skipping the downloader for no images gives what it would have given |
| Scrapers.Scrape | lib/scrapers/index.ts:14-73 | success carries data and a method and no error; a failure carries a non-empty error and no data |
| Scrapers.SuccessIsValidated | lib/scrapers/index.ts:29-64 | a successful scrape fetched the page and returns the extracted draft, validated: it loosens back to that draft, passes the schema with the requested URL and a non-empty title, and is labelled with the extractor that produced it |
| Scrapers.JsonLdTakesPrecedence | lib/scrapers/index.ts:28-35 | a structured-data draft is used, labelled jsonld, and the fallback plays no part |
| Scrapers.HtmlOnlyWithoutJsonLd | lib/scrapers/index.ts:28-35 | the method is html exactly when the structured data gave null, and the draft is then the fallback's |
| Scrapers.NothingExtracted | lib/scrapers/index.ts:37-42 | when neither extractor finds anything, the result is the "Could not extract recipe data" failure |
| Scrapers.FetchFailureReported | lib/scrapers/index.ts:17-72 | a failed fetch is reported by its message, or the default one |
| Scrapers.ExtractorFaultReported | lib/scrapers/index.ts:29-72 | an error thrown by an extractor is reported by its message, or `Unknown error occurred while scraping` when that is empty |
| Scrapers.InvalidDraftReported | lib/scrapers/index.ts:45-72 | a draft the schema rejects gives a failure with the validation message, and no image is saved |
| Scrapers.SavedImagesFromRecipe | lib/scrapers/index.ts:48-64 | the downloaded images are the validated recipe's images that could be saved, no more than it has |
| Scrapers.ScrapeRecipe | lib/scrapers/index.ts:14-73 | the statement-by-statement orchestrator gives the same result as its specification |
| ChromeBookmarks.LinkOf | lib/parsers/chrome-bookmarks.ts:15-21 | a link's title is the trimmed anchor text, absent exactly when that is empty |
| ChromeBookmarks.CandidateLinks | lib/parsers/chrome-bookmarks.ts:13-23 | there are no more candidate links than anchors |
| ChromeBookmarks.CandidateLinksAreWebLinks | lib/parsers/chrome-bookmarks.ts:17 | every candidate link's URL starts with "http" |
| ChromeBookmarks.DedupeByUrl | lib/parsers/chrome-bookmarks.ts:26-28 | one link per distinct URL, in first-occurrence order, each the last link with that URL |
| ChromeBookmarks.ParsedUrlsUnique | lib/parsers/chrome-bookmarks.ts:26-28 | no URL appears twice, and there are at most as many links as web anchors |
| ChromeBookmarks.ParsedCoversEveryLink | lib/parsers/chrome-bookmarks.ts:13-28 | every web anchor's URL is among the parsed links |
| ChromeBookmarks.ParsedKeepsLastLink | lib/parsers/chrome-bookmarks.ts:26-28 | each parsed link is the last web link with its URL, and that URL starts with "http" |
| ChromeBookmarks.ParsedInFirstOccurrenceOrder | lib/parsers/chrome-bookmarks.ts:26-28 | the links are ordered by the first occurrence of their URLs |
| ChromeBookmarks.DuplicateKeepsLastTitle | lib/parsers/chrome-bookmarks.ts:26-28 | two anchors for one URL give one link, titled by the later anchor |
| ChromeBookmarks.CollectLinks | lib/parsers/chrome-bookmarks.ts:13-23 | the push loop builds the candidate links |
| ChromeBookmarks.DedupeLoop | lib/parsers/chrome-bookmarks.ts:27 | the Map's keys are the distinct URLs in insertion order, each mapped to the last link with that URL |
| ChromeBookmarks.MapValues | lib/parsers/chrome-bookmarks.ts:26 | reading the Map's values in key order gives the deduplicated links |
| ChromeBookmarks.ParseChromeBookmarks | lib/parsers/chrome-bookmarks.ts:8-31 | the statement-by-statement parser gives the same result as its specification |
| ChromeBookmarks.DoctypeNamesFormat | lib/parsers/chrome-bookmarks.ts:36 | the doctype line contains the format name |
| ChromeBookmarks.DoctypeTestSubsumed | lib/parsers/chrome-bookmarks.ts:33-40 | a text is recognised exactly when it contains "NETSCAPE-Bookmark-file", or both "<DT>" and "<A HREF="; the doctype test adds nothing |
| JobManager.NewJobs | lib/import/job-manager.ts:25-30 | one new pending job per URL, duplicates included, in list order |
| JobManager.UpdatedFields | lib/import/job-manager.ts:53-61 | the status is always set; completedAt is set exactly for completed or failed; errorMessage and recipeId change only when supplied; id, url and createdAt are kept |
| JobManager.CountStatus | lib/import/job-manager.ts:86-89 | a status count is at most the number of jobs |
| JobManager.CountsPartition | lib/import/job-manager.ts:84-93 | the four status counts sum to the number of jobs |
| JobManager.Store.CreateImportJob | lib/import/job-manager.ts:15-22 | one pending job for the URL is appended, stamped with the clock, and nothing else changes |
| JobManager.RecentPending | lib/import/job-manager.ts:33-42 | at most one job per URL entry, each pending and for a listed URL, newest first |
| JobManager.Store.CreateBulkImportJobs | lib/import/job-manager.ts:24-43 | one pending job per URL is appended, and the returned list is exactly the new jobs, newest first |
| JobManager.Store.UpdateJobStatus | lib/import/job-manager.ts:45-62 | a missing job gives the "Record to update not found." error and no change; otherwise only that job is updated, with no transition guard |
| JobManager.Store.PendingJobs | lib/import/job-manager.ts:64-70 | at most limit jobs, each pending and stored, oldest first |
| JobManager.Store.DefaultPendingJobs | lib/import/job-manager.ts:64 | without a limit, at most ten pending jobs |
| JobManager.PendingJobsOldestFirst | lib/import/job-manager.ts:64-70 | every pending job left out is newer than all returned jobs, and none is left out when fewer than limit are returned |
| JobManager.PendingJobsEmpty | lib/import/job-manager.ts:64-70 | no job is returned exactly when the limit is 0 or no job is pending |
| JobManager.Store.AllJobs | lib/import/job-manager.ts:72-76 | all jobs, each once, newest first |
| JobManager.Store.JobById | lib/import/job-manager.ts:78-82 | the job with that id, or none exactly when there is none |
| JobManager.Store.Stats | lib/import/job-manager.ts:84-93 | the four counts sum to the number of jobs |
| JobManager.IndexOfUrl | lib/import/bulk-processor.ts:22-24 | the lookup finds the first recipe with the URL, or none exactly when there is none |
| JobManager.Store.RecipeWithUrl | lib/import/bulk-processor.ts:22-24 | it finds a stored recipe with the URL, or none exactly when there is none |
| JobManager.Store.CreateRecipe | lib/import/bulk-processor.ts:45-67 | the insert fails on a write error or an already stored URL and changes nothing; otherwise it appends the row and returns its id |
| JobManager.Store.CreateImageRows | lib/import/bulk-processor.ts:71-79 | the insert appends all rows, or fails and changes nothing |
| BulkProcessor.RecipeRowFields | lib/import/bulk-processor.ts:45-67 | the stored row keeps URL, title, lists and raw data; optional fields are kept only when truthy (0 and '' become null); notes is always null |
| BulkProcessor.ImageRowsOf | lib/import/bulk-processor.ts:71-79 | one row per saved image, for the new recipe, with its URL, path and alt, ordered 0..n-1 in download order |
| BulkProcessor.ScrapeFailureMessage | lib/import/bulk-processor.ts:39 | the stored message is the scrape's error when non-empty, else the default |
| BulkProcessor.ScrapeFailureExplained | lib/import/bulk-processor.ts:37-42 | an unsuccessful scrape's own error is always stored; the default is never used |
| BulkProcessor.CaughtMessage | lib/import/bulk-processor.ts:86-92 | a caught error is stored by its message, or "Unknown error" when that is empty |
| BulkProcessor.ProcessedFrame | lib/import/bulk-processor.ts:8-93 | a job that is missing or not pending changes nothing; otherwise only that job changes and it ends completed or failed with completedAt set |
| BulkProcessor.StoredFrame | lib/import/bulk-processor.ts:45-92 | storing changes no job but the one it completes or fails |
| BulkProcessor.ProcessedLeavesPending | lib/import/bulk-processor.ts:13-92 | processing a pending job lowers the pending count by exactly one |
| BulkProcessor.ExistingRecipeReused | lib/import/bulk-processor.ts:22-32 | a URL that already has a recipe completes the job with that recipe's id, with no new recipe or image |
| BulkProcessor.ScrapeFailureStoresNothing | lib/import/bulk-processor.ts:37-42 | a failed scrape fails the job with the scrape's error and stores nothing |
| BulkProcessor.SuccessfulImport | lib/import/bulk-processor.ts:45-85 | a successful import stores exactly one recipe for the job's URL and its image rows, and completes the job with the new id |
| BulkProcessor.ImageFailureKeepsRecipe | lib/import/bulk-processor.ts:45-92 | an image-row failure fails the job with the database's message (or `Unknown error`) but does not roll back the recipe |
| BulkProcessor.RecipeWriteFailure | lib/import/bulk-processor.ts:45-92 | a rejected `recipe.create` fails the job with the database's message (or `Unknown error`) and stores neither a recipe nor image rows |
| BulkProcessor.RecipeUrlsStayDistinct | lib/import/bulk-processor.ts:22-67 | processing never stores a second recipe for a URL |
| BulkProcessor.CompletedHasRecipe | lib/import/bulk-processor.ts:22-85 | a job that ends completed names a stored recipe whose URL is the job's URL |
| BulkProcessor.ImportIdempotent | lib/import/bulk-processor.ts:22-32 | after one job for a URL completes, a second job for it completes with the same recipe and stores nothing |
| BulkProcessor.ProcessImportJob | lib/import/bulk-processor.ts:8-93 | the statement-by-statement processing gives the database its specification describes, and keeps the store's invariant |
| BulkProcessor.ProcessPendingJob | lib/import/bulk-processor.ts:8-93 | processing a pending job ends it completed or failed, changes no other job, lowers the pending count by one, only appends recipes and image rows, and a completed job names a stored recipe with its URL |
| BulkProcessor.ProcessedAppends | lib/import/bulk-processor.ts:45-80 | processing a job only ever appends recipes and image rows |
| BulkProcessor.BatchStep | lib/import/bulk-processor.ts:107-109 | each further job of a batch keeps the batch's progress: processed jobs terminal and linked to their recipes, the rest pending, other jobs untouched |
| BulkProcessor.ProcessBatch | lib/import/bulk-processor.ts:107-109 | every job of a batch of distinct pending jobs ends completed or failed, no other job changes, recipes and image rows are only appended, and each completed job names a stored recipe with its URL |
| BulkProcessor.ProcessPendingJobs | lib/import/bulk-processor.ts:95-123 | the drain ends with no pending job (limit > 0) or changes nothing (limit 0); every job is unchanged or went from pending to completed or failed; recipes and image rows are only appended; each job it completed names a stored recipe with its URL |
| BulkProcessor.ProcessAllPendingJobs | lib/import/bulk-processor.ts:95 | with the default batch size of three, the drain leaves no pending job |
| BulkProcessor.CompletedNamedTransitive | lib/import/bulk-processor.ts:119-122 | across successive batches, a completed job keeps naming its recipe |

## Left out

- HTML parsing (cheerio) and the CSS selectors: a page is given as the texts and attributes each selector group matches, in document order.
- `JSON.parse`: a block is given as a parsed JSON value, or none when it is empty or malformed.
- The HTTP client, image transcoding (sharp), the file system, MD5 and `path.extname`: these are functions of `Platform.World`.
- The URL parser and zod's URL check: a parsed URL or none, from `World.parseUrl`.
- The database (Prisma): it is the `JobManager.Store` tables. Recipe URLs are taken to be unique, as the lookup by URL implies. `prisma/schema.prisma` is not part of this model.
- Database failures of the status updates themselves: they are not modelled; only the recipe and image-row inserts can fail.
- Record ids and timestamps: job ids are positions in the job table, recipe ids are positions in the recipe table, and times are one counter that rises with every write. Ties among the `createdAt` values of one `createMany` are not modelled.
- JSON numbers: these are integers. Fractions, NaN and the precision of `parseInt` are not modelled.
- Lower-casing: it is modelled for ASCII letters only, and strings are sequences of characters rather than UTF-16 code units.
- The text of zod's error message: the model uses the list of failing fields in schema order.
- Conversion of `datePublished` to a `Date`: the text is stored. In the source an unparsable date makes `recipe.create` reject (lib/import/bulk-processor.ts:64), so that job fails; the model stores the row and completes the job.
- A negative `take` passed as a limit: limits are natural numbers.
- Logging (`console.error`): omitted.
- Unused computations: the 15 s and 10 s timeouts, request headers, and the prep and cook times the markup extractor reads but never returns (which `HtmlScraper.HtmlDraft` leaves unset) are not modelled.
- Concurrency: the `Promise.allSettled` batch is processed one job after another. The 2 s pause between batches and overlapping drains started by separate requests are not modelled.
- JobManager.Store.CreateBulkImportJobs: returns exactly the new jobs. That holds because the model runs one operation at a time and its creation stamps are distinct. With interleaved requests or equal `createdAt` values, the source's query can also return older pending jobs for the same URLs.
- BulkProcessor.ProcessPendingJobs: the drain is a loop rather than a recursive call. It proves termination by the falling pending count, which holds only for sequential processing.
- BulkProcessor.ImportIdempotent: the second import reuses the first one's recipe only when the two jobs are processed one after the other. Under `Promise.allSettled`, two jobs for one URL in the same batch can both miss the lookup; the second `recipe.create` then fails on the unique URL and that job fails.
- BulkProcessor.ProcessPendingJobs: the final tables are not given as a function of the initial ones. The contract states what every drain guarantees: no job left pending, jobs only advanced, rows only appended, completed jobs linked to their recipes. The exact tables after one job are stated by `BulkProcessor.ProcessImportJob`.
- ImageDownloader.Extension: for an unparsable URL the source throws in `new URL` (lib/scrapers/image-downloader.ts:29) and the download gives null; `Extension` itself still returns `.jpg` there and promises nothing about that case, because `DownloadImage` uses it only for URLs that parse.
