/**
 * The scraping entry point: fetches a page, tries the structured-data
 * extractor and then the markup fallback, validates what was found and saves
 * its images; every failure on the way becomes an unsuccessful result.
 */
module Scrapers {
  import opened Wrappers
  import opened Runtime
  import opened Platform
  import opened RecipeSchema
  import opened JsonLdScraper
  import opened HtmlScraper
  import opened ImageDownloader

  /** Which extractor produced the recipe. */
  datatype Method = JsonLd | Html

  /** The validated recipe with the images saved for it. */
  datatype ScrapeData = ScrapeData(recipe: RecipeData, downloadedImages: seq<DownloadedImage>)

  /** `ScrapeResult` */
  datatype ScrapeResult = ScrapeResult(success: bool, data: Option<ScrapeData>, error: Option<string>, scrapeMethod: Option<Method>)

  const ExtractionFailure: string := "Could not extract recipe data from this URL"
  const UnknownScrapeError: string := "Unknown error occurred while scraping"

  function Failure(error: string): ScrapeResult {
    ScrapeResult(false, None, Some(error), None)
  }

  /** `error.message || 'Unknown error occurred while scraping'` */
  function CaughtError(f: Fault): (e: string)
    ensures e != ""
    ensures Message(f) != "" ==> e == Message(f)
  {
    if Message(f) != "" then Message(f) else UnknownScrapeError
  }

  /** The structured-data result, else the fallback's, with the extractor that gave it. */
  function Extract(page: Page, url: string, world: World): (r: Outcome<Option<(Draft, Method)>>)
  {
    var fromJsonLd :- JsonLdResult(page, url, world);
    if fromJsonLd.Some? then Returned(Some((fromJsonLd.value, JsonLd)))
    else
      var fromHtml :- HtmlResult(page, url, world.parseUrl);
      if fromHtml.Some? then Returned(Some((fromHtml.value, Html))) else Returned(None)
  }

  /** `downloadImages` is only called for a non-empty list; the empty list gives the same. */
  function SavedImages(images: seq<Image>, world: World): (r: seq<DownloadedImage>)
    ensures images == [] ==> r == []
    ensures r == DownloadImages(images, world)
  {
    if |images| > 0 then DownloadImages(images, world) else []
  }

  /** The body of the `try` in `scrapeRecipe`. */
  function Attempt(url: string, world: World): (r: Outcome<ScrapeResult>)
  {
    match world.fetchPage(url)
    case FetchFailed(message) => Threw(Network(message))
    case Fetched(page) =>
      var found :- Extract(page, url, world);
      if found.None? then Returned(Failure(ExtractionFailure))
      else
        var validated :- Validate(found.value.0, world.parseUrl);
        var downloaded := SavedImages(validated.images, world);
        Returned(ScrapeResult(true, Some(ScrapeData(validated, downloaded)), None, Some(found.value.1)))
  }

  /** `scrapeRecipe(url)`: a throw anywhere in the attempt is caught and reported by its message. */
  function Scrape(url: string, world: World): (r: ScrapeResult)
    ensures r.success <==> r.data.Some?
    ensures r.success <==> r.scrapeMethod.Some?
    ensures r.success <==> r.error.None?
    ensures !r.success ==> r.error.value != ""
  {
    match Attempt(url, world)
    case Returned(result) => result
    case Threw(f) => Failure(CaughtError(f))
  }

  /** The schema facts alone: a scraped recipe carries the requested URL and passes the schema. */
  lemma ScrapedRecipeValid(url: string, world: World)
    requires Scrape(url, world).success
    ensures var recipe := Scrape(url, world).data.value.recipe;
      && recipe.url == url
      && Valid(Loosen(recipe), world.parseUrl)
      && recipe.title != ""
      && world.parseUrl(url).Some?
  {
    var page := world.fetchPage(url).page;
    var found := Extract(page, url, world).value.value;
    ValidateKeepsValues(found.0, world.parseUrl);
  }

  /**
   * A recipe reported as scraped is the extracted draft, validated: it
   * carries the requested URL, passes the schema as it stands, loosens back
   * to the draft the extractor produced, and is labelled with that extractor.
   */
  lemma SuccessIsValidated(url: string, world: World)
    requires Scrape(url, world).success
    ensures var recipe := Scrape(url, world).data.value.recipe;
      && recipe.url == url
      && Valid(Loosen(recipe), world.parseUrl)
      && recipe.title != ""
      && world.parseUrl(url).Some?
    ensures world.fetchPage(url).Fetched?
    ensures var e := Extract(world.fetchPage(url).page, url, world);
      && e.Returned? && e.value.Some?
      && Loosen(Scrape(url, world).data.value.recipe) == e.value.value.0
      && Scrape(url, world).scrapeMethod == Some(e.value.value.1)
  {
    var page := world.fetchPage(url).page;
    var found := Extract(page, url, world).value.value;
    ValidateKeepsValues(found.0, world.parseUrl);
  }

  /** The structured data wins: when it yields a recipe, the fallback plays no part. */
  lemma JsonLdTakesPrecedence(page: Page, url: string, world: World)
    requires JsonLdResult(page, url, world).Returned? && JsonLdResult(page, url, world).value.Some?
    ensures Extract(page, url, world) == Returned(Some((JsonLdResult(page, url, world).value.value, JsonLd)))
  {
  }

  /** The fallback is consulted only when the structured data yields nothing, and is then reported. */
  lemma HtmlOnlyWithoutJsonLd(page: Page, url: string, world: World)
    requires Extract(page, url, world).Returned? && Extract(page, url, world).value.Some?
    ensures Extract(page, url, world).value.value.1 == Html <==> JsonLdResult(page, url, world) == Returned(None)
    ensures Extract(page, url, world).value.value.1 == Html ==>
              Extract(page, url, world).value.value.0 == HtmlResult(page, url, world.parseUrl).value.value
  {
  }

  /** A fetched page from which neither extractor gets anything is reported as such. */
  lemma NothingExtracted(url: string, world: World)
    requires world.fetchPage(url).Fetched?
    requires Extract(world.fetchPage(url).page, url, world) == Returned(None)
    ensures Scrape(url, world) == Failure(ExtractionFailure)
  {
  }

  /** A failed fetch is reported with the HTTP client's message, or the generic one when it has none. */
  lemma FetchFailureReported(url: string, world: World)
    requires world.fetchPage(url).FetchFailed?
    ensures var message := world.fetchPage(url).message;
      Scrape(url, world) == Failure(if message != "" then message else UnknownScrapeError)
  {
  }

  /**
   * An extractor that throws (an unparsable page URL in the site-name
   * fallback, a malformed structured-data field) is reported by its
   * message, or the default one when that message is empty.
   */
  lemma ExtractorFaultReported(url: string, world: World)
    requires world.fetchPage(url).Fetched?
    requires Extract(world.fetchPage(url).page, url, world).Threw?
    ensures Scrape(url, world) == Failure(CaughtError(Extract(world.fetchPage(url).page, url, world).fault))
  {
  }

  /** A draft the schema rejects is reported with the failing fields, and nothing is saved. */
  lemma InvalidDraftReported(url: string, world: World)
    requires world.fetchPage(url).Fetched?
    requires var found := Extract(world.fetchPage(url).page, url, world);
      found.Returned? && found.value.Some? && !Valid(found.value.value.0, world.parseUrl)
    ensures var d := Extract(world.fetchPage(url).page, url, world).value.value.0;
      Scrape(url, world) == Failure(Message(ValidationFailed(Issues(d, world.parseUrl))))
  {
  }

  /** The saved images are the validated recipe's images that could be saved, in their order. */
  lemma SavedImagesFromRecipe(url: string, world: World)
    requires Scrape(url, world).success
    ensures var data := Scrape(url, world).data.value;
      data.downloadedImages == DownloadImages(data.recipe.images, world)
      && |data.downloadedImages| <= |data.recipe.images|
  {
  }

  /** The `try` block of `scrapeRecipe`, statement by statement. */
  method ScrapeRecipe(url: string, world: World) returns (r: ScrapeResult)
    ensures r == Scrape(url, world)
  {
    var response := world.fetchPage(url);
    if response.FetchFailed? {
      return Failure(CaughtError(Network(response.message)));
    }
    var html := response.page;
    var recipeData := ScrapeJsonLd(html, url, world);
    if recipeData.Threw? {
      return Failure(CaughtError(recipeData.fault));
    }
    var scrapeMethod := JsonLd;
    if recipeData.value.None? {
      recipeData := ScrapeHtml(html, url, world);
      if recipeData.Threw? {
        return Failure(CaughtError(recipeData.fault));
      }
      scrapeMethod := Html;
    }
    if recipeData.value.None? {
      return Failure(ExtractionFailure);
    }
    var validated := Validate(recipeData.value.value, world.parseUrl);
    if validated.Threw? {
      return Failure(CaughtError(validated.fault));
    }
    var downloadedImages := [];
    if |validated.value.images| > 0 {
      downloadedImages := DownloadImages(validated.value.images, world);
    }
    r := ScrapeResult(true, Some(ScrapeData(validated.value, downloadedImages)), None, Some(scrapeMethod));
  }
}
