/**
 * What the pipeline receives from code outside this model: a fetched page
 * after HTML parsing, reduced to the element texts and attributes the
 * extractors' selectors pick out, and the environment's foreign calls (URL
 * parsing, HTTP, image transcoding, hashing, path handling and persistence
 * failures) as functions supplied by the caller.
 */
module Platform {
  import opened Wrappers
  import opened Runtime
  import opened Json

  /** The parts of a parsed `new URL(s)` the pipeline reads. */
  datatype Url = Url(hostname: string, pathname: string)

  /** An `<img>` element matched by the recipe-image selectors. */
  datatype ImgElement = ImgElement(src: Option<string>, alt: Option<string>)

  /** A fetched HTML document, as seen through the extractors' selectors, each list in document order. */
  datatype Page = Page(
    html: string,                      // the raw response text
    ldBlocks: seq<Option<Json>>,       // each `script[type="application/ld+json"]`; None when empty or not valid JSON
    titleText: string,                 // the text of the `<title>` elements
    h1Text: string,                    // the text of the first `<h1>`
    ogTitle: Option<string>,           // `content` of meta og:title
    ogSiteName: Option<string>,        // `content` of meta og:site_name
    ogDescription: Option<string>,     // `content` of meta og:description
    ogImage: Option<string>,           // `content` of meta og:image
    metaDescription: Option<string>,   // `content` of meta name=description
    ingredientTexts: seq<string>,      // texts of the ingredient-class and itemprop elements
    ingredientItemTexts: seq<string>,  // texts of `li` elements inside ingredient containers
    instructionTexts: seq<string>,     // texts of the instruction/direction elements
    instructionItemTexts: seq<string>, // texts of `li` elements inside instruction/direction containers
    images: seq<ImgElement>            // recipe-, featured- and itemprop-image `<img>` elements
  )

  /** The outcome of the HTTP GET of a page. */
  datatype Fetched = Fetched(page: Page) | FetchFailed(message: string)

  /** The environment's foreign calls. */
  datatype World = World(
    parseUrl: string -> Option<Url>,           // `new URL(s)`; None when it throws
    fetchPage: string -> Fetched,              // GET of a page with the 15 s timeout
    saveImage: string -> bool,                 // GET of an image, resize and JPEG encode, file write all succeed
    md5Hex: string -> string,                  // hex MD5 digest of a text
    extname: string -> string,                 // `path.extname`
    recipeWriteError: string -> Option<string>,  // the recipe insert for a URL rejects with this message
    imageWriteError: string -> Option<string>    // the image-row insert for a recipe URL rejects with this message
  )

  /** `og:site_name || new URL(url).hostname`, which throws on a malformed URL. */
  function SiteName(ogSiteName: Option<string>, url: string, parseUrl: string -> Option<Url>): (r: Outcome<string>)
    ensures ogSiteName.Some? && ogSiteName.value != "" ==> r == Returned(ogSiteName.value)
    ensures (ogSiteName.None? || ogSiteName.value == "") && parseUrl(url).Some? ==>
              r == Returned(parseUrl(url).value.hostname)
    ensures r.Threw? <==> (ogSiteName.None? || ogSiteName.value == "") && parseUrl(url).None?
    ensures r.Threw? ==> r.fault == InvalidUrl
  {
    if ogSiteName.Some? && ogSiteName.value != "" then Returned(ogSiteName.value)
    else match parseUrl(url)
      case None => Threw(InvalidUrl)
      case Some(u) => Returned(u.hostname)
  }
}
