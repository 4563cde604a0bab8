/**
 * The fallback extractor: reads a recipe from a page's markup through CSS
 * selectors when the page carries no structured data.
 */
module HtmlScraper {
  import opened Wrappers
  import opened JsText
  import opened Runtime
  import opened Json
  import opened Platform
  import opened RecipeSchema
  import opened Lists

  /** `attr || fallback` on an optional attribute: an absent or empty attribute falls through. */
  function AttrOr(attr: Option<string>, fallback: string): (r: string)
    ensures attr.Some? && attr.value != "" ==> r == attr.value
    ensures attr.None? || attr.value == "" ==> r == fallback
  {
    if attr.Some? && attr.value != "" then attr.value else fallback
  }

  /** The title: the first heading's text, else og:title, else the document title, the texts trimmed. */
  function HtmlTitle(page: Page): string {
    AttrOr(if Trim(page.h1Text) == "" then None else Some(Trim(page.h1Text)),
           AttrOr(page.ogTitle, Trim(page.titleText)))
  }

  /** The description: meta description, else og:description, else empty. */
  function HtmlDescription(page: Page): string {
    AttrOr(page.metaDescription, AttrOr(page.ogDescription, ""))
  }

  /** An element whose trimmed text is not empty. */
  predicate NonBlank(text: string) {
    Trim(text) != ""
  }

  /** The text pushed for an element: its trimmed text (its index plays no part). */
  function TrimmedText(text: string, index: nat): string {
    Trim(text)
  }

  /** The trimmed texts of the matched elements, with the empty ones left out, in document order. */
  function KeptTexts(texts: seq<string>): (r: seq<string>)
    ensures |r| <= |texts|
  {
    FilterMap(texts, NonBlank, TrimmedText)
  }

  /** The kept texts are the trimmed texts of exactly the non-blank elements, in document order. */
  lemma KeptTextsAtPositions(texts: seq<string>)
    ensures |KeptTexts(texts)| == |Positions(texts, NonBlank)|
    ensures forall k :: 0 <= k < |KeptTexts(texts)| ==>
              KeptTexts(texts)[k] == Trim(texts[Positions(texts, NonBlank)[k]]) != ""
  {
    FilterMapAtPositions(texts, NonBlank, TrimmedText);
  }

  /** The step pushed for the element at `index`: its trimmed text, numbered `index + 1`. */
  function StepOf(text: string, index: nat): (r: Instruction)
    ensures r.Step? && r.order == index + 1
  {
    Step(JStr(Trim(text)), index + 1)
  }

  /**
   * The instruction steps of the matched elements: each non-empty trimmed text
   * numbered by its element's position among all matched elements, counting
   * from 1 (an empty element keeps its number, so numbers can be skipped).
   */
  function NumberedSteps(texts: seq<string>): (r: seq<Instruction>)
    ensures |r| <= |texts|
  {
    FilterMap(texts, NonBlank, StepOf)
  }

  /** The step is the trimmed text of the non-blank element its number names. */
  predicate NumbersElement(texts: seq<string>, step: Instruction) {
    && step.Step? && 1 <= step.order <= |texts|
    && NonBlank(texts[step.order - 1]) && step.text == JStr(Trim(texts[step.order - 1]))
  }

  /** The step built from a non-blank element numbers that element. */
  lemma StepOfNumbers(texts: seq<string>, i: nat)
    requires i < |texts| && NonBlank(texts[i])
    ensures NumbersElement(texts, StepOf(texts[i], i))
  {
  }

  /** Steps built from the positions of non-blank elements number those elements. */
  lemma StepsNumberElements(texts: seq<string>, steps: seq<Instruction>, idx: seq<nat>)
    requires |steps| == |idx|
    requires forall j :: 0 <= j < |idx| ==> idx[j] < |texts| && NonBlank(texts[idx[j]])
    requires forall k :: 0 <= k < |steps| ==> steps[k] == StepOf(texts[idx[k]], idx[k])
    ensures forall k :: 0 <= k < |steps| ==> NumbersElement(texts, steps[k])
  {
    forall k | 0 <= k < |steps| ensures NumbersElement(texts, steps[k]) {
      StepOfNumbers(texts, idx[k]);
    }
  }

  /** Steps built from increasing positions carry increasing numbers. */
  lemma StepsFromIncreasing(texts: seq<string>, steps: seq<Instruction>, idx: seq<nat>)
    requires |steps| == |idx|
    requires forall j :: 0 <= j < |idx| ==> idx[j] < |texts|
    requires forall j, k :: 0 <= j < k < |idx| ==> idx[j] < idx[k]
    requires forall k :: 0 <= k < |steps| ==> steps[k] == StepOf(texts[idx[k]], idx[k])
    ensures forall j, k :: 0 <= j < k < |steps| ==> steps[j].order < steps[k].order
  {
    forall j, k | 0 <= j < k < |steps| ensures steps[j].order < steps[k].order {
      assert steps[j].order == idx[j] + 1 && steps[k].order == idx[k] + 1;
    }
  }

  /** Steps built from positions that include every non-blank element number every such element. */
  lemma StepsCoverNonBlank(texts: seq<string>, steps: seq<Instruction>, idx: seq<nat>)
    requires |steps| == |idx|
    requires forall j :: 0 <= j < |idx| ==> idx[j] < |texts|
    requires forall k :: 0 <= k < |steps| ==> steps[k] == StepOf(texts[idx[k]], idx[k])
    requires forall i :: 0 <= i < |texts| && NonBlank(texts[i]) ==> i in idx
    ensures forall i :: 0 <= i < |texts| && NonBlank(texts[i]) ==>
              exists k :: 0 <= k < |steps| && steps[k].order == i + 1
  {
    forall i | 0 <= i < |texts| && NonBlank(texts[i])
      ensures exists k :: 0 <= k < |steps| && steps[k].order == i + 1
    {
      var k :| 0 <= k < |idx| && idx[k] == i;
      assert steps[k].order == i + 1;
    }
  }

  /**
   * The step numbers rise strictly, lie in 1..|texts|, and each names a
   * non-blank element whose trimmed text is the step's text; every non-blank
   * element gives a step.
   */
  lemma StepOrdersIncrease(texts: seq<string>)
    ensures forall j, k :: 0 <= j < k < |NumberedSteps(texts)| ==>
              NumberedSteps(texts)[j].order < NumberedSteps(texts)[k].order
    ensures forall k :: 0 <= k < |NumberedSteps(texts)| ==> NumbersElement(texts, NumberedSteps(texts)[k])
    ensures forall i :: 0 <= i < |texts| && NonBlank(texts[i]) ==>
              exists k :: 0 <= k < |NumberedSteps(texts)| && NumberedSteps(texts)[k].order == i + 1
  {
    FilterMapAtPositions(texts, NonBlank, StepOf);
    PositionsComplete(texts, NonBlank);
    var steps, idx := NumberedSteps(texts), Positions(texts, NonBlank);
    StepsNumberElements(texts, steps, idx);
    StepsFromIncreasing(texts, steps, idx);
    StepsCoverNonBlank(texts, steps, idx);
  }

  /** An image source the extractor accepts: present, non-empty, and naming no logo or icon. */
  predicate RecipeImageSrc(img: ImgElement) {
    img.src.Some? && img.src.value != "" && !Includes(img.src.value, "logo") && !Includes(img.src.value, "icon")
  }

  /** The image entry pushed for an element: its source and, when it has one, its alt text. */
  function ImageOf(img: ImgElement, index: nat): (r: ImageRef)
    ensures ImageOk(r)
  {
    ImageRef(JStr(img.src.GetOr("")), if img.alt.Some? then Some(JStr(img.alt.value)) else None)
  }

  /** The accepted image elements, in document order. */
  function RecipeImages(imgs: seq<ImgElement>): (r: seq<ImageRef>)
    ensures |r| <= |imgs| && ImagesOk(r)
  {
    FilterMapAtPositions(imgs, RecipeImageSrc, ImageOf);
    FilterMap(imgs, RecipeImageSrc, ImageOf)
  }

  /** The page's images: the accepted elements, else og:image alone when it is non-empty. */
  function HtmlImages(page: Page): (r: seq<ImageRef>)
    ensures ImagesOk(r)
    ensures RecipeImages(page.images) != [] ==> r == RecipeImages(page.images)
    ensures RecipeImages(page.images) == [] ==>
              r == if page.ogImage.Some? && page.ogImage.value != "" then [ImageRef(JStr(page.ogImage.value), None)] else []
  {
    var found := RecipeImages(page.images);
    if found == [] && page.ogImage.Some? && page.ogImage.value != "" then [ImageRef(JStr(page.ogImage.value), None)]
    else found
  }

  /** The ingredient texts: the first selector's, else (when it found none) the list items'. */
  function HtmlIngredients(page: Page): seq<string> {
    var first := KeptTexts(page.ingredientTexts);
    if first != [] then first else KeptTexts(page.ingredientItemTexts)
  }

  /** The instruction steps: the first selector's, else (when it found none) the list items'. */
  function HtmlInstructions(page: Page): seq<Instruction> {
    var first := NumberedSteps(page.instructionTexts);
    if first != [] then first else NumberedSteps(page.instructionItemTexts)
  }

  function Strings(xs: seq<string>): (r: seq<Json>)
    ensures |r| == |xs| && forall i :: 0 <= i < |xs| ==> r[i] == JStr(xs[i])
  {
    seq(|xs|, i requires 0 <= i < |xs| => JStr(xs[i]))
  }

  /** The first 1000 characters of the markup, kept for debugging. */
  function Prefix(html: string): (r: string)
    ensures |r| <= 1000 && r <= html
    ensures |html| <= 1000 ==> r == html
  {
    if |html| <= 1000 then html else html[..1000]
  }

  /** The object literal `scrapeHtml` returns; the times it reads are never put in it. */
  function HtmlDraft(page: Page, url: string, siteName: string, title: string,
                     ingredients: seq<string>, instructions: seq<Instruction>, images: seq<ImageRef>): (d: Draft)
    requires ImagesOk(images)
    ensures d.title == JStr(title) && d.url == url && d.siteName == siteName
    ensures d.images == images && (images != [] ==> d.mainImageUrl == Some(images[0].url))
    ensures images == [] ==> d.mainImageUrl.None?
    ensures d.prepTime.None? && d.cookTime.None? && d.totalTime.None?
    ensures d.description == Some(JStr(HtmlDescription(page)))
    ensures d.ingredients.JArr? && |d.ingredients.items| == |ingredients|
    ensures forall i :: 0 <= i < |ingredients| ==> d.ingredients.items[i] == JStr(ingredients[i])
    ensures d.instructions == instructions
    ensures d.rawData == HtmlPrefix("html-fallback", Prefix(page.html))
    ensures d.servings.None? && d.yieldText.None? && d.categories.None? && d.cuisine.None?
    ensures d.dietary.None? && d.author.None? && d.datePublished.None?
    ensures ImagesOk(d.images) && OptString(d.description) && OptString(d.mainImageUrl) && d.ingredients.JArr?
    ensures CategoriesOk(d.categories) && OptString(d.cuisine) && OptString(d.author) && OptString(d.datePublished)
  {
    Draft(
      title := JStr(title),
      description := Some(JStr(HtmlDescription(page))),
      url := url,
      prepTime := None, cookTime := None, totalTime := None,
      servings := None, yieldText := None,
      ingredients := JArr(Strings(ingredients)),
      instructions := instructions,
      images := images,
      mainImageUrl := if images == [] then None else Some(images[0].url),
      categories := None, cuisine := None, dietary := None,
      siteName := siteName,
      author := None, datePublished := None,
      rawData := HtmlPrefix("html-fallback", Prefix(page.html)))
  }

  /**
   * `scrapeHtml(html, url)`: the site name is worked out (and may throw)
   * before the check that gives up with null on a page without a title or
   * without both ingredients and instructions.
   */
  function HtmlResult(page: Page, url: string, parseUrl: string -> Option<Url>): (r: Outcome<Option<Draft>>)
    ensures r.Threw? <==> SiteName(page.ogSiteName, url, parseUrl).Threw?
    ensures r.Returned? ==>
              (r.value.None? <==> HtmlTitle(page) == "" || (HtmlIngredients(page) == [] && HtmlInstructions(page) == []))
    ensures r.Returned? && r.value.Some? ==> r.value.value.url == url && r.value.value.title == JStr(HtmlTitle(page))
    ensures r.Returned? && r.value.Some? ==>
              r.value.value == HtmlDraft(page, url, SiteName(page.ogSiteName, url, parseUrl).value, HtmlTitle(page),
                                         HtmlIngredients(page), HtmlInstructions(page), HtmlImages(page))
    ensures r.Returned? && r.value.Some? ==>
              r.value.value.siteName == SiteName(page.ogSiteName, url, parseUrl).value
              && r.value.value.description == Some(JStr(HtmlDescription(page)))
              && r.value.value.ingredients == JArr(Strings(HtmlIngredients(page)))
              && r.value.value.instructions == HtmlInstructions(page)
              && r.value.value.images == HtmlImages(page)
              && r.value.value.rawData == HtmlPrefix("html-fallback", Prefix(page.html))
  {
    var siteName :- SiteName(page.ogSiteName, url, parseUrl);
    var title := HtmlTitle(page);
    var ingredients := HtmlIngredients(page);
    var instructions := HtmlInstructions(page);
    var images := HtmlImages(page);
    if title == "" || (ingredients == [] && instructions == []) then Returned(None)
    else Returned(Some(HtmlDraft(page, url, siteName, title, ingredients, instructions, images)))
  }

  /** What the fallback produces always has the schema's shapes: it fails validation only on a malformed URL. */
  lemma HtmlDraftValid(page: Page, url: string, parseUrl: string -> Option<Url>)
    requires HtmlResult(page, url, parseUrl).Returned? && HtmlResult(page, url, parseUrl).value.Some?
    ensures Valid(HtmlResult(page, url, parseUrl).value.value, parseUrl) <==> parseUrl(url).Some?
  {
  }

  /**
   * Every image the fallback keeps comes from an accepted element, with that
   * element's source and alt, in document order; when none is accepted,
   * og:image stands in alone.
   */
  lemma HtmlImagesFiltered(page: Page)
    ensures RecipeImages(page.images) != [] ==>
              |HtmlImages(page)| == |Positions(page.images, RecipeImageSrc)| &&
              forall k :: 0 <= k < |HtmlImages(page)| ==>
                var i := Positions(page.images, RecipeImageSrc)[k];
                RecipeImageSrc(page.images[i])
                && HtmlImages(page)[k].url == JStr(page.images[i].src.value)
                && (page.images[i].alt.Some? ==> HtmlImages(page)[k].alt == Some(JStr(page.images[i].alt.value)))
                && (page.images[i].alt.None? ==> HtmlImages(page)[k].alt.None?)
    ensures RecipeImages(page.images) == [] ==> |HtmlImages(page)| <= 1
  {
    FilterMapAtPositions(page.images, RecipeImageSrc, ImageOf);
  }

  /**
   * Each field's fallback chain: the first non-empty candidate wins, and a
   * second selector pass is consulted only when the first kept nothing, so
   * the two passes are never merged.
   */
  lemma HtmlFallbackChains(page: Page)
    ensures Trim(page.h1Text) != "" ==> HtmlTitle(page) == Trim(page.h1Text)
    ensures Trim(page.h1Text) == "" && page.ogTitle.Some? && page.ogTitle.value != "" ==>
              HtmlTitle(page) == page.ogTitle.value
    ensures Trim(page.h1Text) == "" && (page.ogTitle.None? || page.ogTitle.value == "") ==>
              HtmlTitle(page) == Trim(page.titleText)
    ensures HtmlDescription(page) == "" <==>
              (page.metaDescription.None? || page.metaDescription.value == "")
              && (page.ogDescription.None? || page.ogDescription.value == "")
    ensures KeptTexts(page.ingredientTexts) != [] ==> HtmlIngredients(page) == KeptTexts(page.ingredientTexts)
    ensures KeptTexts(page.ingredientTexts) == [] ==> HtmlIngredients(page) == KeptTexts(page.ingredientItemTexts)
    ensures NumberedSteps(page.instructionTexts) != [] ==> HtmlInstructions(page) == NumberedSteps(page.instructionTexts)
    ensures NumberedSteps(page.instructionTexts) == [] ==> HtmlInstructions(page) == NumberedSteps(page.instructionItemTexts)
  {
  }

  lemma KeptTextsStep(texts: seq<string>, i: nat)
    requires i < |texts|
    ensures KeptTexts(texts[..i + 1]) == KeptTexts(texts[..i]) + (if Trim(texts[i]) != "" then [Trim(texts[i])] else [])
  {
    FilterMapPrefixStep(texts, i, NonBlank, TrimmedText);
  }

  lemma NumberedStepsStep(texts: seq<string>, i: nat)
    requires i < |texts|
    ensures NumberedSteps(texts[..i + 1]) == NumberedSteps(texts[..i]) + (if Trim(texts[i]) != "" then [StepOf(texts[i], i)] else [])
  {
    FilterMapPrefixStep(texts, i, NonBlank, StepOf);
  }

  lemma RecipeImagesStep(imgs: seq<ImgElement>, i: nat)
    requires i < |imgs|
    ensures RecipeImages(imgs[..i + 1]) == RecipeImages(imgs[..i]) + (if RecipeImageSrc(imgs[i]) then [ImageOf(imgs[i], i)] else [])
  {
    FilterMapPrefixStep(imgs, i, RecipeImageSrc, ImageOf);
  }

  /** The `each` over the matched elements that pushes the non-empty trimmed texts. */
  method CollectTexts(texts: seq<string>) returns (kept: seq<string>)
    ensures kept == KeptTexts(texts)
  {
    kept := [];
    for i := 0 to |texts|
      invariant kept == KeptTexts(texts[..i])
    {
      KeptTextsStep(texts, i);
      var text := Trim(texts[i]);
      if text != "" {
        kept := kept + [text];
      }
    }
    assert texts[..|texts|] == texts;
  }

  /** The `each` that pushes `{text, order: index + 1}` for the non-empty trimmed texts. */
  method CollectSteps(texts: seq<string>) returns (steps: seq<Instruction>)
    ensures steps == NumberedSteps(texts)
  {
    steps := [];
    for i := 0 to |texts|
      invariant steps == NumberedSteps(texts[..i])
    {
      NumberedStepsStep(texts, i);
      var text := Trim(texts[i]);
      if text != "" {
        steps := steps + [StepOf(texts[i], i)];
      }
    }
    assert texts[..|texts|] == texts;
  }

  /** The `each` that pushes the accepted image elements. */
  method CollectImages(imgs: seq<ImgElement>) returns (images: seq<ImageRef>)
    ensures images == RecipeImages(imgs)
  {
    images := [];
    for i := 0 to |imgs|
      invariant images == RecipeImages(imgs[..i])
    {
      RecipeImagesStep(imgs, i);
      if RecipeImageSrc(imgs[i]) {
        images := images + [ImageOf(imgs[i], i)];
      }
    }
    assert imgs[..|imgs|] == imgs;
  }

  /** The ingredient selectors, with the list-item fallback. */
  method CollectIngredients(page: Page) returns (ingredients: seq<string>)
    ensures ingredients == HtmlIngredients(page)
  {
    ingredients := CollectTexts(page.ingredientTexts);
    if ingredients == [] {
      ingredients := CollectTexts(page.ingredientItemTexts);
    }
  }

  /** The instruction selectors, with the list-item fallback. */
  method CollectInstructions(page: Page) returns (instructions: seq<Instruction>)
    ensures instructions == HtmlInstructions(page)
  {
    instructions := CollectSteps(page.instructionTexts);
    if instructions == [] {
      instructions := CollectSteps(page.instructionItemTexts);
    }
  }

  /** The image selectors, with the og:image fallback. */
  method CollectPageImages(page: Page) returns (images: seq<ImageRef>)
    ensures images == HtmlImages(page)
  {
    images := CollectImages(page.images);
    if images == [] && page.ogImage.Some? && page.ogImage.value != "" {
      images := [ImageRef(JStr(page.ogImage.value), None)];
    }
  }

  /** `scrapeHtml(html, url)` */
  method ScrapeHtml(page: Page, url: string, world: World) returns (r: Outcome<Option<Draft>>)
    ensures r == HtmlResult(page, url, world.parseUrl)
  {
    var title := HtmlTitle(page);
    var siteName := SiteName(page.ogSiteName, url, world.parseUrl);
    if siteName.Threw? {
      return Threw(siteName.fault);
    }
    var ingredients := CollectIngredients(page);
    var instructions := CollectInstructions(page);
    var images := CollectPageImages(page);
    if title == "" || (ingredients == [] && instructions == []) {
      return Returned(None);
    }
    r := Returned(Some(HtmlDraft(page, url, siteName.value, title, ingredients, instructions, images)));
  }
}
