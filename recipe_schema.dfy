/**
 * The recipe record an extractor produces (a draft, whose fields may hold any
 * JSON value where the structured data passes them through unchecked), the
 * typed record the schema admits, and the schema itself as a validity
 * predicate with the parse that either returns the typed record or throws
 * the list of failing fields.
 */
module RecipeSchema {
  import opened Wrappers
  import opened Runtime
  import opened Json
  import opened Platform

  /** `{text, order}` inside a section. */
  datatype SectionStep = SectionStep(text: Json, order: nat)

  /** The two instruction shapes: a flat step, or a named section of steps. */
  datatype Instruction =
    | Step(text: Json, order: nat)
    | Section(name: Json, steps: seq<SectionStep>, order: nat)

  /** `{url, alt?}` as an extractor builds it. */
  datatype ImageRef = ImageRef(url: Json, alt: Option<Json>)

  /** The opaque diagnostic payload each extractor keeps. */
  datatype RawData = JsonLdNode(node: Json) | HtmlPrefix(tag: string, html: string)

  /** A recipe candidate, before validation. `None` stands for `undefined`. */
  datatype Draft = Draft(
    title: Json,
    description: Option<Json>,
    url: string,
    prepTime: Option<int>,
    cookTime: Option<int>,
    totalTime: Option<int>,
    servings: Option<int>,
    yieldText: Option<string>,
    ingredients: Json,
    instructions: seq<Instruction>,
    images: seq<ImageRef>,
    mainImageUrl: Option<Json>,
    categories: Option<seq<Json>>,
    cuisine: Option<Json>,
    dietary: Option<seq<string>>,
    siteName: string,
    author: Option<Json>,
    datePublished: Option<Json>,
    rawData: RawData
  )

  /** An image the schema admits. */
  datatype Image = Image(url: string, alt: Option<string>)

  /** A record the schema admits, with the types its fields are checked to have. */
  datatype RecipeData = RecipeData(
    title: string,
    description: Option<string>,
    url: string,
    prepTime: Option<int>,
    cookTime: Option<int>,
    totalTime: Option<int>,
    servings: Option<int>,
    yieldText: Option<string>,
    ingredients: seq<Json>,
    instructions: seq<Instruction>,
    images: seq<Image>,
    mainImageUrl: Option<string>,
    categories: Option<seq<string>>,
    cuisine: Option<string>,
    dietary: Option<seq<string>>,
    siteName: string,
    author: Option<string>,
    datePublished: Option<string>,
    rawData: RawData
  )

  /** `z.string().optional()` */
  predicate OptString(v: Option<Json>) {
    v.None? || v.value.JStr?
  }

  /** `z.string().min(1)` */
  predicate TitleOk(v: Json) {
    v.JStr? && |v.s| >= 1
  }

  /** `z.object({url: z.string(), alt: z.string().optional()})` */
  predicate ImageOk(img: ImageRef) {
    img.url.JStr? && OptString(img.alt)
  }

  predicate ImagesOk(images: seq<ImageRef>) {
    forall i :: 0 <= i < |images| ==> ImageOk(images[i])
  }

  /** `z.array(z.string()).optional()` */
  predicate CategoriesOk(c: Option<seq<Json>>) {
    c.None? || forall i :: 0 <= i < |c.value| ==> c.value[i].JStr?
  }

  /** `z.string().url()`: the text parses as a URL. */
  predicate UrlOk(url: string, parseUrl: string -> Option<Url>) {
    parseUrl(url).Some?
  }

  /** The schema: every field the record carries has the type the schema gives it. */
  predicate Valid(d: Draft, parseUrl: string -> Option<Url>) {
    && TitleOk(d.title)
    && OptString(d.description)
    && UrlOk(d.url, parseUrl)
    && d.ingredients.JArr?
    && ImagesOk(d.images)
    && OptString(d.mainImageUrl)
    && CategoriesOk(d.categories)
    && OptString(d.cuisine)
    && OptString(d.author)
    && OptString(d.datePublished)
  }

  /** The schema's fields that carry a check. */
  datatype SchemaField =
    | TitleField | DescriptionField | UrlField | IngredientsField | ImagesField
    | MainImageUrlField | CategoriesField | CuisineField | AuthorField | DatePublishedField

  function FieldName(f: SchemaField): string {
    match f
    case TitleField => "title"
    case DescriptionField => "description"
    case UrlField => "url"
    case IngredientsField => "ingredients"
    case ImagesField => "images"
    case MainImageUrlField => "mainImageUrl"
    case CategoriesField => "categories"
    case CuisineField => "cuisine"
    case AuthorField => "author"
    case DatePublishedField => "datePublished"
  }

  /** Whether the value `d` holds for field `f` passes that field's check. */
  predicate FieldOk(d: Draft, f: SchemaField, parseUrl: string -> Option<Url>) {
    match f
    case TitleField => TitleOk(d.title)
    case DescriptionField => OptString(d.description)
    case UrlField => UrlOk(d.url, parseUrl)
    case IngredientsField => d.ingredients.JArr?
    case ImagesField => ImagesOk(d.images)
    case MainImageUrlField => OptString(d.mainImageUrl)
    case CategoriesField => CategoriesOk(d.categories)
    case CuisineField => OptString(d.cuisine)
    case AuthorField => OptString(d.author)
    case DatePublishedField => OptString(d.datePublished)
  }

  const SchemaOrder: seq<SchemaField> := [
    TitleField, DescriptionField, UrlField, IngredientsField, ImagesField,
    MainImageUrlField, CategoriesField, CuisineField, AuthorField, DatePublishedField]

  function FailingFrom(d: Draft, fields: seq<SchemaField>, parseUrl: string -> Option<Url>): (r: seq<SchemaField>)
    ensures forall f :: f in r <==> f in fields && !FieldOk(d, f, parseUrl)
  {
    if fields == [] then []
    else (if FieldOk(d, fields[0], parseUrl) then [] else [fields[0]]) + FailingFrom(d, fields[1..], parseUrl)
  }

  lemma SchemaOrderComplete(f: SchemaField)
    ensures f in SchemaOrder
  {
    match f
    case TitleField => assert SchemaOrder[0] == f;
    case DescriptionField => assert SchemaOrder[1] == f;
    case UrlField => assert SchemaOrder[2] == f;
    case IngredientsField => assert SchemaOrder[3] == f;
    case ImagesField => assert SchemaOrder[4] == f;
    case MainImageUrlField => assert SchemaOrder[5] == f;
    case CategoriesField => assert SchemaOrder[6] == f;
    case CuisineField => assert SchemaOrder[7] == f;
    case AuthorField => assert SchemaOrder[8] == f;
    case DatePublishedField => assert SchemaOrder[9] == f;
  }

  lemma ValidIffAllFieldsOk(d: Draft, parseUrl: string -> Option<Url>)
    ensures Valid(d, parseUrl) <==> forall f :: FieldOk(d, f, parseUrl)
  {
    if Valid(d, parseUrl) {
      forall f ensures FieldOk(d, f, parseUrl) {
        match f
        case TitleField =>
        case DescriptionField =>
        case UrlField =>
        case IngredientsField =>
        case ImagesField =>
        case MainImageUrlField =>
        case CategoriesField =>
        case CuisineField =>
        case AuthorField =>
        case DatePublishedField =>
      }
    } else {
      assert !FieldOk(d, TitleField, parseUrl) || !FieldOk(d, DescriptionField, parseUrl)
          || !FieldOk(d, UrlField, parseUrl) || !FieldOk(d, IngredientsField, parseUrl)
          || !FieldOk(d, ImagesField, parseUrl) || !FieldOk(d, MainImageUrlField, parseUrl)
          || !FieldOk(d, CategoriesField, parseUrl) || !FieldOk(d, CuisineField, parseUrl)
          || !FieldOk(d, AuthorField, parseUrl) || !FieldOk(d, DatePublishedField, parseUrl);
    }
  }

  /** The fields whose check fails, in schema order: exactly those whose value the schema rejects. */
  function FailingFields(d: Draft, parseUrl: string -> Option<Url>): (r: seq<SchemaField>)
    ensures forall f :: f in r <==> !FieldOk(d, f, parseUrl)
    ensures r == [] <==> Valid(d, parseUrl)
  {
    var r := FailingFrom(d, SchemaOrder, parseUrl);
    forall f ensures f in SchemaOrder { SchemaOrderComplete(f); }
    ValidIffAllFieldsOk(d, parseUrl);
    assert r != [] ==> r[0] in r;
    r
  }

  /** The issue list the thrown validation error carries: the failing fields' names. */
  function Issues(d: Draft, parseUrl: string -> Option<Url>): (r: seq<string>)
    ensures r == [] <==> Valid(d, parseUrl)
  {
    var fs := FailingFields(d, parseUrl);
    seq(|fs|, i requires 0 <= i < |fs| => FieldName(fs[i]))
  }

  /** An empty or non-text title is reported under the name "title". */
  lemma TitleIssueNamed(d: Draft, parseUrl: string -> Option<Url>)
    requires !TitleOk(d.title)
    ensures "title" in Issues(d, parseUrl)
  {
    var fs := FailingFields(d, parseUrl);
    var k :| 0 <= k < |fs| && fs[k] == TitleField;
    assert Issues(d, parseUrl)[k] == "title";
  }

  function AsString(v: Option<Json>): Option<string>
    requires OptString(v)
  {
    if v.Some? then Some(v.value.s) else None
  }

  function AsJson(v: Option<string>): Option<Json> {
    if v.Some? then Some(JStr(v.value)) else None
  }

  function TypedImages(images: seq<ImageRef>): seq<Image>
    requires ImagesOk(images)
  {
    seq(|images|, i requires 0 <= i < |images| => Image(images[i].url.s, AsString(images[i].alt)))
  }

  function LooseImages(images: seq<Image>): seq<ImageRef> {
    seq(|images|, i requires 0 <= i < |images| => ImageRef(JStr(images[i].url), AsJson(images[i].alt)))
  }

  function TypedCategories(c: Option<seq<Json>>): Option<seq<string>>
    requires CategoriesOk(c)
  {
    if c.None? then None else Some(seq(|c.value|, i requires 0 <= i < |c.value| => c.value[i].s))
  }

  function LooseCategories(c: Option<seq<string>>): Option<seq<Json>> {
    if c.None? then None else Some(seq(|c.value|, i requires 0 <= i < |c.value| => JStr(c.value[i])))
  }

  /** The record as an extractor would have produced it. */
  function Loosen(r: RecipeData): Draft {
    Draft(
      title := JStr(r.title), description := AsJson(r.description), url := r.url,
      prepTime := r.prepTime, cookTime := r.cookTime, totalTime := r.totalTime, servings := r.servings,
      yieldText := r.yieldText, ingredients := JArr(r.ingredients), instructions := r.instructions,
      images := LooseImages(r.images), mainImageUrl := AsJson(r.mainImageUrl),
      categories := LooseCategories(r.categories), cuisine := AsJson(r.cuisine), dietary := r.dietary,
      siteName := r.siteName, author := AsJson(r.author), datePublished := AsJson(r.datePublished),
      rawData := r.rawData)
  }

  /** `recipeSchema.parse(d)`: the typed record, or a throw naming every failing field. */
  function Validate(d: Draft, parseUrl: string -> Option<Url>): (r: Outcome<RecipeData>)
    ensures r.Returned? <==> Valid(d, parseUrl)
    ensures r.Threw? ==> r.fault == ValidationFailed(Issues(d, parseUrl)) && Issues(d, parseUrl) != []
  {
    if !Valid(d, parseUrl) then Threw(ValidationFailed(Issues(d, parseUrl)))
    else
      Returned(RecipeData(
        title := d.title.s, description := AsString(d.description), url := d.url,
        prepTime := d.prepTime, cookTime := d.cookTime, totalTime := d.totalTime, servings := d.servings,
        yieldText := d.yieldText, ingredients := d.ingredients.items, instructions := d.instructions,
        images := TypedImages(d.images), mainImageUrl := AsString(d.mainImageUrl),
        categories := TypedCategories(d.categories), cuisine := AsString(d.cuisine), dietary := d.dietary,
        siteName := d.siteName, author := AsString(d.author), datePublished := AsString(d.datePublished),
        rawData := d.rawData))
  }

  /** Validation is a gate, not a fixer: an admitted draft comes back with the same values. */
  lemma ValidateKeepsValues(d: Draft, parseUrl: string -> Option<Url>)
    requires Validate(d, parseUrl).Returned?
    ensures Loosen(Validate(d, parseUrl).value) == d
  {
    var r := Validate(d, parseUrl).value;
    assert LooseImages(r.images) == d.images;
    if d.categories.Some? {
      assert LooseCategories(r.categories).value == d.categories.value;
    }
  }

  /** A typed record is admitted back exactly when its title is non-empty and its URL parses. */
  lemma ValidateTyped(r: RecipeData, parseUrl: string -> Option<Url>)
    ensures Validate(Loosen(r), parseUrl).Returned? <==> r.title != "" && parseUrl(r.url).Some?
    ensures Validate(Loosen(r), parseUrl).Returned? ==> Validate(Loosen(r), parseUrl).value == r
  {
    var d := Loosen(r);
    assert ImagesOk(d.images);
    assert CategoriesOk(d.categories);
    if Validate(d, parseUrl).Returned? {
      var t := Validate(d, parseUrl).value;
      assert t.images == r.images;
      if r.categories.Some? {
        assert t.categories.value == r.categories.value;
      }
    }
  }

  /**
   * Neither the durations nor the servings are constrained (no sign, no
   * range), and empty ingredient and instruction lists are admitted.
   */
  lemma NumbersAndEmptyListsAdmitted(d: Draft, parseUrl: string -> Option<Url>,
                                     prep: Option<int>, cook: Option<int>, total: Option<int>, servings: Option<int>)
    requires Valid(d, parseUrl)
    ensures Valid(d.(prepTime := prep, cookTime := cook, totalTime := total, servings := servings,
                     ingredients := JArr([]), instructions := []), parseUrl)
  {
  }
}
