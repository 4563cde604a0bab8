/**
 * The structured-data extractor: picks the first schema.org Recipe node among
 * a page's JSON-LD blocks (looking inside an `@graph` container first) and
 * turns it into a draft, normalising durations, images, instructions and
 * dietary keywords.
 */
module JsonLdScraper {
  import opened Wrappers
  import opened JsText
  import opened Runtime
  import opened Json
  import opened Platform
  import opened RecipeSchema
  import opened Lists

  // ---------------------------------------------------------------------------
  // Durations: the regular expression /PT(?:(\d+)H)?(?:(\d+)M)?/, unanchored.
  // ---------------------------------------------------------------------------

  /** The end of the run of decimal digits that starts at `i`. */
  function DigitRunEnd(s: string, i: nat): (e: nat)
    requires i <= |s|
    ensures i <= e <= |s| && (e == |s| || !IsDigit(s[e]))
    ensures forall k :: i <= k < e ==> IsDigit(s[k])
    decreases |s| - i
  {
    if i < |s| && IsDigit(s[i]) then DigitRunEnd(s, i + 1) else i
  }

  /**
   * The optional group `(?:(\d+)X)?` tried at `p`: the greedy digit run must be
   * followed by the designator `X`, otherwise the group matches nothing. Gives
   * the group's value (0 when it is skipped) and where matching continues.
   */
  function Component(s: string, p: nat, designator: char): (r: (nat, nat))
    requires p <= |s|
    ensures p <= r.1 <= |s|
  {
    var e := DigitRunEnd(s, p);
    if p < e < |s| && s[e] == designator then
      assert IsDigits(s[p..e]);
      (DigitsValue(s[p..e]), e + 1)
    else (0, p)
  }

  /** `parseISODuration`: minutes from the leftmost `PT`, hours and minutes components only. */
  function ParseISODuration(duration: string): (minutes: nat)
    ensures !Includes(duration, "PT") ==> minutes == 0
  {
    match IndexOfFrom(duration, "PT", 0)
    case None => 0
    case Some(i) =>
      var hours := Component(duration, i + 2, 'H');
      var mins := Component(duration, hours.1, 'M');
      hours.0 * 60 + mins.0
  }

  lemma {:induction false} DigitRunOver(s: string, p: nat, n: nat)
    requires p + n <= |s|
    requires forall k :: p <= k < p + n ==> IsDigit(s[k])
    requires p + n == |s| || !IsDigit(s[p + n])
    ensures DigitRunEnd(s, p) == p + n
    decreases n
  {
    if n > 0 {
      DigitRunOver(s, p + 1, n - 1);
    }
  }

  /** A component written as digits followed by a non-digit character. */
  lemma ComponentWritten(s: string, p: nat, digits: string, designator: char)
    requires digits != [] && IsDigits(digits)
    requires p + |digits| < |s| && s[p..p + |digits|] == digits && !IsDigit(s[p + |digits|])
    ensures Component(s, p, designator) ==
              if s[p + |digits|] == designator then (DigitsValue(digits), p + |digits| + 1) else (0, p)
  {
    forall k | p <= k < p + |digits| ensures IsDigit(s[k]) {
      assert s[k] == digits[k - p];
    }
    DigitRunOver(s, p, |digits|);
  }

  /** A position where no digit run starts: the component is skipped. */
  lemma ComponentAbsent(s: string, p: nat, designator: char)
    requires p <= |s| && (p == |s| || !IsDigit(s[p]))
    ensures Component(s, p, designator) == (0, p)
  {
    DigitRunOver(s, p, 0);
  }

  /** The text of an optional component: its digits and designator, or nothing. */
  function ComponentText(c: Option<string>, designator: char): string {
    if c.Some? then c.value + [designator] else ""
  }

  predicate DigitText(c: Option<string>) {
    c.None? || (c.value != "" && IsDigits(c.value))
  }

  function ComponentValue(c: Option<string>): nat
    requires DigitText(c)
  {
    if c.Some? then DigitsValue(c.value) else 0
  }

  /**
   * The group for `designator` tried where the text holds the optional
   * component `c` written with `written`: it matches only when the two agree.
   */
  lemma GroupAt(s: string, p: nat, c: Option<string>, written: char, designator: char, after: string)
    requires p <= |s| && s[p..] == ComponentText(c, written) + after
    requires DigitText(c) && !IsDigit(written)
    requires c.None? && after != [] ==> !IsDigit(after[0])
    ensures Component(s, p, designator) ==
              if c.Some? && written == designator then (ComponentValue(c), p + |c.value| + 1) else (0, p)
    ensures c.Some? ==> p + |c.value| + 1 <= |s| && s[p + |c.value| + 1..] == after
  {
    if c.Some? {
      var d := c.value;
      assert s[p..p + |d|] == s[p..][..|d|] == d;
      assert s[p + |d|] == s[p..][|d|] == written;
      ComponentWritten(s, p, d, designator);
      assert s[p + |d| + 1..] == s[p..][|d| + 1..];
    } else {
      assert s[p..] == after;
      ComponentAbsent(s, p, designator);
    }
  }

  /** The leftmost `PT` of a text is the one written after a prefix that has none. */
  lemma PTAfter(pre: string, tail: string)
    requires !Includes(pre, "PT")
    ensures IndexOfFrom(pre + "PT" + tail, "PT", 0) == Some(|pre|)
  {
    var s := pre + "PT" + tail;
    assert OccursAt(s, "PT", |pre|) by { assert s[|pre|..|pre| + 2] == "PT"; }
    forall j | 0 <= j < |pre| ensures !OccursAt(s, "PT", j) {
      if j + 2 <= |pre| {
        assert s[j..j + 2] == pre[j..j + 2];
        assert !OccursAt(pre, "PT", j);
      } else {
        assert s[j + 1] == 'P';
      }
    }
  }

  /**
   * `PT{h}H{m}M`, either component omittable, after any text without `PT` and
   * before anything at all (seconds, say), is 60*h + m minutes; an omitted
   * component counts 0.
   */
  lemma ParseDesignatedDuration(pre: string, h: Option<string>, m: Option<string>, rest: string)
    requires !Includes(pre, "PT")
    requires DigitText(h) && DigitText(m)
    requires m.None? && rest != [] ==> !IsDigit(rest[0])
    ensures ParseISODuration(pre + "PT" + ComponentText(h, 'H') + ComponentText(m, 'M') + rest)
              == 60 * ComponentValue(h) + ComponentValue(m)
  {
    var mPart := ComponentText(m, 'M') + rest;
    var tail := ComponentText(h, 'H') + mPart;
    var s := pre + "PT" + tail;
    assert pre + "PT" + ComponentText(h, 'H') + ComponentText(m, 'M') + rest == s;
    PTAfter(pre, tail);
    var p := |pre| + 2;
    assert s[p..] == tail;
    var q: nat := if h.Some? then p + |h.value| + 1 else p;
    if h.Some? {
      GroupAt(s, p, h, 'H', 'H', mPart);
    } else {
      assert s[p..] == mPart;
      GroupAt(s, p, m, 'M', 'H', rest);
    }
    assert Component(s, p, 'H') == (ComponentValue(h), q);
    assert q <= |s| && s[q..] == mPart;
    GroupAt(s, q, m, 'M', 'M', rest);
  }

  /** A digit run followed by the end or by a character other than `designator` skips that group. */
  lemma UnmatchedDigits(s: string, p: nat, digits: string, designator: char)
    requires digits != [] && IsDigits(digits)
    requires p + |digits| <= |s| && s[p..p + |digits|] == digits
    requires p + |digits| == |s| || (!IsDigit(s[p + |digits|]) && s[p + |digits|] != designator)
    ensures Component(s, p, designator) == (0, p)
  {
    forall k | p <= k < p + |digits| ensures IsDigit(s[k]) {
      assert s[k] == digits[k - p];
    }
    DigitRunOver(s, p, |digits|);
  }

  lemma DigitsThenRest(s: string, p: nat, ds: string, rest: string, designator: char)
    requires ds != "" && IsDigits(ds)
    requires p <= |s| && s[p..] == ds + rest
    requires rest == [] || (!IsDigit(rest[0]) && rest[0] != designator)
    ensures Component(s, p, designator) == (0, p)
  {
    assert s[p..p + |ds|] == s[p..][..|ds|] == ds;
    if rest != [] {
      assert s[p + |ds|] == s[p..][|ds|] == rest[0];
    }
    UnmatchedDigits(s, p, ds, designator);
  }

  /**
   * Digits after the hours that carry no `M` (seconds, as in `PT1H30S` or
   * `PT30S`, or a bare number) add nothing: the value is the hours alone.
   */
  lemma UndesignatedDigitsIgnored(pre: string, h: Option<string>, ds: string, rest: string)
    requires !Includes(pre, "PT")
    requires DigitText(h) && ds != "" && IsDigits(ds)
    requires rest == [] || (!IsDigit(rest[0]) && rest[0] != 'M' && (h.None? ==> rest[0] != 'H'))
    ensures ParseISODuration(pre + "PT" + ComponentText(h, 'H') + ds + rest) == 60 * ComponentValue(h)
  {
    var tail := ComponentText(h, 'H') + ds + rest;
    var s := pre + "PT" + tail;
    assert pre + "PT" + ComponentText(h, 'H') + ds + rest == s;
    PTAfter(pre, tail);
    var p := |pre| + 2;
    assert s[p..] == tail;
    var q := HoursBeforeDigits(s, p, h, ds, rest);
    DigitsThenRest(s, q, ds, rest, 'M');
  }

  /** The hours group before an undesignated digit run: it matches exactly the written hours. */
  lemma HoursBeforeDigits(s: string, p: nat, h: Option<string>, ds: string, rest: string) returns (q: nat)
    requires p <= |s| && s[p..] == ComponentText(h, 'H') + ds + rest
    requires DigitText(h) && ds != "" && IsDigits(ds)
    requires rest == [] || (!IsDigit(rest[0]) && (h.None? ==> rest[0] != 'H'))
    ensures Component(s, p, 'H') == (ComponentValue(h), q)
    ensures q <= |s| && s[q..] == ds + rest
  {
    if h.Some? {
      assert ComponentText(h, 'H') + ds + rest == ComponentText(h, 'H') + (ds + rest);
      GroupAt(s, p, h, 'H', 'H', ds + rest);
      q := p + |h.value| + 1;
    } else {
      DigitsThenRest(s, p, ds, rest, 'H');
      q := p;
    }
  }

  /** Both components written: `PT{hs}H{ms}M` is 60 times the hours plus the minutes. */
  lemma HoursAndMinutesDigits(hs: string, ms: string)
    requires hs != "" && IsDigits(hs) && ms != "" && IsDigits(ms)
    ensures ParseISODuration("PT" + hs + "H" + ms + "M") == 60 * DigitsValue(hs) + DigitsValue(ms)
  {
    assert "" + "PT" + ComponentText(Some(hs), 'H') + ComponentText(Some(ms), 'M') + "" == "PT" + hs + "H" + ms + "M";
    ParseDesignatedDuration("", Some(hs), Some(ms), "");
  }

  /** The durations this extractor is written for: `String(h)` hours and `String(m)` minutes. */
  lemma HoursAndMinutes(h: nat, m: nat)
    ensures ParseISODuration("PT" + NatToString(h) + "H" + NatToString(m) + "M") == 60 * h + m
  {
    NatToStringValue(h);
    NatToStringValue(m);
    HoursAndMinutesDigits(NatToString(h), NatToString(m));
  }

  // ---------------------------------------------------------------------------
  // Instructions
  // ---------------------------------------------------------------------------

  /** `{text: s.text || '', order: i + 1}` for an element of a section's `itemListElement`. */
  function SectionStepOf(i: nat, s: Json): (r: Outcome<SectionStep>)
    ensures r.Threw? <==> s == JNull
    ensures r.Returned? ==> r.value == SectionStep(Or(Field(s, "text"), JStr("")), i + 1)
  {
    var text :- Member(s, "text");
    Returned(SectionStep(Or(text, JStr("")), i + 1))
  }

  /** `step.itemListElement?.map(...) || []` */
  function SectionSteps(items: Option<Json>): (r: Outcome<seq<SectionStep>>)
    ensures items.None? || items.value == JNull ==> r == Returned([])
    ensures r.Returned? && items.Some? && items.value.JArr? ==>
              |r.value| == |items.value.items|
              && forall k :: 0 <= k < |r.value| ==> r.value[k].order == k + 1
    ensures r.Returned? && items.Some? && items.value.JArr? ==>
              forall k :: 0 <= k < |r.value| ==> SectionStepOf(k, items.value.items[k]) == Returned(r.value[k])
    ensures items.Some? && items.value.JArr? ==> (r.Threw? <==> JNull in items.value.items)
    ensures items.Some? && items.value != JNull && !items.value.JArr? ==> r.Threw?
    ensures r.Threw? ==> items.Some? && items.value != JNull
  {
    if items.None? || items.value == JNull then Returned([])
    else if items.value.JArr? then TryMap(items.value.items, SectionStepOf)
    else Threw(NotAFunction("step.itemListElement?.map"))
  }

  /** A step whose `@type` or `type` is exactly the given schema.org type name. */
  predicate HasType(step: Json, name: string) {
    Field(step, "@type") == Some(JStr(name)) || Field(step, "type") == Some(JStr(name))
  }

  /** The callback of `normalizeInstructions` for element `index`. */
  function NormalizeStep(index: nat, step: Json): (r: Outcome<Instruction>)
    ensures r.Returned? ==> r.value.order == index + 1
    ensures step.JStr? ==> r == Returned(Step(step, index + 1))
    ensures step == JNull ==> r.Threw?
    ensures r.Returned? && !step.JStr? && HasType(step, "HowToStep") ==>
              r.value == Step(Or(Field(step, "text"), Or(Field(step, "name"), JStr(""))), index + 1)
    ensures r.Returned? && !step.JStr? && !HasType(step, "HowToStep") && HasType(step, "HowToSection") ==>
              r.value.Section? && r.value.name == Or(Field(step, "name"), JStr(""))
              && SectionSteps(Field(step, "itemListElement")) == Returned(r.value.steps)
    ensures step != JNull && !step.JStr? && !HasType(step, "HowToStep") && HasType(step, "HowToSection") ==>
              (r.Threw? <==> SectionSteps(Field(step, "itemListElement")).Threw?)
    ensures step != JNull && !step.JStr? && !(!HasType(step, "HowToStep") && HasType(step, "HowToSection")) ==>
              r.Returned?
    ensures r.Returned? && !step.JStr? && !HasType(step, "HowToStep") && !HasType(step, "HowToSection") ==>
              r.value == Step(JStr(Stringify(step)), index + 1)
  {
    if step.JStr? then Returned(Step(step, index + 1))
    else
      var atType :- Member(step, "@type");
      if HasType(step, "HowToStep") then
        Returned(Step(Or(Field(step, "text"), Or(Field(step, "name"), JStr(""))), index + 1))
      else if HasType(step, "HowToSection") then
        var steps :- SectionSteps(Field(step, "itemListElement"));
        Returned(Section(Or(Field(step, "name"), JStr("")), steps, index + 1))
      else
        Returned(Step(JStr(Stringify(step)), index + 1))
  }

  /** `normalizeInstructions(recipeInstructions || [])`: one instruction per element, numbered from 1. */
  function NormalizeInstructions(v: Json): (r: Outcome<seq<Instruction>>)
    ensures r.Returned? ==> v.JArr? && |r.value| == |v.items|
    ensures r.Returned? ==> forall i :: 0 <= i < |r.value| ==>
              NormalizeStep(i, v.items[i]) == Returned(r.value[i]) && r.value[i].order == i + 1
    ensures v.JArr? ==> (r.Returned? <==> forall i :: 0 <= i < |v.items| ==> NormalizeStep(i, v.items[i]).Returned?)
  {
    if v.JArr? then TryMap(v.items, NormalizeStep) else Threw(NotAFunction("instructions.map"))
  }

  // ---------------------------------------------------------------------------
  // Images
  // ---------------------------------------------------------------------------

  /** The callback of `normalizeImages`. */
  function NormalizeImage(i: nat, img: Json): (r: Outcome<ImageRef>)
    ensures r.Threw? <==> img == JNull
    ensures img.JStr? ==> r == Returned(ImageRef(img, None))
    ensures !img.JStr? && Present(Field(img, "url")) ==>
              r == Returned(ImageRef(Field(img, "url").value, Field(img, "caption")))
    ensures img != JNull && !img.JStr? && !Present(Field(img, "url")) ==>
              r == Returned(ImageRef(JStr(Stringify(img)), None))
  {
    if img.JStr? then Returned(ImageRef(img, None))
    else
      var url :- Member(img, "url");
      if Present(url) then Returned(ImageRef(url.value, Field(img, "caption")))
      else Returned(ImageRef(JStr(Stringify(img)), None))
  }

  /** The list `normalizeImages` maps over: nothing, the array itself, or the single value wrapped. */
  function ImageList(image: Option<Json>): seq<Json> {
    if !Present(image) then [] else if image.value.JArr? then image.value.items else [image.value]
  }

  /** `normalizeImages(image)` */
  function NormalizeImages(image: Option<Json>): (r: Outcome<seq<ImageRef>>)
    ensures !Present(image) ==> r == Returned([])
    ensures r.Threw? <==> JNull in ImageList(image)
    ensures r.Returned? ==> |r.value| == |ImageList(image)|
    ensures r.Returned? ==> forall i :: 0 <= i < |r.value| ==> r.value[i] == NormalizeImage(i, ImageList(image)[i]).value
  {
    var r := TryMap(ImageList(image), NormalizeImage);
    assert r.Threw? ==> JNull in ImageList(image);
    assert JNull in ImageList(image) ==> r.Threw? by {
      if JNull in ImageList(image) {
        var k :| 0 <= k < |ImageList(image)| && ImageList(image)[k] == JNull;
        assert NormalizeImage(k, ImageList(image)[k]).Threw?;
      }
    }
    r
  }

  // ---------------------------------------------------------------------------
  // Keywords, categories and the other fields
  // ---------------------------------------------------------------------------

  /** Whether a keyword names a diet: its lower-case form contains one of the four terms. */
  predicate IsDietary(k: string) {
    var l := ToLower(k);
    Includes(l, "vegetarian") || Includes(l, "vegan") || Includes(l, "gluten-free") || Includes(l, "dairy-free")
  }

  /** A keyword as it is kept (its index plays no part). */
  function Keyword(k: string, index: nat): string {
    k
  }

  /** `keywords.filter(IsDietary)` */
  function DietaryTags(keywords: seq<string>): (r: seq<string>)
    ensures |r| <= |keywords|
  {
    FilterMap(keywords, IsDietary, Keyword)
  }

  /**
   * The dietary tags are exactly the keywords at the dietary positions, in the
   * keywords' own order.
   */
  lemma DietaryTagsInOrder(keywords: seq<string>)
    ensures |DietaryTags(keywords)| == |Positions(keywords, IsDietary)|
    ensures forall j :: 0 <= j < |DietaryTags(keywords)| ==>
              DietaryTags(keywords)[j] == keywords[Positions(keywords, IsDietary)[j]]
  {
    FilterMapAtPositions(keywords, IsDietary, Keyword);
  }

  /** A text is a dietary tag exactly when it is one of the keywords and names a diet. */
  lemma DietaryTagsMembers(keywords: seq<string>)
    ensures forall k :: k in DietaryTags(keywords) <==> k in keywords && IsDietary(k)
  {
    DietaryTagsInOrder(keywords);
    PositionsComplete(keywords, IsDietary);
    var tags, idx := DietaryTags(keywords), Positions(keywords, IsDietary);
    forall k | k in keywords && IsDietary(k) ensures k in tags {
      var i :| 0 <= i < |keywords| && keywords[i] == k;
      var j :| 0 <= j < |idx| && idx[j] == i;
      assert tags[j] == k;
    }
  }

  /** `keywords?.split(',').map(k => k.trim()) || []`; a keywords value that is not text has no `split`. */
  function Keywords(v: Option<Json>): (r: Outcome<seq<string>>)
    ensures v.None? || v.value == JNull ==> r == Returned([])
    ensures r.Threw? <==> v.Some? && v.value != JNull && !v.value.JStr?
    ensures v.Some? && v.value.JStr? ==>
              r.Returned? && |r.value| == |Split(v.value.s, ',')|
              && forall i :: 0 <= i < |r.value| ==> r.value[i] == Trim(Split(v.value.s, ',')[i])
  {
    if v.None? || v.value == JNull then Returned([])
    else if v.value.JStr? then
      var parts := Split(v.value.s, ',');
      Returned(seq(|parts|, i requires 0 <= i < |parts| => Trim(parts[i])))
    else Threw(NotAFunction("recipeData.keywords?.split"))
  }

  /** `Array.isArray(c) ? c : c ? [c] : []` */
  function Categories(c: Option<Json>): seq<Json> {
    if c.Some? && c.value.JArr? then c.value.items else if Present(c) then [c.value] else []
  }

  /** `v ? parseISODuration(v) : undefined`; a truthy value that is not text has no `match`. */
  function Duration(v: Option<Json>): (r: Outcome<Option<int>>)
    ensures !Present(v) ==> r == Returned(None)
    ensures Present(v) && v.value.JStr? ==> r == Returned(Some(ParseISODuration(v.value.s)))
    ensures r.Threw? <==> Present(v) && !v.value.JStr?
  {
    if !Present(v) then Returned(None)
    else if v.value.JStr? then Returned(Some(ParseISODuration(v.value.s)))
    else Threw(NotAFunction("duration.match"))
  }

  /** `typeof recipeYield === 'number' ? recipeYield : undefined` */
  function Servings(v: Option<Json>): Option<int> {
    if v.Some? && v.value.JNum? then Some(v.value.n) else None
  }

  /** `typeof author === 'string' ? author : author?.name` */
  function Author(v: Option<Json>): Option<Json> {
    if v.None? || v.value == JNull then None
    else if v.value.JStr? then v
    else Field(v.value, "name")
  }

  /** `$('title').text() || og:title || ''` */
  function PageTitle(page: Page): string {
    if page.titleText != "" then page.titleText
    else if page.ogTitle.Some? && page.ogTitle.value != "" then page.ogTitle.value
    else ""
  }

  /** The values of `scrapeJsonLd` that are computed by calls which may throw. */
  datatype Parts = Parts(
    siteName: string,
    images: seq<ImageRef>,
    keywords: seq<string>,
    prepTime: Option<int>,
    cookTime: Option<int>,
    totalTime: Option<int>,
    instructions: seq<Instruction>)

  /** The throwing calls of the draft's construction, in the source's evaluation order. */
  function ReadParts(node: Json, page: Page, url: string, parseUrl: string -> Option<Url>): (r: Outcome<Parts>)
    ensures r.Returned? <==>
              && SiteName(page.ogSiteName, url, parseUrl).Returned?
              && NormalizeImages(Field(node, "image")).Returned?
              && Keywords(Field(node, "keywords")).Returned?
              && Duration(Field(node, "prepTime")).Returned?
              && Duration(Field(node, "cookTime")).Returned?
              && Duration(Field(node, "totalTime")).Returned?
              && NormalizeInstructions(Or(Field(node, "recipeInstructions"), JArr([]))).Returned?
    ensures r.Returned? ==> r.value.siteName == SiteName(page.ogSiteName, url, parseUrl).value
    ensures r.Returned? ==> r.value.images == NormalizeImages(Field(node, "image")).value
    ensures r.Returned? ==> r.value.keywords == Keywords(Field(node, "keywords")).value
    ensures r.Returned? ==> r.value.prepTime == Duration(Field(node, "prepTime")).value
    ensures r.Returned? ==> r.value.cookTime == Duration(Field(node, "cookTime")).value
    ensures r.Returned? ==> r.value.totalTime == Duration(Field(node, "totalTime")).value
    ensures r.Returned? ==>
              r.value.instructions == NormalizeInstructions(Or(Field(node, "recipeInstructions"), JArr([]))).value
    // the first call to throw decides the fault
    ensures SiteName(page.ogSiteName, url, parseUrl).Threw? ==> r == Threw(InvalidUrl)
    ensures SiteName(page.ogSiteName, url, parseUrl).Returned? && NormalizeImages(Field(node, "image")).Threw? ==>
              r == Threw(NormalizeImages(Field(node, "image")).fault)
    ensures SiteName(page.ogSiteName, url, parseUrl).Returned? && NormalizeImages(Field(node, "image")).Returned?
            && Keywords(Field(node, "keywords")).Threw? ==>
              r == Threw(Keywords(Field(node, "keywords")).fault)
    ensures SiteName(page.ogSiteName, url, parseUrl).Returned? && NormalizeImages(Field(node, "image")).Returned?
            && Keywords(Field(node, "keywords")).Returned? && Duration(Field(node, "prepTime")).Threw? ==>
              r == Threw(Duration(Field(node, "prepTime")).fault)
    ensures SiteName(page.ogSiteName, url, parseUrl).Returned? && NormalizeImages(Field(node, "image")).Returned?
            && Keywords(Field(node, "keywords")).Returned? && Duration(Field(node, "prepTime")).Returned?
            && Duration(Field(node, "cookTime")).Threw? ==>
              r == Threw(Duration(Field(node, "cookTime")).fault)
    ensures SiteName(page.ogSiteName, url, parseUrl).Returned? && NormalizeImages(Field(node, "image")).Returned?
            && Keywords(Field(node, "keywords")).Returned? && Duration(Field(node, "prepTime")).Returned?
            && Duration(Field(node, "cookTime")).Returned? && Duration(Field(node, "totalTime")).Threw? ==>
              r == Threw(Duration(Field(node, "totalTime")).fault)
    ensures SiteName(page.ogSiteName, url, parseUrl).Returned? && NormalizeImages(Field(node, "image")).Returned?
            && Keywords(Field(node, "keywords")).Returned? && Duration(Field(node, "prepTime")).Returned?
            && Duration(Field(node, "cookTime")).Returned? && Duration(Field(node, "totalTime")).Returned?
            && NormalizeInstructions(Or(Field(node, "recipeInstructions"), JArr([]))).Threw? ==>
              r == Threw(NormalizeInstructions(Or(Field(node, "recipeInstructions"), JArr([]))).fault)
  {
    var siteName :- SiteName(page.ogSiteName, url, parseUrl);
    var images :- NormalizeImages(Field(node, "image"));
    var keywords :- Keywords(Field(node, "keywords"));
    var prepTime :- Duration(Field(node, "prepTime"));
    var cookTime :- Duration(Field(node, "cookTime"));
    var totalTime :- Duration(Field(node, "totalTime"));
    var instructions :- NormalizeInstructions(Or(Field(node, "recipeInstructions"), JArr([])));
    Returned(Parts(siteName, images, keywords, prepTime, cookTime, totalTime, instructions))
  }

  /** The object literal `scrapeJsonLd` returns, given the values of its throwing calls. */
  function BuildDraft(node: Json, page: Page, url: string, parts: Parts): (d: Draft)
    ensures d.url == url && d.rawData == JsonLdNode(node)
    ensures d.images == [] <==> d.mainImageUrl.None?
    ensures d.images != [] ==> d.mainImageUrl == Some(d.images[0].url)
  {
    Draft(
      title := Or(Field(node, "name"), JStr(PageTitle(page))),
      description := Field(node, "description"),
      url := url,
      prepTime := parts.prepTime, cookTime := parts.cookTime, totalTime := parts.totalTime,
      servings := Servings(Field(node, "recipeYield")),
      yieldText := Some(Stringify(Or(Field(node, "recipeYield"), JStr("")))),
      ingredients := Or(Field(node, "recipeIngredient"), JArr([])),
      instructions := parts.instructions,
      images := parts.images,
      mainImageUrl := if parts.images == [] then None else Some(parts.images[0].url),
      categories := Some(Categories(Field(node, "recipeCategory"))),
      cuisine := Field(node, "recipeCuisine"),
      dietary := Some(DietaryTags(parts.keywords)),
      siteName := parts.siteName,
      author := Author(Field(node, "author")),
      datePublished := Field(node, "datePublished"),
      rawData := JsonLdNode(node))
  }

  /** The draft built from a Recipe node, or the first throw on the way. */
  function RecipeDraft(node: Json, page: Page, url: string, parseUrl: string -> Option<Url>): (r: Outcome<Draft>)
    ensures r.Returned? <==> ReadParts(node, page, url, parseUrl).Returned?
    ensures r.Returned? ==> r.value.url == url && r.value.rawData == JsonLdNode(node)
  {
    var parts :- ReadParts(node, page, url, parseUrl);
    Returned(BuildDraft(node, page, url, parts))
  }

  /** The draft's fields, as the extractor promises them. */
  lemma RecipeDraftFields(node: Json, page: Page, url: string, parseUrl: string -> Option<Url>)
    requires RecipeDraft(node, page, url, parseUrl).Returned?
    ensures var d := RecipeDraft(node, page, url, parseUrl).value;
      && (Present(Field(node, "name")) ==> d.title == Field(node, "name").value)
      && (!Present(Field(node, "name")) ==> d.title == JStr(PageTitle(page)))
      && (!Present(Field(node, "prepTime")) ==> d.prepTime.None?)
      && (Present(Field(node, "prepTime")) ==> d.prepTime == Some(ParseISODuration(Field(node, "prepTime").value.s)))
      && (d.servings.Some? <==> Field(node, "recipeYield").Some? && Field(node, "recipeYield").value.JNum?)
      && (page.ogSiteName.Some? && page.ogSiteName.value != "" ==> d.siteName == page.ogSiteName.value)
      && (page.ogSiteName.None? || page.ogSiteName.value == "" ==> d.siteName == parseUrl(url).value.hostname)
      && (d.images != [] ==> d.mainImageUrl == Some(d.images[0].url))
      && d.servings == Servings(Field(node, "recipeYield"))
      && d.dietary == Some(DietaryTags(Keywords(Field(node, "keywords")).value))
      && (forall k :: k in d.dietary.value <==> k in Keywords(Field(node, "keywords")).value && IsDietary(k))
  {
    var parts := ReadParts(node, page, url, parseUrl).value;
    assert RecipeDraft(node, page, url, parseUrl).value == BuildDraft(node, page, url, parts);
    DietaryTagsMembers(parts.keywords);
  }

  /** The remaining fields: copied from the node, or the results of the throwing calls. */
  lemma RecipeDraftContents(node: Json, page: Page, url: string, parseUrl: string -> Option<Url>)
    requires RecipeDraft(node, page, url, parseUrl).Returned?
    ensures var d := RecipeDraft(node, page, url, parseUrl).value;
      && d.description == Field(node, "description")
      && d.yieldText == Some(Stringify(Or(Field(node, "recipeYield"), JStr(""))))
      && (Present(Field(node, "recipeIngredient")) ==> d.ingredients == Field(node, "recipeIngredient").value)
      && (!Present(Field(node, "recipeIngredient")) ==> d.ingredients == JArr([]))
      && (!Present(Field(node, "cookTime")) ==> d.cookTime.None?)
      && (Present(Field(node, "cookTime")) ==> d.cookTime == Some(ParseISODuration(Field(node, "cookTime").value.s)))
      && (!Present(Field(node, "totalTime")) ==> d.totalTime.None?)
      && (Present(Field(node, "totalTime")) ==> d.totalTime == Some(ParseISODuration(Field(node, "totalTime").value.s)))
      && d.instructions == NormalizeInstructions(Or(Field(node, "recipeInstructions"), JArr([]))).value
      && d.images == NormalizeImages(Field(node, "image")).value
      && d.categories == Some(Categories(Field(node, "recipeCategory")))
      && d.cuisine == Field(node, "recipeCuisine")
      && d.author == Author(Field(node, "author"))
      && d.datePublished == Field(node, "datePublished")
  {
    var parts := ReadParts(node, page, url, parseUrl).value;
    assert RecipeDraft(node, page, url, parseUrl).value == BuildDraft(node, page, url, parts);
  }

  /** The shapes the extractor's recipe interface declares for the fields it reads. */
  predicate DeclaredShape(node: Json) {
    var image := Field(node, "image");
    var steps := Field(node, "recipeInstructions");
    && (image.None? || image.value.JStr? || (image.value.JArr? && JNull !in image.value.items))
    && (Field(node, "keywords").None? || Field(node, "keywords").value.JStr?)
    && (Field(node, "prepTime").None? || Field(node, "prepTime").value.JStr?)
    && (Field(node, "cookTime").None? || Field(node, "cookTime").value.JStr?)
    && (Field(node, "totalTime").None? || Field(node, "totalTime").value.JStr?)
    && (steps.None? || (steps.value.JArr? && forall i :: 0 <= i < |steps.value.items| ==> StepShape(steps.value.items[i])))
  }

  /** An instruction element that can be normalised: text, or an object whose section items are objects. */
  predicate StepShape(step: Json) {
    step.JStr? || (step.JObj? && SectionItemsShape(Field(step, "itemListElement")))
  }

  predicate SectionItemsShape(items: Option<Json>) {
    items.None? || items.value == JNull || (items.value.JArr? && JNull !in items.value.items)
  }

  /** A node with the declared shapes yields a draft whenever the site name can be worked out. */
  lemma DeclaredShapeNeverThrows(node: Json, page: Page, url: string, parseUrl: string -> Option<Url>)
    requires DeclaredShape(node)
    requires (page.ogSiteName.Some? && page.ogSiteName.value != "") || parseUrl(url).Some?
    ensures RecipeDraft(node, page, url, parseUrl).Returned?
  {
    ShapedStepsNormalize(Or(Field(node, "recipeInstructions"), JArr([])));
    assert SiteName(page.ogSiteName, url, parseUrl).Returned?;
    assert NormalizeImages(Field(node, "image")).Returned?;
    assert Keywords(Field(node, "keywords")).Returned?;
    assert Duration(Field(node, "prepTime")).Returned? && Duration(Field(node, "cookTime")).Returned?;
    assert Duration(Field(node, "totalTime")).Returned?;
  }

  /** An instruction list whose elements have the declared shapes normalises without throwing. */
  lemma ShapedStepsNormalize(steps: Json)
    requires steps.JArr? && forall i :: 0 <= i < |steps.items| ==> StepShape(steps.items[i])
    ensures NormalizeInstructions(steps).Returned?
  {
    forall i | 0 <= i < |steps.items| ensures NormalizeStep(i, steps.items[i]).Returned? {
      var step := steps.items[i];
      if !step.JStr? && !HasType(step, "HowToStep") && HasType(step, "HowToSection") {
        var items := Field(step, "itemListElement");
        if items.Some? && items.value.JArr? {
          forall k | 0 <= k < |items.value.items| ensures SectionStepOf(k, items.value.items[k]).Returned? {
            assert items.value.items[k] in items.value.items;
          }
        }
      }
    }
  }

  // ---------------------------------------------------------------------------
  // Block selection
  // ---------------------------------------------------------------------------

  /** `type === 'Recipe' || (Array.isArray(type) && type.includes('Recipe'))` */
  predicate IsRecipeType(t: Option<Json>) {
    t == Some(JStr("Recipe")) || (t.Some? && t.value.JArr? && JStr("Recipe") in t.value.items)
  }

  /** `graph.find(item => IsRecipeType(item['@type']))`; a null item reached before a match throws. */
  function FindInGraph(items: seq<Json>): (r: Outcome<Option<Json>>)
    ensures r.Returned? && r.value.Some? ==> r.value.value in items && IsRecipeType(Field(r.value.value, "@type"))
    ensures r.Returned? && r.value.None? ==> forall x :: x in items ==> x != JNull && !IsRecipeType(Field(x, "@type"))
    ensures r.Threw? ==> JNull in items
  {
    if items == [] then Returned(None)
    else
      var t :- Member(items[0], "@type");
      if IsRecipeType(t) then Returned(Some(items[0]))
      else
        var rest := FindInGraph(items[1..]);
        assert forall x :: x in items ==> x == items[0] || x in items[1..];
        rest
  }
  /** `items[i]` is a Recipe-typed node and every earlier item is a non-null node of another type. */
  predicate FirstRecipeAt(items: seq<Json>, i: int) {
    && 0 <= i < |items| && IsRecipeType(Field(items[i], "@type"))
    && forall j :: 0 <= j < i ==> items[j] != JNull && !IsRecipeType(Field(items[j], "@type"))
  }

  /** `items[i]` is null and no earlier item is Recipe-typed, so `find` reaches it. */
  predicate NullReachedAt(items: seq<Json>, i: int) {
    && 0 <= i < |items| && items[i] == JNull
    && forall j :: 0 <= j < i ==> !IsRecipeType(Field(items[j], "@type"))
  }

  /**
   * `find` semantics: the node found is the FIRST Recipe-typed item, and the
   * search throws exactly when a null item comes before every Recipe.
   */
  lemma {:induction false} FindInGraphFirst(items: seq<Json>)
    ensures FindInGraph(items).Returned? && FindInGraph(items).value.Some? ==>
              exists i :: FirstRecipeAt(items, i) && items[i] == FindInGraph(items).value.value
    ensures FindInGraph(items).Threw? <==> exists i :: NullReachedAt(items, i)
  {
    if items == [] {
    } else if items[0] == JNull {
      assert NullReachedAt(items, 0);
    } else if IsRecipeType(Field(items[0], "@type")) {
      assert FirstRecipeAt(items, 0);
      assert forall i :: !NullReachedAt(items, i);
    } else {
      var rest := items[1..];
      FindInGraphFirst(rest);
      assert FindInGraph(items) == FindInGraph(rest);
      if FindInGraph(rest).Returned? && FindInGraph(rest).value.Some? {
        var i :| FirstRecipeAt(rest, i) && rest[i] == FindInGraph(rest).value.value;
        assert forall j :: 1 <= j < i + 1 ==> items[j] == rest[j - 1];
        assert FirstRecipeAt(items, i + 1);
      }
      if FindInGraph(rest).Threw? {
        var i :| NullReachedAt(rest, i);
        assert forall j :: 1 <= j < i + 1 ==> items[j] == rest[j - 1];
        assert NullReachedAt(items, i + 1);
      }
      forall i | NullReachedAt(items, i) ensures FindInGraph(rest).Threw? {
        assert i > 0;
        assert forall j :: 0 <= j < i - 1 ==> rest[j] == items[j + 1];
        assert NullReachedAt(rest, i - 1);
      }
    }
  }


  /** The body of the `try` for one parsed block: the graph's Recipe member, else the block if typed Recipe. */
  function BlockBody(json: Json): (r: Outcome<Option<Json>>)
  {
    var graph :- Member(json, "@graph");
    var fromGraph :-
      if !Present(graph) then Returned(None)
      else if graph.value.JArr? then FindInGraph(graph.value.items)
      else Threw(NotAFunction("json['@graph'].find"));
    if fromGraph.Some? then Returned(fromGraph)
    else
      Returned(if IsRecipeType(Field(json, "@type")) then Some(json) else None)
  }

  /** What one JSON-LD block contributes: a throw inside the `try` skips the block. */
  function BlockRecipe(block: Option<Json>): (r: Option<Json>)
    ensures r.Some? ==> IsRecipeType(Field(r.value, "@type"))
    ensures block.None? ==> r.None?
  {
    match block
    case None => None
    case Some(json) =>
      match BlockBody(json)
      case Threw(_) => None
      case Returned(found) => found
  }

  /**
   * Within a block, a Recipe member of its `@graph` array wins over the
   * block's own type, and a truthy `@graph` that is not an array makes the
   * block be skipped altogether.
   */
  lemma GraphCheckedFirst(json: Json)
    requires json.JObj? && Present(Field(json, "@graph"))
    ensures !Field(json, "@graph").value.JArr? ==> BlockRecipe(Some(json)).None?
    ensures Field(json, "@graph").value.JArr? && FindInGraph(Field(json, "@graph").value.items).Returned?
            && FindInGraph(Field(json, "@graph").value.items).value.Some? ==>
              BlockRecipe(Some(json)) == FindInGraph(Field(json, "@graph").value.items).value
    ensures Field(json, "@graph").value.JArr? && FindInGraph(Field(json, "@graph").value.items) == Returned(None) ==>
              BlockRecipe(Some(json)) == if IsRecipeType(Field(json, "@type")) then Some(json) else None
    ensures Field(json, "@graph").value.JArr? && FindInGraph(Field(json, "@graph").value.items).Threw? ==>
              BlockRecipe(Some(json)).None?
  {
  }

  /** A block without a graph member is picked exactly when it is typed Recipe itself. */
  lemma OwnTypeWithoutGraph(json: Json)
    requires json != JNull && !Present(Field(json, "@graph"))
    ensures BlockRecipe(Some(json)) == if IsRecipeType(Field(json, "@type")) then Some(json) else None
  {
  }

  /** The node the `each` loop settles on: the first block, in document order, that yields one. */
  function FirstRecipe(blocks: seq<Option<Json>>): (r: Option<Json>)
    ensures r.None? <==> forall i :: 0 <= i < |blocks| ==> BlockRecipe(blocks[i]).None?
    ensures r.Some? ==> exists i :: 0 <= i < |blocks| && r == BlockRecipe(blocks[i])
                                    && forall j :: 0 <= j < i ==> BlockRecipe(blocks[j]).None?
  {
    if blocks == [] then None
    else if BlockRecipe(blocks[0]).Some? then BlockRecipe(blocks[0])
    else
      var r := FirstRecipe(blocks[1..]);
      assert forall i :: 1 <= i < |blocks| ==> blocks[i] == blocks[1..][i - 1];
      if r.Some? then
        var i :| 0 <= i < |blocks[1..]| && r == BlockRecipe(blocks[1..][i])
                 && forall j :: 0 <= j < i ==> BlockRecipe(blocks[1..][j]).None?;
        assert r == BlockRecipe(blocks[i + 1]);
        r
      else r
  }

  /** The `each` over the JSON-LD scripts, leaving the loop at the first block that yields a Recipe. */
  method FindRecipeBlock(blocks: seq<Option<Json>>) returns (recipe: Option<Json>)
    ensures recipe == FirstRecipe(blocks)
  {
    recipe := None;
    var i := 0;
    while i < |blocks|
      invariant 0 <= i <= |blocks|
      invariant FirstRecipe(blocks) == FirstRecipe(blocks[i..])
    {
      assert blocks[i..][1..] == blocks[i + 1..];
      var found := BlockRecipe(blocks[i]);
      if found.Some? {
        recipe := found;
        break;
      }
      i := i + 1;
    }
  }

  /** `scrapeJsonLd` as a value: no Recipe node gives null, otherwise the draft or its throw. */
  function JsonLdResult(page: Page, url: string, world: World): (r: Outcome<Option<Draft>>)
    ensures FirstRecipe(page.ldBlocks).None? ==> r == Returned(None)
    ensures r.Returned? && r.value.Some? ==> r.value.value.url == url
    ensures FirstRecipe(page.ldBlocks).Some? ==>
              (r.Returned? <==> RecipeDraft(FirstRecipe(page.ldBlocks).value, page, url, world.parseUrl).Returned?)
    ensures FirstRecipe(page.ldBlocks).Some? && r.Returned? ==>
              r.value == Some(RecipeDraft(FirstRecipe(page.ldBlocks).value, page, url, world.parseUrl).value)
    ensures FirstRecipe(page.ldBlocks).Some? && r.Threw? ==>
              r.fault == RecipeDraft(FirstRecipe(page.ldBlocks).value, page, url, world.parseUrl).fault
  {
    match FirstRecipe(page.ldBlocks)
    case None => Returned(None)
    case Some(node) =>
      var d :- RecipeDraft(node, page, url, world.parseUrl);
      Returned(Some(d))
  }

  /** `scrapeJsonLd(html, url)` */
  method ScrapeJsonLd(page: Page, url: string, world: World) returns (r: Outcome<Option<Draft>>)
    ensures r == JsonLdResult(page, url, world)
  {
    var recipeData := FindRecipeBlock(page.ldBlocks);
    if recipeData.None? {
      return Returned(None);
    }
    var draft := RecipeDraft(recipeData.value, page, url, world.parseUrl);
    if draft.Threw? {
      return Threw(draft.fault);
    }
    return Returned(Some(draft.value));
  }
}
