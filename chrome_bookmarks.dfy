/**
 * Reading a browser's bookmarks export: the web links among its anchors,
 * one per URL, and the test that recognises the export format.
 */
module ChromeBookmarks {
  import opened Wrappers
  import opened JsText
  import opened Lists

  /** An `<a>` element of the export: its `href` attribute, if any, and its text. */
  datatype Anchor = Anchor(href: Option<string>, text: string)

  /** `BookmarkLink` */
  datatype BookmarkLink = BookmarkLink(url: string, title: Option<string>)

  /** `href && href.startsWith('http')` */
  predicate IsWebLink(a: Anchor) {
    a.href.Some? && a.href.value != "" && StartsWith(a.href.value, "http")
  }

  /**
   * `{url: href, title: text.trim() || undefined}`. The position `index` is
   * unused: it is there only so that `FilterMap` can apply this function.
   */
  function LinkOf(a: Anchor, index: nat): (link: BookmarkLink)
    ensures link.title.None? <==> Trim(a.text) == ""
    ensures link.title.Some? ==> link.title.value == Trim(a.text)
  {
    BookmarkLink(a.href.GetOr(""), if Trim(a.text) == "" then None else Some(Trim(a.text)))
  }

  /** The links pushed by the `each` over the anchors, in document order. */
  function CandidateLinks(anchors: seq<Anchor>): (links: seq<BookmarkLink>)
    ensures |links| <= |anchors|
  {
    FilterMap(anchors, IsWebLink, LinkOf)
  }

  /** Each candidate is the link of a web anchor, and every web anchor gives one, in order. */
  lemma CandidateLinksAreWebLinks(anchors: seq<Anchor>)
    ensures var links := CandidateLinks(anchors);
      var kept := Positions(anchors, IsWebLink);
      && |links| == |kept|
      && forall k :: 0 <= k < |links| ==>
           IsWebLink(anchors[kept[k]]) && links[k].url == anchors[kept[k]].href.value
           && StartsWith(links[k].url, "http")
  {
    FilterMapAtPositions(anchors, IsWebLink, LinkOf);
  }

  /** Some link carries this URL. */
  predicate HasUrl(links: seq<BookmarkLink>, url: string) {
    exists i :: 0 <= i < |links| && links[i].url == url
  }

  /** The URLs of the links, in order. */
  function Urls(links: seq<BookmarkLink>): (us: seq<string>)
    ensures |us| == |links| && forall i :: 0 <= i < |links| ==> us[i] == links[i].url
    ensures forall u :: u in us <==> HasUrl(links, u)
  {
    seq(|links|, i requires 0 <= i < |links| => links[i].url)
  }

  /** The distinct elements of `xs` in order of first appearance: the key order of a `Map` filled from `xs`. */
  function Distinct(xs: seq<string>): (d: seq<string>)
    ensures forall x :: x in d <==> x in xs
    ensures forall i, j :: 0 <= i < j < |d| ==> d[i] != d[j]
    ensures |d| <= |xs|
  {
    if xs == [] then []
    else
      var n := |xs| - 1;
      var init := Distinct(xs[..n]);
      assert forall x :: x in xs <==> x in xs[..n] || x == xs[n] by {
        assert xs == xs[..n] + [xs[n]];
      }
      if xs[n] in init then init else init + [xs[n]]
  }

  /** The index of the first occurrence of `x` in `xs`. */
  function FirstIndex(xs: seq<string>, x: string): (i: nat)
    requires x in xs
    ensures i < |xs| && xs[i] == x && x !in xs[..i]
  {
    if xs[0] == x then 0
    else
      assert x in xs[1..];
      var i := FirstIndex(xs[1..], x);
      assert xs[..i + 1] == [xs[0]] + xs[1..][..i];
      i + 1
  }

  /** A first occurrence inside a prefix is the first occurrence in the whole. */
  lemma FirstIndexInPrefix(xs: seq<string>, n: nat, x: string)
    requires n <= |xs| && x in xs[..n]
    ensures FirstIndex(xs, x) == FirstIndex(xs[..n], x)
  {
    var i, j := FirstIndex(xs, x), FirstIndex(xs[..n], x);
    assert xs[..n][..j] == xs[..j] && xs[j] == x;
    assert forall k :: 0 <= k < j ==> xs[k] != x by {
      forall k | 0 <= k < j ensures xs[k] != x { assert xs[..j][k] == xs[k]; }
    }
    assert forall k :: 0 <= k < i ==> xs[k] != x by {
      forall k | 0 <= k < i ensures xs[k] != x { assert xs[..i][k] == xs[k]; }
    }
  }

  /** The distinct elements come in the order of their first occurrences. */
  lemma {:induction false} DistinctInFirstOccurrenceOrder(xs: seq<string>)
    ensures forall a, b :: 0 <= a < b < |Distinct(xs)| ==>
              FirstIndex(xs, Distinct(xs)[a]) < FirstIndex(xs, Distinct(xs)[b])
  {
    if xs != [] {
      var n := |xs| - 1;
      var init := xs[..n];
      DistinctInFirstOccurrenceOrder(init);
      var d := Distinct(init);
      forall x | x in d ensures FirstIndex(xs, x) == FirstIndex(init, x) < n {
        FirstIndexInPrefix(xs, n, x);
      }
      if xs[n] !in d {
        assert FirstIndex(xs, xs[n]) == n by {
          assert forall k :: 0 <= k < n ==> xs[k] != xs[n] by {
            forall k | 0 <= k < n ensures xs[k] != xs[n] { assert init[k] == xs[k]; }
          }
        }
      }
    }
  }

  /** The last link with this URL: the value a `Map` keeps after overwriting. */
  function LastLink(links: seq<BookmarkLink>, url: string): (link: BookmarkLink)
    requires HasUrl(links, url)
    ensures exists i :: 0 <= i < |links| && links[i] == link && forall j :: i < j < |links| ==> links[j].url != url
    ensures link.url == url
  {
    var n := |links| - 1;
    if links[n].url == url then links[n]
    else
      var i :| 0 <= i < |links| && links[i].url == url;
      assert links[..n][i] == links[i];
      var link := LastLink(links[..n], url);
      var k :| 0 <= k < n && links[..n][k] == link && forall j :: k < j < n ==> links[..n][j].url != url;
      assert links[k] == link;
      link
  }

  /** `Array.from(new Map(links.map(l => [l.url, l])).values())` */
  function DedupeByUrl(links: seq<BookmarkLink>): (out: seq<BookmarkLink>)
    ensures |out| == |Distinct(Urls(links))|
    ensures forall k :: 0 <= k < |out| ==> out[k] == LastLink(links, Distinct(Urls(links))[k])
  {
    var keys := Distinct(Urls(links));
    seq(|keys|, k requires 0 <= k < |keys| => (assert keys[k] in Urls(links); LastLink(links, keys[k])))
  }

  /** `parseChromeBookmarks(html)`, given the export's anchors in document order. */
  function ParsedBookmarks(anchors: seq<Anchor>): seq<BookmarkLink> {
    DedupeByUrl(CandidateLinks(anchors))
  }

  /** The k-th parsed link carries the k-th distinct URL. */
  lemma ParsedUrlAt(anchors: seq<Anchor>, k: nat)
    requires k < |ParsedBookmarks(anchors)|
    ensures ParsedBookmarks(anchors)[k].url == Distinct(Urls(CandidateLinks(anchors)))[k]
  {
  }

  /** No URL is parsed twice, and there are no more parsed links than web anchors. */
  lemma ParsedUrlsUnique(anchors: seq<Anchor>)
    ensures var out := ParsedBookmarks(anchors);
      && (forall j, k :: 0 <= j < k < |out| ==> out[j].url != out[k].url)
      && |out| <= |CandidateLinks(anchors)| <= |anchors|
  {
    var out := ParsedBookmarks(anchors);
    forall j, k | 0 <= j < k < |out| ensures out[j].url != out[k].url {
      ParsedUrlAt(anchors, j);
      ParsedUrlAt(anchors, k);
    }
  }

  /** Every web link's URL is among the parsed links. */
  lemma ParsedCoversEveryLink(anchors: seq<Anchor>)
    ensures var links, out := CandidateLinks(anchors), ParsedBookmarks(anchors);
      forall i :: 0 <= i < |links| ==> exists k :: 0 <= k < |out| && out[k].url == links[i].url
  {
    var links, out := CandidateLinks(anchors), ParsedBookmarks(anchors);
    var us := Urls(links);
    var keys := Distinct(us);
    forall i | 0 <= i < |links| ensures exists k :: 0 <= k < |out| && out[k].url == links[i].url {
      assert us[i] in keys;
      var k :| 0 <= k < |keys| && keys[k] == us[i];
      ParsedUrlAt(anchors, k);
    }
  }

  /**
   * Each parsed link is the last web link with its URL: it keeps the title of
   * the last anchor for that URL, and its URL is a web anchor's `href`.
   */
  lemma ParsedKeepsLastLink(anchors: seq<Anchor>)
    ensures var links, out := CandidateLinks(anchors), ParsedBookmarks(anchors);
      forall k :: 0 <= k < |out| ==>
        && StartsWith(out[k].url, "http")
        && exists i :: 0 <= i < |links| && links[i] == out[k] && forall j :: i < j < |links| ==> links[j].url != out[k].url
  {
    var links, out := CandidateLinks(anchors), ParsedBookmarks(anchors);
    CandidateLinksAreWebLinks(anchors);
    forall k | 0 <= k < |out|
      ensures exists i :: 0 <= i < |links| && links[i] == out[k] && forall j :: i < j < |links| ==> links[j].url != out[k].url
    {
      ParsedUrlAt(anchors, k);
      assert Distinct(Urls(links))[k] in Urls(links);
    }
  }

  /** The parsed links come in the order in which their URLs first appear. */
  lemma ParsedInFirstOccurrenceOrder(anchors: seq<Anchor>)
    ensures var links, out := CandidateLinks(anchors), ParsedBookmarks(anchors);
      forall j, k :: 0 <= j < k < |out| ==>
        out[j].url in Urls(links) && out[k].url in Urls(links) &&
        FirstIndex(Urls(links), out[j].url) < FirstIndex(Urls(links), out[k].url)
  {
    var links, out := CandidateLinks(anchors), ParsedBookmarks(anchors);
    DistinctInFirstOccurrenceOrder(Urls(links));
    forall j, k | 0 <= j < k < |out|
      ensures out[j].url in Urls(links) && out[k].url in Urls(links) &&
        FirstIndex(Urls(links), out[j].url) < FirstIndex(Urls(links), out[k].url)
    {
      ParsedUrlAt(anchors, j);
      ParsedUrlAt(anchors, k);
    }
  }

  /** Two anchors for one URL give one link, titled by the later anchor. */
  lemma DuplicateKeepsLastTitle(url: string, first: string, second: string)
    requires url != "" && StartsWith(url, "http")
    ensures ParsedBookmarks([Anchor(Some(url), first), Anchor(Some(url), second)])
              == [LinkOf(Anchor(Some(url), second), 1)]
  {
    var a0, a1 := Anchor(Some(url), first), Anchor(Some(url), second);
    assert CandidateLinks([a0, a1]) == [LinkOf(a0, 0), LinkOf(a1, 1)] by {
      assert [a0] == [] + [a0] && [a0, a1] == [a0] + [a1];
      FilterMapSnoc([], a0, IsWebLink, LinkOf);
      FilterMapSnoc([a0], a1, IsWebLink, LinkOf);
    }
    SameUrlKeepsLast(LinkOf(a0, 0), LinkOf(a1, 1));
  }

  /** Two links with one URL deduplicate to the later one. */
  lemma SameUrlKeepsLast(l0: BookmarkLink, l1: BookmarkLink)
    requires l0.url == l1.url
    ensures DedupeByUrl([l0, l1]) == [l1]
  {
    var links, url := [l0, l1], l1.url;
    assert Urls(links) == [url, url];
    DistinctRepeated(url);
    var out := DedupeByUrl(links);
    assert |out| == 1 && out[0] == LastLink(links, url);
    assert LastLink(links, url) == l1;
  }

  /** A URL seen twice is one key. */
  lemma DistinctRepeated(url: string)
    ensures Distinct([url, url]) == [url]
  {
    assert [url, url][..1] == [url] && [url][..0] == [];
  }

  /** One more anchor adds its link when it is a web link. */
  lemma CandidateLinksStep(anchors: seq<Anchor>, i: nat)
    requires i < |anchors|
    ensures CandidateLinks(anchors[..i + 1])
              == CandidateLinks(anchors[..i]) + (if IsWebLink(anchors[i]) then [LinkOf(anchors[i], i)] else [])
  {
    FilterMapSnoc(anchors[..i], anchors[i], IsWebLink, LinkOf);
    assert anchors[..i] + [anchors[i]] == anchors[..i + 1];
  }

  /** The `each` over the anchors, pushing one link per web anchor. */
  method CollectLinks(anchors: seq<Anchor>) returns (links: seq<BookmarkLink>)
    ensures links == CandidateLinks(anchors)
  {
    links := [];
    for i := 0 to |anchors|
      invariant links == CandidateLinks(anchors[..i])
    {
      CandidateLinksStep(anchors, i);
      var href := anchors[i].href;
      var title := Trim(anchors[i].text);
      if href.Some? && href.value != "" && StartsWith(href.value, "http") {
        links := links + [BookmarkLink(href.value, if title == "" then None else Some(title))];
      }
    }
    assert anchors[..|anchors|] == anchors;
  }

  /** `parseChromeBookmarks(html)`: collect the links, fill the `Map`, read its values in key order. */
  method ParseChromeBookmarks(anchors: seq<Anchor>) returns (uniqueLinks: seq<BookmarkLink>)
    ensures uniqueLinks == ParsedBookmarks(anchors)
  {
    var links := CollectLinks(anchors);
    var keys, values := DedupeLoop(links);
    uniqueLinks := MapValues(links, keys, values);
  }

  /** `Array.from(map.values())`: the values in the order their keys were inserted. */
  method MapValues(links: seq<BookmarkLink>, keys: seq<string>, values: map<string, BookmarkLink>)
    returns (out: seq<BookmarkLink>)
    requires keys == Distinct(Urls(links))
    requires forall u :: u in values <==> u in keys
    requires forall u :: u in values ==> HasUrl(links, u) && values[u] == LastLink(links, u)
    ensures out == DedupeByUrl(links)
  {
    out := [];
    for k := 0 to |keys|
      invariant out == DedupeByUrl(links)[..k]
    {
      assert values[keys[k]] == DedupeByUrl(links)[k];
      out := out + [values[keys[k]]];
      assert out == DedupeByUrl(links)[..k + 1];
    }
  }

  /** `new Map(links.map(l => [l.url, l]))`: each `set` appends a new key, or overwrites an old key's value. */
  method DedupeLoop(links: seq<BookmarkLink>) returns (keys: seq<string>, values: map<string, BookmarkLink>)
    ensures keys == Distinct(Urls(links))
    ensures forall u :: u in values <==> u in keys
    ensures forall u :: u in values ==> HasUrl(links, u) && values[u] == LastLink(links, u)
  {
    keys, values := [], map[];
    for j := 0 to |links|
      invariant keys == Distinct(Urls(links[..j]))
      invariant forall u :: u in values <==> u in keys
      invariant forall u :: u in values ==> HasUrl(links[..j], u) && values[u] == LastLink(links[..j], u)
    {
      DedupeStep(links, j);
      var link := links[j];
      assert link.url in keys <==> link.url in Distinct(Urls(links[..j]));
      if link.url !in values {
        keys := keys + [link.url];
      }
      ghost var oldValues := values;
      values := values[link.url := link];
      forall u | u in values ensures HasUrl(links[..j + 1], u) && values[u] == LastLink(links[..j + 1], u) {
        if u != link.url {
          assert u in oldValues;
        }
      }
    }
    assert links[..|links|] == links;
  }

  /** How one more link changes the key order and the last link of each URL. */
  lemma DedupeStep(links: seq<BookmarkLink>, j: nat)
    requires j < |links|
    ensures var us, x := Urls(links[..j]), links[j].url;
      Distinct(Urls(links[..j + 1])) == if x in Distinct(us) then Distinct(us) else Distinct(us) + [x]
    ensures forall u :: HasUrl(links[..j + 1], u) <==> HasUrl(links[..j], u) || u == links[j].url
    ensures LastLink(links[..j + 1], links[j].url) == links[j]
    ensures forall u :: u != links[j].url && HasUrl(links[..j], u) ==>
              LastLink(links[..j + 1], u) == LastLink(links[..j], u)
  {
    var pre, next := links[..j], links[..j + 1];
    assert next[..j] == pre;
    assert Urls(next)[..j] == Urls(pre);
    forall u | HasUrl(pre, u) ensures HasUrl(next, u) {
      var i :| 0 <= i < |pre| && pre[i].url == u;
      assert next[i] == pre[i];
    }
    forall u | HasUrl(next, u) && u != links[j].url ensures HasUrl(pre, u) {
      var i :| 0 <= i < |next| && next[i].url == u;
      assert pre[i] == next[i];
    }
    assert next[j] == links[j];
  }

  /** The doctype line of the export format. */
  const BookmarksDoctype: string := "<!DOCTYPE NETSCAPE-Bookmark-file-1>"

  /** `isValidBookmarksHtml(html)` */
  predicate IsValidBookmarksHtml(html: string) {
    || Includes(html, BookmarksDoctype)
    || Includes(html, "NETSCAPE-Bookmark-file")
    || (Includes(html, "<DT>") && Includes(html, "<A HREF="))
  }

  /** The doctype line names the format. */
  lemma DoctypeNamesFormat()
    ensures Includes(BookmarksDoctype, "NETSCAPE-Bookmark-file")
  {
    var name := "NETSCAPE-Bookmark-file";
    assert BookmarksDoctype == "<!DOCTYPE " + name + "-1>";
    assert BookmarksDoctype[10..10 + |name|] == name;
    assert OccursAt(BookmarksDoctype, name, 10);
    IncludesIff(BookmarksDoctype, name);
  }

  /** The doctype test adds nothing: the doctype contains the format name. */
  lemma DoctypeTestSubsumed(html: string)
    ensures IsValidBookmarksHtml(html) <==>
              Includes(html, "NETSCAPE-Bookmark-file") || (Includes(html, "<DT>") && Includes(html, "<A HREF="))
  {
    if Includes(html, BookmarksDoctype) {
      DoctypeNamesFormat();
      IncludesTransitive(html, BookmarksDoctype, "NETSCAPE-Bookmark-file");
    }
  }
}
