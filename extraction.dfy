/**
 * The category extraction of `parse_xml_content`: a walk over the `h2` and
 * `p` elements of the feed item's description, in document order, with a
 * "current category" cursor, appending cleaned link titles to a dictionary
 * with three fixed keys.
 */
module Extraction {
  import opened Wrappers
  import opened Text

  /** An element the walk visits: a heading with its text, or a paragraph with the text of its first link, if any. */
  datatype Element = H2(text: string) | P(link: Option<string>)

  /** One entry of the result dictionary: a category name and its titles. */
  datatype Category = Category(name: string, titles: seq<string>)

  /** An insertion-ordered dictionary from category name to titles. */
  type CategorySet = seq<Category>

  const Weibo: string := "微博热搜"
  const Ifanr: string := "爱范儿"
  const FreeGames: string := "游戏喜加一"

  /** The recognised category labels, in the order of the dictionary literal. */
  const Keys: seq<string> := [Weibo, Ifanr, FreeGames]

  /** What the feed parser makes of the fetched text. */
  datatype FeedDocument =
    | Malformed                          // the markup parser raised
    | NoItem                             // no `item` element
    | NoDescription                      // the first item has no `description`
    | Feed(description: seq<Element>)    // the `h2`/`p` elements of the description, in document order

  /** Python truthiness of the `current_category` cursor: neither `None` nor the empty string. */
  predicate Active(cursor: Option<string>) {
    cursor.Some? && cursor.value != ""
  }

  /** Python truthiness of a dictionary: it has a key. */
  predicate Truthy(d: CategorySet) {
    |d| > 0
  }

  /**
   * The position of the most recent `h2` before index `i`, or -1 when no
   * heading precedes `i`.
   */
  function LastHeading(es: seq<Element>, i: nat): (h: int)
    requires i <= |es|
    ensures -1 <= h < i
    ensures h >= 0 ==> es[h].H2?
    ensures forall l :: h < l < i ==> !es[l].H2?
  {
    if i == 0 then -1
    else if es[i - 1].H2? then i - 1
    else LastHeading(es, i - 1)
  }

  /** The cursor when the walk reaches `es[i]`: the stripped text of the most recent `h2`, or `None` before any heading. */
  function Cursor(es: seq<Element>, i: nat): Option<string>
    requires i <= |es|
  {
    var h := LastHeading(es, i);
    if h < 0 then None else Some(Strip(es[h].text))
  }

  /** The walk appends the title of `es[i]` to `results[k]`: a paragraph with a link, under an active cursor naming the key `k`. */
  predicate Files(es: seq<Element>, i: nat, k: string)
    requires i < |es|
  {
    es[i].P? && es[i].link.Some? && Active(Cursor(es, i)) && Cursor(es, i).value == k && k in Keys
  }

  /** The titles the walk has appended to `results[k]` after visiting `es[..n]`. */
  function Filed(es: seq<Element>, k: string, n: nat): seq<string>
    requires n <= |es|
  {
    if n == 0 then []
    else Filed(es, k, n - 1) + (if Files(es, n - 1, k) then [CleanTitle(es[n - 1].link.value)] else [])
  }

  /** The positions of the paragraphs whose titles make up `Filed(es, k, n)`. */
  function Sources(es: seq<Element>, k: string, n: nat): seq<nat>
    requires n <= |es|
  {
    if n == 0 then []
    else Sources(es, k, n - 1) + (if Files(es, n - 1, k) then [n - 1] else [])
  }

  /** The dictionary `parse_xml_content` returns for a description. */
  function Extracted(es: seq<Element>): CategorySet {
    [Category(Weibo, Filed(es, Weibo, |es|)),
     Category(Ifanr, Filed(es, Ifanr, |es|)),
     Category(FreeGames, Filed(es, FreeGames, |es|))]
  }

  /** Dictionary membership and lookup: the position of key `k`. */
  function Find(d: CategorySet, k: string): (r: Option<nat>)
    ensures r.Some? ==> r.value < |d| && d[r.value].name == k
    ensures r.None? <==> forall j :: 0 <= j < |d| ==> d[j].name != k
  {
    if |d| == 0 then None
    else if d[0].name == k then Some(0)
    else match Find(d[1..], k)
      case None => None
      case Some(j) => Some(j + 1)
  }

  /** The walk over the description's elements (the `for` loop of `parse_xml_content`). */
  method ParseDescription(es: seq<Element>) returns (results: CategorySet)
    ensures results == Extracted(es)
    ensures |results| == |Keys| && forall j :: 0 <= j < |Keys| ==> results[j].name == Keys[j]
  {
    results := [Category(Weibo, []), Category(Ifanr, []), Category(FreeGames, [])];
    var current: Option<string> := None;
    for i := 0 to |es|
      invariant current == Cursor(es, i)
      invariant |results| == |Keys|
      invariant forall m :: 0 <= m < |Keys| ==> results[m] == Category(Keys[m], Filed(es, Keys[m], i))
    {
      WalkStep(es, i, Weibo);
      WalkStep(es, i, Ifanr);
      WalkStep(es, i, FreeGames);
      match es[i]
      case H2(text) =>
        current := Some(Strip(text));
      case P(link) =>
        if Active(current) {
          if link.Some? {
            var title := CleanTitle(link.value);
            var j := Find(results, current.value);
            if j.Some? {
              var entry := results[j.value];
              results := results[j.value := Category(entry.name, entry.titles + [title])];
            }
          }
        }
    }
  }

  /** One step of the walk: what visiting `es[i]` appends to the list of `k`. */
  lemma WalkStep(es: seq<Element>, i: nat, k: string)
    requires i < |es|
    ensures Filed(es, k, i + 1) == Filed(es, k, i) + if Files(es, i, k) then [CleanTitle(es[i].link.value)] else []
    ensures Cursor(es, i + 1) == if es[i].H2? then Some(Strip(es[i].text)) else Cursor(es, i)
  {
  }

  /** `parse_xml_content`: `None` exactly when the feed has no usable description; otherwise the extracted dictionary, which is always truthy. */
  method ParseXmlContent(doc: FeedDocument) returns (r: Option<CategorySet>)
    ensures r.None? <==> !doc.Feed?
    ensures doc.Feed? ==> r == Some(Extracted(doc.description))
    ensures r.Some? ==> Truthy(r.value)
  {
    match doc
    case Feed(description) =>
      var results := ParseDescription(description);
      r := Some(results);
    case _ =>
      r := None;
  }

  /**
   * `Filed(es, k, n)` lists the cleaned link titles of exactly the paragraphs
   * the walk files under `k`, in document order: `Sources` gives their
   * positions, strictly increasing, and every filed paragraph is among them.
   */
  lemma {:induction false} FiledAreTheFiledParagraphs(es: seq<Element>, k: string, n: nat)
    requires n <= |es|
    ensures var src := Sources(es, k, n); var titles := Filed(es, k, n);
      |src| == |titles| &&
      (forall m :: 0 <= m < |src| ==> src[m] < n && Files(es, src[m], k) && titles[m] == CleanTitle(es[src[m]].link.value)) &&
      (forall m1, m2 :: 0 <= m1 < m2 < |src| ==> src[m1] < src[m2]) &&
      (forall i :: 0 <= i < n && Files(es, i, k) ==> i in src)
  {
    if n > 0 {
      FiledAreTheFiledParagraphs(es, k, n - 1);
    }
  }

  /** A title is filed under `k` exactly when some paragraph the walk files under `k` carries it. */
  lemma FiledMembership(es: seq<Element>, k: string, t: string)
    ensures t in Filed(es, k, |es|) <==>
      exists i :: 0 <= i < |es| && Files(es, i, k) && t == CleanTitle(es[i].link.value)
  {
    FiledAreTheFiledParagraphs(es, k, |es|);
    var src := Sources(es, k, |es|);
    var titles := Filed(es, k, |es|);
    if t in titles {
      var m :| 0 <= m < |titles| && titles[m] == t;
      assert Files(es, src[m], k);
    }
    if exists i :: 0 <= i < |es| && Files(es, i, k) && t == CleanTitle(es[i].link.value) {
      var i :| 0 <= i < |es| && Files(es, i, k) && t == CleanTitle(es[i].link.value);
      var m :| 0 <= m < |src| && src[m] == i;
      assert titles[m] == t;
    }
  }

  /** Lists only grow by append: the titles filed after a prefix of the walk are a prefix of those filed later. */
  lemma {:induction false} FiledGrowsByAppend(es: seq<Element>, k: string, m: nat, n: nat)
    requires m <= n <= |es|
    ensures |Filed(es, k, m)| <= |Filed(es, k, n)|
    ensures Filed(es, k, m) == Filed(es, k, n)[..|Filed(es, k, m)|]
  {
    if m < n {
      FiledGrowsByAppend(es, k, m, n - 1);
    }
  }

  /**
   * A heading whose stripped text is not `k` stops accumulation into `k`:
   * until a heading naming `k` again, no paragraph is filed under `k`.
   * This covers an unrecognised heading and a heading whose text strips to "".
   */
  lemma {:induction false} HeadingStopsAccumulation(es: seq<Element>, k: string, i: nat, n: nat)
    requires i < n <= |es|
    requires es[i].H2? && Strip(es[i].text) != k
    requires forall l :: i < l < n && es[l].H2? ==> Strip(es[l].text) != k
    ensures Filed(es, k, n) == Filed(es, k, i)
  {
    if n - 1 > i {
      HeadingStopsAccumulation(es, k, i, n - 1);
      assert LastHeading(es, n - 1) >= i;
    }
  }

  /** With no heading naming `k` in the first `n` elements, nothing is filed under `k`; in particular paragraphs before any heading add nothing. */
  lemma {:induction false} NoHeadingNoTitles(es: seq<Element>, k: string, n: nat)
    requires n <= |es|
    requires forall j :: 0 <= j < n && es[j].H2? ==> Strip(es[j].text) != k
    ensures Filed(es, k, n) == []
  {
    if n > 0 {
      NoHeadingNoTitles(es, k, n - 1);
    }
  }

  /** When no paragraph is filed under `k`, its list stays empty. */
  lemma {:induction false} NoFilingNoTitles(es: seq<Element>, k: string, n: nat)
    requires n <= |es|
    requires forall i :: 0 <= i < n ==> !Files(es, i, k)
    ensures Filed(es, k, n) == []
  {
    if n > 0 {
      NoFilingNoTitles(es, k, n - 1);
    }
  }

  /** A description without a recognised heading yields the three keys, each with an empty list. */
  lemma NoRecognisedHeadingAllEmpty(es: seq<Element>)
    requires forall j :: 0 <= j < |es| && es[j].H2? ==> Strip(es[j].text) !in Keys
    ensures forall j :: 0 <= j < |Extracted(es)| ==> Extracted(es)[j] == Category(Keys[j], [])
  {
    NoHeadingNoTitles(es, Weibo, |es|);
    NoHeadingNoTitles(es, Ifanr, |es|);
    NoHeadingNoTitles(es, FreeGames, |es|);
  }

  /** The number of paragraphs with a link among the first `n` elements. */
  function LinkCount(es: seq<Element>, n: nat): nat
    requires n <= |es|
  {
    if n == 0 then 0 else LinkCount(es, n - 1) + (if es[n - 1].P? && es[n - 1].link.Some? then 1 else 0)
  }

  /** Every filed title comes from its own linked paragraph: the three lists together hold at most as many titles as there are paragraphs with a link. */
  lemma {:induction false} TitleCountBound(es: seq<Element>, n: nat)
    requires n <= |es|
    ensures |Filed(es, Weibo, n)| + |Filed(es, Ifanr, n)| + |Filed(es, FreeGames, n)| <= LinkCount(es, n)
  {
    if n > 0 {
      TitleCountBound(es, n - 1);
    }
  }
}
