/**
 * Digest rendering (`process_categories`): for each category in dictionary
 * order that has titles, enrich them and append a section to the reply text.
 */
module Digest {
  import opened Text
  import opened Extraction
  import opened Enrichment

  /** The type of a reply; `Unset` is the type of a freshly built `Reply()`. */
  datatype ReplyType = Unset | TextReply | ErrorReply

  datatype Reply = Reply(kind: ReplyType, content: string)

  /** The answers of one category's batch: `answer(name, i)` is the outcome of the request for its `i`-th title. */
  type Answers = (string, nat) -> Completion

  function BatchOf(answer: Answers, name: string): nat -> Completion {
    (i: nat) => answer(name, i)
  }

  /** The header line of a section. */
  function Header(name: string): string {
    "\n\n=== " + name + " ===\n"
  }

  /** The text one category adds to the digest: nothing when it has no titles. */
  function SectionOf(c: Category, answer: Answers): string {
    if |c.titles| == 0 then ""
    else Header(c.name) + Join("\n", ProcessTitles(c.titles, BatchOf(answer, c.name)))
  }

  /** The text of the categories' sections, in dictionary order, for a given way of rendering one category. */
  function RenderWith(cats: CategorySet, section: Category -> string): string {
    if |cats| == 0 then "" else RenderWith(cats[..|cats| - 1], section) + section(cats[|cats| - 1])
  }

  /** The digest: the sections of the categories, in dictionary order. */
  function Render(cats: CategorySet, answer: Answers): string {
    RenderWith(cats, c => SectionOf(c, answer))
  }

  /** Some category has a title. */
  predicate AnyTitles(cats: CategorySet) {
    exists j :: 0 <= j < |cats| && |cats[j].titles| > 0
  }

  /** The categories that have titles, in dictionary order. */
  function NonEmpty(cats: CategorySet): (r: CategorySet)
    ensures forall j :: 0 <= j < |r| ==> |r[j].titles| > 0
  {
    if |cats| == 0 then []
    else NonEmpty(cats[..|cats| - 1]) + if |cats[|cats| - 1].titles| > 0 then [cats[|cats| - 1]] else []
  }

  /**
   * The loop of `process_categories`: starting from `reply`, each category
   * with titles appends its section to the accumulated text and makes the
   * reply a text reply holding all of it.  With no titles anywhere the reply
   * is the one passed in.
   */
  method ProcessCategories(reply: Reply, cats: CategorySet, answer: Answers) returns (final: Reply)
    ensures final == if AnyTitles(cats) then Reply(TextReply, Render(cats, answer)) else reply
  {
    var result := "";
    final := reply;
    for i := 0 to |cats|
      invariant result == Render(cats[..i], answer)
      invariant final == if AnyTitles(cats[..i]) then Reply(TextReply, result) else reply
    {
      assert cats[..i + 1][..i] == cats[..i];
      var category, titles := cats[i].name, cats[i].titles;
      if |titles| > 0 {
        var processed := ProcessTitles(titles, BatchOf(answer, category));
        result := result + Header(category) + Join("\n", processed);
        final := Reply(TextReply, result);
      } else {
        assert AnyTitles(cats[..i + 1]) == AnyTitles(cats[..i]);
      }
    }
    assert cats[..|cats|] == cats;
  }

  lemma {:induction false} RenderWithAppend(a: CategorySet, b: CategorySet, section: Category -> string)
    ensures RenderWith(a + b, section) == RenderWith(a, section) + RenderWith(b, section)
  {
    if |b| > 0 {
      var b' := b[..|b| - 1];
      assert (a + b)[..|a + b| - 1] == a + b';
      RenderWithAppend(a, b', section);
    } else {
      assert a + b == a;
    }
  }

  lemma {:induction false} RenderWithSkipsEmpty(cats: CategorySet, section: Category -> string)
    requires forall c: Category :: |c.titles| == 0 ==> section(c) == ""
    ensures RenderWith(cats, section) == RenderWith(NonEmpty(cats), section)
  {
    if |cats| > 0 {
      var init := cats[..|cats| - 1];
      var last := cats[|cats| - 1];
      RenderWithSkipsEmpty(init, section);
      if |last.titles| > 0 {
        RenderWithAppend(NonEmpty(init), [last], section);
        assert [last][..0] == [];
      } else {
        assert NonEmpty(cats) == NonEmpty(init) + [] == NonEmpty(init);
        assert section(last) == "";
        assert RenderWith(cats, section) == RenderWith(init, section) + "" == RenderWith(init, section);
      }
    }
  }

  lemma {:induction false} RenderWithEmptyIffNoTitles(cats: CategorySet, section: Category -> string)
    requires forall c: Category :: section(c) == "" <==> |c.titles| == 0
    ensures RenderWith(cats, section) == "" <==> !AnyTitles(cats)
  {
    if |cats| > 0 {
      var init := cats[..|cats| - 1];
      var last := cats[|cats| - 1];
      RenderWithEmptyIffNoTitles(init, section);
      assert AnyTitles(cats) <==> AnyTitles(init) || |last.titles| > 0 by {
        if AnyTitles(init) {
          var j :| 0 <= j < |init| && |init[j].titles| > 0;
          assert cats[j] == init[j];
        }
        if AnyTitles(cats) && |last.titles| == 0 {
          var j :| 0 <= j < |cats| && |cats[j].titles| > 0;
          assert init[j] == cats[j];
        }
      }
    }
  }

  /** A category's section is empty exactly when it has no titles; otherwise it starts with its header. */
  lemma SectionEmptyIffNoTitles(c: Category, answer: Answers)
    ensures SectionOf(c, answer) == "" <==> |c.titles| == 0
  {
  }

  /** Rendering distributes over concatenation: the digest of two runs of categories is the digest of the first followed by that of the second. */
  lemma RenderAppend(a: CategorySet, b: CategorySet, answer: Answers)
    ensures Render(a + b, answer) == Render(a, answer) + Render(b, answer)
  {
    RenderWithAppend(a, b, c => SectionOf(c, answer));
  }

  /** Categories with no titles contribute nothing: the digest is that of the non-empty categories. */
  lemma RenderSkipsEmpty(cats: CategorySet, answer: Answers)
    ensures Render(cats, answer) == Render(NonEmpty(cats), answer)
  {
    RenderWithSkipsEmpty(cats, c => SectionOf(c, answer));
  }

  /** The digest is empty exactly when no category has a title, so the initial `""` survives only then. */
  lemma RenderEmptyIffNoTitles(cats: CategorySet, answer: Answers)
    ensures Render(cats, answer) == "" <==> !AnyTitles(cats)
  {
    forall c: Category ensures SectionOf(c, answer) == "" <==> |c.titles| == 0 {
      SectionEmptyIffNoTitles(c, answer);
    }
    RenderWithEmptyIffNoTitles(cats, c => SectionOf(c, answer));
  }

  /**
   * Read line by line, a section is two empty lines, the header line and then
   * one enriched headline per line, in input order (provided the name and the
   * enriched headlines hold no line break).
   */
  lemma SectionLines(c: Category, answer: Answers)
    requires |c.titles| > 0
    requires '\n' !in c.name
    requires forall i :: 0 <= i < |c.titles| ==> '\n' !in EnrichTitle(c.titles[i], answer(c.name, i))
    ensures Split(SectionOf(c, answer), '\n') ==
      ["", "", "=== " + c.name + " ==="] + ProcessTitles(c.titles, BatchOf(answer, c.name))
  {
    var processed := ProcessTitles(c.titles, BatchOf(answer, c.name));
    ProcessTitlesInOrder(c.titles, BatchOf(answer, c.name));
    SplitJoin(processed, '\n');
    HeaderLines(c.name, Join("\n", processed));
  }

  /** The header contributes two empty lines and the `=== name ===` line. */
  lemma HeaderLines(name: string, body: string)
    requires '\n' !in name
    ensures Split(Header(name) + body, '\n') == ["", "", "=== " + name + " ==="] + Split(body, '\n')
  {
    var head := "=== " + name + " ===";
    assert '\n' !in head;
    var rest := head + ['\n'] + body;
    assert Header(name) + body == "" + ['\n'] + ("" + ['\n'] + rest);
    SplitAt(head, body, '\n');
    SplitAt("", rest, '\n');
    SplitAt("", "" + ['\n'] + rest, '\n');
  }
}
