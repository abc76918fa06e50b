/**
 * The plugin's message handler (`on_handle_context`): it reacts only to the
 * trigger text, and then replies with one of two fixed error messages or with
 * the digest.  Fetching the feed and querying the completion endpoint are
 * represented by their outcomes, passed in as parameters.
 */
module Handler {
  import opened Wrappers
  import opened Text
  import opened Extraction
  import opened Enrichment
  import opened Digest

  datatype ContextType = TextMessage | OtherMessage

  /** The incoming message: its type and its content. */
  datatype Context = Context(kind: ContextType, content: string)

  /** What fetching the feed gives: a failure (`None`), or the response text with what the feed parser makes of it. */
  datatype Fetch = FetchFailed | Fetched(body: string, document: FeedDocument)

  /** The handler's effect on the event: leave it to the next handler, or set a reply and stop the chain (`BREAK_PASS`). */
  datatype Outcome = Continue | BreakPass(reply: Reply)

  const Trigger: string := "新闻"
  const FetchErrorText: string := "无法获取RSS内容，请稍后重试。"
  const ParseErrorText: string := "解析RSS内容失败。"

  /** The message asks for the digest: a text message whose stripped content is the trigger. */
  predicate Triggers(ctx: Context) {
    ctx.kind == TextMessage && Strip(ctx.content) == Trigger
  }

  /** Python's `not xml_content`: no response text, or an empty one. */
  predicate FetchUnusable(f: Fetch) {
    f.FetchFailed? || f.body == ""
  }

  /**
   * `on_handle_context`.  Only the trigger gets a reply.  An unusable fetch
   * gives the fetch error, a feed without a description the parse error, and
   * otherwise the reply is the digest of the extracted categories (the fresh
   * empty reply when no category has a title).
   */
  method OnHandleContext(ctx: Context, fetch: Fetch, answer: Answers) returns (o: Outcome)
    ensures o.Continue? <==> !Triggers(ctx)
    ensures Triggers(ctx) && FetchUnusable(fetch) ==> o == BreakPass(Reply(ErrorReply, FetchErrorText))
    ensures Triggers(ctx) && !FetchUnusable(fetch) && !fetch.document.Feed? ==>
              o == BreakPass(Reply(ErrorReply, ParseErrorText))
    ensures Triggers(ctx) && !FetchUnusable(fetch) && fetch.document.Feed? ==>
              var cats := Extracted(fetch.document.description);
              o == BreakPass(if AnyTitles(cats) then Reply(TextReply, Render(cats, answer)) else Reply(Unset, ""))
  {
    if ctx.kind != TextMessage {
      return Continue;
    }
    var content := Strip(ctx.content);
    if content != Trigger {
      return Continue;
    }
    var reply := Reply(Unset, "");
    if FetchUnusable(fetch) {
      return BreakPass(Reply(ErrorReply, FetchErrorText));
    }
    var categories := ParseXmlContent(fetch.document);
    if categories.None? || !Truthy(categories.value) {
      return BreakPass(Reply(ErrorReply, ParseErrorText));
    }
    var final := ProcessCategories(reply, categories.value, answer);
    return BreakPass(final);
  }

  /** The description of the one-category scenario: a recognised heading and two enumerated links. */
  function ScenarioDescription(): seq<Element> {
    [H2(Weibo), P(Some("1. Alpha")), P(Some("2. Beta"))]
  }

  /** An endpoint that always answers with the emoji "🔥". */
  function AlwaysFire(): Answers {
    (_, _) => Response(200, Some("🔥"))
  }

  /** The enumeration prefixes of the scenario's link texts are removed. */
  lemma ScenarioTitles()
    ensures CleanTitle("1. Alpha") == "Alpha" && CleanTitle("2. Beta") == "Beta"
  {
    assert Strip("1. Alpha") == "1. Alpha";
    assert Strip("2. Beta") == "2. Beta";
    assert DigitRun("1. Alpha") == 1 && DigitRun("2. Beta") == 1;
  }

  /** Both paragraphs of the scenario are filed under the heading's category, and under no other key. */
  lemma ScenarioFiling()
    ensures Files(ScenarioDescription(), 1, Weibo) && Files(ScenarioDescription(), 2, Weibo)
    ensures forall i, k :: 0 <= i < 3 && k != Weibo ==> !Files(ScenarioDescription(), i, k)
    ensures !Files(ScenarioDescription(), 0, Weibo)
  {
  }

  /** The scenario's extraction: both titles, cleaned, under the heading's category; the other two keys empty. */
  lemma ScenarioExtraction()
    ensures Extracted(ScenarioDescription()) ==
      [Category(Weibo, ["Alpha", "Beta"]), Category(Ifanr, []), Category(FreeGames, [])]
  {
    var es := ScenarioDescription();
    ScenarioTitles();
    ScenarioFiling();
    assert |Weibo| == 4 && |Ifanr| == 3 && |FreeGames| == 5;
    NoFilingNoTitles(es, Ifanr, 3);
    NoFilingNoTitles(es, FreeGames, 3);
    WalkStep(es, 0, Weibo);
    WalkStep(es, 1, Weibo);
    WalkStep(es, 2, Weibo);
    assert Filed(es, Weibo, 3) == ["Alpha", "Beta"];
  }

  /** With the scenario's endpoint, both titles are enriched with "🔥", in order. */
  lemma ScenarioEnrichment()
    ensures ProcessTitles(["Alpha", "Beta"], BatchOf(AlwaysFire(), Weibo)) == ["🔥 Alpha", "🔥 Beta"]
  {
    var batch := BatchOf(AlwaysFire(), Weibo);
    assert Strip("🔥") == "🔥";
    assert EnrichTitle("Alpha", batch(0)) == "🔥 Alpha";
    assert EnrichTitle("Beta", batch(1)) == "🔥 Beta";
    ProcessTitlesInOrder(["Alpha", "Beta"], batch);
  }

  /** The scenario's one section: the header, then both titles behind the emoji, in order. */
  lemma ScenarioSection()
    ensures SectionOf(Category(Weibo, ["Alpha", "Beta"]), AlwaysFire()) == "\n\n=== 微博热搜 ===\n🔥 Alpha\n🔥 Beta"
  {
    ScenarioEnrichment();
    var processed: seq<string> := ["🔥 Alpha", "🔥 Beta"];
    assert processed[1..] == ["🔥 Beta"];
    assert Join("\n", processed) == "🔥 Alpha" + "\n" + "🔥 Beta";
  }

  /**
   * One recognised category with the titles "1. Alpha" and "2. Beta", and an
   * endpoint that always answers with "🔥": the digest is that category's
   * section with both titles decorated, in order.
   */
  lemma OneCategoryScenario()
    ensures Render(Extracted(ScenarioDescription()), AlwaysFire()) == "\n\n=== 微博热搜 ===\n🔥 Alpha\n🔥 Beta"
  {
    ScenarioExtraction();
    ScenarioSection();
    var c0, c1, c2 := Category(Weibo, ["Alpha", "Beta"]), Category(Ifanr, []), Category(FreeGames, []);
    var section := c => SectionOf(c, AlwaysFire());
    assert [c0, c1, c2][..2] == [c0, c1];
    assert [c0, c1][..1] == [c0];
    assert RenderWith([c0], section) == section(c0);
    assert RenderWith([c0, c1], section) == section(c0);
  }
}
