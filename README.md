# momoyu headline digest, modelled in Dafny

The momoyu chat-bot plugin answers the message `新闻` with a digest of hot
headlines. It fetches an RSS feed. It takes the HTML description of the feed's
first item and walks the `h2` and `p` elements of that HTML in document order.
Each link title goes into one of three fixed categories (`微博热搜`, `爱范儿`,
`游戏喜加一`). Each title is then decorated with an emoji suggested by a
chat-completion endpoint. The decorated titles are rendered as one section per
non-empty category.

This project models that pipeline, once I/O is taken out:

- `text.dfy` (module `Text`) has Python's `str.strip()`, the substitution
  `re.sub(r'^\d+\.\s*', '', s)` that removes a headline's enumeration prefix,
  and `str.join`. `str.split` is its partner for the line layout of a section.
- `extraction.dfy` (module `Extraction`) has the element walk of
  `parse_xml_content`. It is an imperative loop (`ParseDescription`) that keeps
  the "current category" cursor and appends into the three-key dictionary. It
  is proved equal to a declarative definition: `Filed(es, k, n)` is the list of
  cleaned link titles of the paragraphs whose most recent heading is `k`. The
  walk's properties are proved as lemmas about that definition.
- `enrichment.dfy` (module `Enrichment`) has the per-title result of
  `get_emoji_for_title` and the order-preserving fan-out of `process_titles`.
  It also has a model of `asyncio.gather` that takes any completion order.
- `digest.dfy` (module `Digest`) has the string-accumulating loop of
  `process_categories` (`ProcessCategories`), proved against the rendering
  function `Render`.
- `handler.dfy` (module `Handler`) has the branching of `on_handle_context`,
  plus a worked one-category scenario.

Outside outcomes are parameters:

- The feed fetch is a `Fetch`: a failure, or the response text together with
  what the feed parser makes of it (`FeedDocument`).
- Each completion request is a `Completion`: no response, or a status with the
  `choices[0].message.content` string, which is `None` when the JSON body has
  another shape.
- The answers of one run are `answer(category, i)`: the outcome of the request
  for the `i`-th title of that category's batch.

Behaviour of the code that the model makes explicit:

- Prefix stripping runs once, so it is not idempotent: `"1. 2. X"` becomes
  `"2. X"` (`Text.StripEnumerationNotIdempotent`). A second strip is a no-op
  exactly when the first result does not itself start with an enumeration
  (`Text.StripEnumerationSpec`).
- The three keys always come in the order of the dictionary literal, whatever
  order the headings appear in (`Extraction.ParseDescription`).
- If every category is empty, the handler still stops the event chain. Its
  reply is then the freshly built `Reply()`: no reply type and content `""`.
- An emoji reply that strips to `""` gives `" " + title`.

## Model

| member | source | states |
|---|---|---|
| `Text.TrimStartSpec` | momoyu.py:99 | the left part of `str.strip()` removes a whitespace prefix (Python's `isspace` set), and what remains does not start with whitespace |
| `Text.TrimEndSpec` | momoyu.py:99 | the right part of `str.strip()` removes a whitespace suffix, and what remains does not end with whitespace |
| `Text.StripSpec` | momoyu.py:95 | `Text.Strip` models `str.strip()` (used at momoyu.py:37, 95 and 99): `strip()` returns the part of the text between a whitespace prefix and a whitespace suffix; that part is trimmed, and an already trimmed text is unchanged |
| `Text.StripEnumerationSpec` | momoyu.py:99 | `Text.StripEnumeration` models the `re.sub`: the substitution's result is a suffix of its input; it equals the input exactly when the input does not start with digits followed by `.`; after a removal it does not start with whitespace |
| `Text.StripEnumerationRemovesLongestMatch` | momoyu.py:99 | the substitution removes the longest prefix that matches `\d+\.\s*`, and nothing when no prefix matches, so at most one match is removed |
| `Text.StripEnumerationNotIdempotent` | momoyu.py:99 | `"1. 2. X"` strips to `"2. X"`, and that strips again to `"X"` |
| `Text.CleanTitleSpec` | momoyu.py:99 | `Text.CleanTitle` is the strip followed by the substitution: a stored title is a suffix of the stripped link text and has no leading or trailing whitespace |
| `Text.SplitJoin` | momoyu.py:149 | `Text.Join` models `str.join`: splitting a `"\n".join` of a non-empty list on `"\n"` gives the joined parts back, when no part contains a newline (`"\n".join([])` splits to `[""]`, so the list must be non-empty) |
| `Extraction.LastHeading` | momoyu.py:91-96 | `Extraction.Cursor` models `current_category`: it is `None` before any heading and otherwise the stripped text of `es[LastHeading(es, i)]`; the cursor comes from the most recent `h2` before a position: that element is an `h2`, and no `h2` lies between it and the position (-1 when no heading precedes) |
| `Extraction.Find` | momoyu.py:100 | dictionary membership: a found position holds the key, and `None` means no entry has that key |
| `Extraction.ParseDescription` | momoyu.py:90-102 | the walk's result is exactly `Extracted(es)`: the three keys in literal order, each with the titles filed under it, whatever the heading order |
| `Extraction.ParseXmlContent` | momoyu.py:80-105 | `None` exactly when the parser fails or finds no item or no description; otherwise the extracted dictionary, which is always truthy |
| `Extraction.FiledAreTheFiledParagraphs` | momoyu.py:93-101 | a category's list holds the cleaned link titles of exactly those linked paragraphs whose most recent heading strips to that key, in strictly increasing document order |
| `Extraction.FiledMembership` | momoyu.py:93-101 | a title is in a category's list if and only if some paragraph filed under that category carries it |
| `Extraction.FiledGrowsByAppend` | momoyu.py:101 | lists only grow by append: the list after a prefix of the walk is a prefix of the list after any longer prefix |
| `Extraction.HeadingStopsAccumulation` | momoyu.py:94-96 | after an `h2` whose stripped text is not `k` (an unrecognised or empty heading), nothing is filed under `k` until a heading naming `k` again |
| `Extraction.NoHeadingNoTitles` | momoyu.py:96 | without a heading naming `k`, nothing is filed under `k`; paragraphs before any heading add nothing |
| `Extraction.NoRecognisedHeadingAllEmpty` | momoyu.py:90-102 | a description without a recognised heading yields the three keys, each with an empty list |
| `Extraction.TitleCountBound` | momoyu.py:97-101 | the three lists together hold at most as many titles as there are paragraphs with a link |
| `Enrichment.EnrichTitle` | momoyu.py:128-135 | the result always ends with the title; it is longer than the title exactly when the status is 200 and the body has an emoji, and then it is the stripped emoji, a space and the title; otherwise it is the bare title |
| `Enrichment.ProcessTitlesInOrder` | momoyu.py:137-140 | `Enrichment.ProcessTitles` models `process_titles`: the fan-out returns a list of the input's length, and position `i` holds the enrichment of title `i` |
| `Enrichment.Settle` | momoyu.py:140 | after the requests in a completion order finish, each slot holds its own request's result if that request completed, and is otherwise unchanged |
| `Enrichment.Gather` | momoyu.py:140 | whatever the completion order, gathering results by dispatch position gives the in-order map of `process_titles` |
| `Digest.ProcessCategories` | momoyu.py:142-152 | the final reply is a text reply holding `Render(cats)` when some category has titles, and otherwise is the reply passed in |
| `Digest.RenderAppend` | momoyu.py:145-149 | `Digest.Render` is the text `process_categories` accumulates, one `Digest.SectionOf` (the `Digest.Header` line, then the enriched titles joined by newlines) per category: the digest of two runs of categories is the digest of the first followed by the digest of the second |
| `Digest.RenderSkipsEmpty` | momoyu.py:147 | categories without titles contribute nothing: the digest equals the digest of the non-empty categories |
| `Digest.RenderEmptyIffNoTitles` | momoyu.py:145-150 | the digest is `""` exactly when no category has a title |
| `Digest.SectionEmptyIffNoTitles` | momoyu.py:147-149 | a category's section is empty exactly when the category has no titles |
| `Digest.SectionLines` | momoyu.py:149 | for a category with titles, whose name and enriched titles contain no newline, a section read line by line is two empty lines, `=== name ===`, then one enriched title per line in input order (a newline in a link text or in the endpoint's reply breaks this layout) |
| `Digest.HeaderLines` | momoyu.py:149 | for a category name without a newline, the section header contributes two empty lines and the `=== name ===` line |
| `Handler.OnHandleContext` | momoyu.py:34-63 | `Handler.Triggers` is the text-message and `content.strip() == "新闻"` test (momoyu.py:35-39), `Handler.FetchUnusable` the failed-or-empty fetch test (momoyu.py:45-46): no reply unless the message is text whose stripped content is `新闻`; an unusable fetch (failed or empty) gives the fixed fetch error; a feed without a description gives the fixed parse error; otherwise the digest of the extracted categories, or the fresh empty reply when none has titles |
| `Handler.ScenarioExtraction` | momoyu.py:90-102 | a heading `微博热搜` followed by links `"1. Alpha"` and `"2. Beta"` yields `["Alpha", "Beta"]` under that key and empty lists under the other two |
| `Handler.ScenarioEnrichment` | momoyu.py:128-140 | with an endpoint that always answers `🔥`, the titles become `["🔥 Alpha", "🔥 Beta"]`, in order |
| `Handler.OneCategoryScenario` | momoyu.py:145-150 | the digest of that scenario is `"\n\n=== 微博热搜 ===\n🔥 Alpha\n🔥 Beta"` |

## Left out

- Feed retrieval (`get_rss_content`, momoyu.py:65-76): the HTTP GET with its browser user agent and 10-second timeout is not modelled. Its outcome is the `Fetch` parameter.
- Feed and HTML parsing (momoyu.py:81-88, 93, 97): BeautifulSoup is a foreign library. Its outcome is `FeedDocument`, whose description is the `h2`/`p` element sequence in document order. Each element carries the text of a heading, or the text of a paragraph's first link. How heading and link text is collected from nested markup is not modelled.
- The completion request (momoyu.py:110-127, 129-130): the POST, its headers and body, and JSON decoding are not modelled. The outcome of each request is a `Completion`. Any exception on that path is `NoResponse`, or a `Response` whose content is `None`.
- Concurrency (momoyu.py:63, 140, 144): `asyncio.run`, the shared `aiohttp` session and the concurrent requests are not modelled. `Gather` stands in for the ordering guarantee of `asyncio.gather`, as a sequential fill in any completion order.
- Plugin registration, configuration loading, logging and the help text (momoyu.py:12-32) are not modelled.
- The `content` field (momoyu.py:20, 37) holds only the current message, so it is a local value. The event context is not modelled as an object: its effect is the `Outcome` value, which is either continuing the chain or setting a reply with `BREAK_PASS`.
- Text.IsDigit: `\d` is modelled as ASCII `0`-`9`. Python's `\d` on str patterns also matches other Unicode decimal digits, such as full-width digits. Titles enumerated with those digits are left unstripped in the model but stripped by the source.
- Message types other than text are one constructor, `OtherMessage`. The handler ignores all of them alike.
