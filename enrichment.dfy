/**
 * Per-headline enrichment (`get_emoji_for_title`) and the ordered fan-out
 * over one category's headlines (`process_titles`).  The remote completion
 * call is abstracted to its outcome.
 */
module Enrichment {
  import opened Wrappers
  import opened Text

  /**
   * What one completion request comes back with: no response at all (a
   * network error or timeout), or an HTTP status together with the
   * `choices[0].message.content` string of the JSON body, `None` when the
   * body does not have that shape.
   */
  datatype Completion = NoResponse | Response(status: int, content: Option<string>)

  /** The request produced an emoji: status 200 and a well-formed body. */
  predicate Succeeded(c: Completion) {
    c.Response? && c.status == 200 && c.content.Some?
  }

  /**
   * The result of `get_emoji_for_title`.  It always ends with the title; it is
   * longer than the title exactly when the request succeeded, and then what
   * precedes the title is the stripped emoji and one space; otherwise it is
   * the bare title.
   */
  function EnrichTitle(title: string, c: Completion): (r: string)
    ensures |title| <= |r| && r[|r| - |title|..] == title
    ensures Succeeded(c) <==> |r| > |title|
    ensures !Succeeded(c) ==> r == title
    ensures Succeeded(c) ==> r[..|r| - |title|] == Strip(c.content.value) + " "
  {
    if c.Response? && c.status == 200 then
      match c.content
      case Some(emoji) => Strip(emoji) + " " + title
      case None => title
    else title
  }

  /** `process_titles`: one enrichment per title, `answer(i)` being the outcome of the request dispatched for position `i`. */
  function ProcessTitles(titles: seq<string>, answer: nat -> Completion): seq<string> {
    if |titles| == 0 then []
    else ProcessTitles(titles[..|titles| - 1], answer) + [EnrichTitle(titles[|titles| - 1], answer(|titles| - 1))]
  }

  /**
   * The fan-out keeps the input's order: the result has the input's length
   * and holds, at each position, the enrichment of the title at that position.
   */
  lemma {:induction false} ProcessTitlesInOrder(titles: seq<string>, answer: nat -> Completion)
    ensures var r := ProcessTitles(titles, answer);
      |r| == |titles| && forall i :: 0 <= i < |titles| ==> r[i] == EnrichTitle(titles[i], answer(i))
  {
    if |titles| > 0 {
      ProcessTitlesInOrder(titles[..|titles| - 1], answer);
    }
  }

  /** `order` lists every position below `n` once: the order in which the `n` requests of a batch complete. */
  predicate IsCompletionOrder(order: seq<nat>, n: nat) {
    |order| == n && (forall j :: 0 <= j < n ==> order[j] < n) && (forall i :: 0 <= i < n ==> i in order)
  }

  /** The slots of a gather after the requests in `order` complete, each storing its value at its own dispatch position. */
  function Settle(slots: seq<Option<string>>, order: seq<nat>, value: nat -> string): (r: seq<Option<string>>)
    requires forall j :: 0 <= j < |order| ==> order[j] < |slots|
    ensures |r| == |slots|
    ensures forall i :: 0 <= i < |slots| ==> r[i] == if i in order then Some(value(i)) else slots[i]
    decreases |order|
  {
    if order == [] then slots
    else Settle(slots[order[0] := Some(value(order[0]))], order[1..], value)
  }

  /**
   * `asyncio.gather` over the enrichment tasks: the requests complete in
   * `order`, each result is stored at the position its task was dispatched
   * from.  Whatever the completion order, the gathered list is the in-order
   * map of `process_titles`.
   */
  function Gather(titles: seq<string>, answer: nat -> Completion, order: seq<nat>): (r: seq<string>)
    requires IsCompletionOrder(order, |titles|)
    ensures r == ProcessTitles(titles, answer)
  {
    var n := |titles|;
    var settled := Settle(seq(n, _ => None), order, i => if 0 <= i < n then EnrichTitle(titles[i], answer(i)) else "");
    ProcessTitlesInOrder(titles, answer);
    seq(n, i requires 0 <= i < n => if settled[i].Some? then settled[i].value else "")
  }
}
