/** Turning the text a language-model reply carries into a JSON value: the
    Markdown code fence is cut away first (a "```json" fence is preferred over
    a bare "```" fence), then the remaining text is decoded. Both LLM modules
    of the backend do this in the same way. The JSON decoder itself is a
    parameter. */
module LlmResponse {
  import opened Wrappers
  import opened PyText

  const JsonFence: string := "```json"
  const Fence: string := "```"

  /** The values json.loads can return. */
  datatype Json =
    | JNull
    | JBool(b: bool)
    | JNumber(n: real)
    | JString(s: string)
    | JArray(items: seq<Json>)
    | JObject(members: seq<(string, Json)>)

  /** Python truthiness of a decoded value: null, false, zero and empty
      strings, lists and objects are false. */
  predicate Truthy(j: Json)
  {
    match j
    case JNull => false
    case JBool(b) => b
    case JNumber(n) => n != 0.0
    case JString(s) => s != []
    case JArray(items) => items != []
    case JObject(members) => members != []
  }

  /** The text between an opening fence found at `open` (of length `width`)
      and the next bare fence after it, stripped. With no closing fence,
      str.find gives -1 and the slice ends one character before the end. */
  function BetweenFences(text: string, open: nat, width: nat): string
  {
    var start := open + width;
    var end := Find(text, Fence, start);
    Strip(Slice(text, start, end))
  }

  /** The fence stripping done before json.loads. */
  function ExtractJsonText(text: string): string
  {
    if Contains(text, JsonFence) then
      ContainsIffFound(text, JsonFence);
      BetweenFences(text, Find(text, JsonFence, 0), |JsonFence|)
    else if Contains(text, Fence) then
      ContainsIffFound(text, Fence);
      BetweenFences(text, Find(text, Fence, 0), |Fence|)
    else
      text
  }

  /** parse_llm_response: None when decoding fails, the decoded value
      otherwise. `decode` stands for json.loads, with None for a
      JSONDecodeError. */
  function ParseLlmResponse(text: string, decode: string -> Option<Json>): (r: Option<Json>)
    ensures r.Some? <==> decode(ExtractJsonText(text)).Some?
    ensures r.Some? ==> r.value == decode(ExtractJsonText(text)).value
  {
    decode(ExtractJsonText(text))
  }

  /** What the call to the model produced: no client configured, a call that
      raised, or the text of the first content block. */
  datatype Reply = NoClient | CallFailed | Replied(text: string)

  /** The value a reply contributes: only a reply whose text decodes to a
      truthy value is used (`if interpretation:`); every other outcome falls
      back to the built-in guidance. */
  function UsableReply(reply: Reply, decode: string -> Option<Json>): (r: Option<Json>)
    ensures r.Some? <==> (reply.Replied? && ParseLlmResponse(reply.text, decode).Some?
                          && Truthy(ParseLlmResponse(reply.text, decode).value))
    ensures r.Some? ==> Truthy(r.value) && r == ParseLlmResponse(reply.text, decode)
  {
    match reply
    case Replied(text) =>
      var parsed := ParseLlmResponse(text, decode);
      if parsed.Some? && Truthy(parsed.value) then parsed else None
    case _ => None
  }

  /** A character that cannot start a fence. */
  predicate NoBacktick(s: string)
  {
    forall i :: 0 <= i < |s| ==> s[i] != '`'
  }

  /** A fence occurs only where a backtick stands. */
  lemma FenceStartsWithBacktick(text: string, f: string, j: int)
    requires |f| > 0 && f[0] == '`'
    ensures OccursAt(text, f, j) ==> text[j] == '`'
  {
    if OccursAt(text, f, j) {
      OccurrenceMatches(text, f, j, 0);
    }
  }

  /** In `pre + f + rest`, with no backtick in `pre`, the first occurrence of
      the fence `f` is right after `pre`. */
  lemma FirstFenceAfter(pre: string, f: string, rest: string, from: nat)
    requires |f| > 0 && f[0] == '`' && NoBacktick(pre) && from <= |pre|
    ensures Find(pre + f + rest, f, from) == |pre|
  {
    var text := pre + f + rest;
    assert text[|pre|..|pre| + |f|] == f;
    forall j | from <= j < |pre| ensures !OccursAt(text, f, j) {
      FenceStartsWithBacktick(text, f, j);
      assert text[j] == pre[j];
    }
    FindIsFirstOccurrence(text, f, from, |pre|);
  }

  /** A "```json" fence contains a bare fence, so text without any fence has
      no "```json" fence either. */
  lemma JsonFenceHasFence(text: string)
    requires Contains(text, JsonFence)
    ensures Contains(text, Fence)
  {
    var i :| 0 <= i <= |text| - |JsonFence| && OccursAt(text, JsonFence, i);
    assert text[i..i + 3] == text[i..i + 7][..3];
    assert OccursAt(text, Fence, i);
  }

  /** Text without any fence is decoded as it is (not even stripped). */
  lemma NoFenceUnchanged(text: string)
    requires !Contains(text, Fence)
    ensures ExtractJsonText(text) == text
  {
    if Contains(text, JsonFence) {
      JsonFenceHasFence(text);
    }
  }

  /** Round trip of a "```json" block: whatever surrounds it, the decoder sees
      exactly the stripped body. */
  lemma JsonFencedBody(pre: string, body: string, post: string)
    requires NoBacktick(pre) && NoBacktick(body)
    ensures ExtractJsonText(pre + JsonFence + body + Fence + post) == Strip(body)
  {
    FencedBody(pre, JsonFence, body, post);
  }

  /** Round trip of a bare "```" block when the text has no "```json" fence. */
  lemma BareFencedBody(pre: string, body: string, post: string)
    requires NoBacktick(pre) && NoBacktick(body)
    requires !Contains(pre + Fence + body + Fence + post, JsonFence)
    ensures ExtractJsonText(pre + Fence + body + Fence + post) == Strip(body)
  {
    FencedBody(pre, Fence, body, post);
  }

  /** The common part of the two round trips: the opening fence `f` is the
      first one, and the next bare fence closes the body. */
  lemma FencedBody(pre: string, f: string, body: string, post: string)
    requires |f| > 0 && f[0] == '`'
    requires NoBacktick(pre) && NoBacktick(body)
    ensures var text := pre + f + body + Fence + post;
      && Contains(text, f)
      && Find(text, f, 0) == |pre|
      && BetweenFences(text, |pre|, |f|) == Strip(body)
  {
    FencedOpen(pre, f, body, post);
    ContainsIffFound(pre + f + body + Fence + post, f);
    FencedBetween(pre, f, body, post);
  }

  /** The text between the opening fence `f` and the next bare fence is the
      stripped body. */
  lemma FencedBetween(pre: string, f: string, body: string, post: string)
    requires NoBacktick(body)
    ensures BetweenFences(pre + f + body + Fence + post, |pre|, |f|) == Strip(body)
  {
    FencedClose(pre, f, body, post);
    FencedSlice(pre, f, body, post);
    BodyBetweenFences(pre + f + body + Fence + post, |pre| + |f|, body);
  }

  /** When the next bare fence after `start` starts right after `body`, the
      text between the fences is `body`, stripped. */
  lemma BodyBetweenFences(text: string, start: nat, body: string)
    requires start + |body| <= |text|
    requires Find(text, Fence, start) == start + |body|
    requires text[start..start + |body|] == body
    ensures Strip(Slice(text, start, Find(text, Fence, start))) == Strip(body)
  {
    assert Slice(text, start, Find(text, Fence, start)) == body;
  }

  lemma FencedOpen(pre: string, f: string, body: string, post: string)
    requires |f| > 0 && f[0] == '`' && NoBacktick(pre)
    ensures Find(pre + f + body + Fence + post, f, 0) == |pre|
  {
    assert pre + f + body + Fence + post == pre + f + (body + Fence + post);
    FirstFenceAfter(pre, f, body + Fence + post, 0);
  }

  lemma FencedClose(pre: string, f: string, body: string, post: string)
    requires NoBacktick(body)
    ensures Find(pre + f + body + Fence + post, Fence, |pre| + |f|) == |pre| + |f| + |body|
  {
    var head, tail := pre + f, Fence + post;
    assert pre + f + body + Fence + post == head + body + tail;
    assert tail[..|Fence|] == Fence;
    FindBodyEnd(head, body, tail);
  }

  lemma FencedSlice(pre: string, f: string, body: string, post: string)
    ensures (pre + f + body + Fence + post)[|pre| + |f|..|pre| + |f| + |body|] == body
  {
  }

  /** Searching from the start of a backtick-free body finds the fence that
      closes it. */
  lemma FindBodyEnd(head: string, body: string, tail: string)
    requires NoBacktick(body) && |tail| >= |Fence| && tail[..|Fence|] == Fence
    ensures Find(head + body + tail, Fence, |head|) == |head| + |body|
  {
    var text := head + body + tail;
    assert text[|head| + |body|..|head| + |body| + |Fence|] == tail[..|Fence|];
    forall j | |head| <= j < |head| + |body| ensures !OccursAt(text, Fence, j) {
      FenceStartsWithBacktick(text, Fence, j);
      assert text[j] == body[j - |head|];
    }
    FindIsFirstOccurrence(text, Fence, |head|, |head| + |body|);
  }

  /** An opening "```json" fence that is never closed: str.find returns -1,
      and the slice up to -1 loses the last character of the body. */
  lemma UnclosedJsonFenceDropsLastChar(pre: string, body: string)
    requires NoBacktick(pre) && NoBacktick(body)
    ensures ExtractJsonText(pre + JsonFence + body)
         == Strip(if body == [] then [] else body[..|body| - 1])
  {
    var text := pre + JsonFence + body;
    FirstFenceAfter(pre, JsonFence, body, 0);
    ContainsIffFound(text, JsonFence);
    NoClosingFence(pre + JsonFence, body);
    SliceToEndDropsLast(text, |pre| + |JsonFence|, body);
  }

  /** No fence starts in or after a backtick-free tail. */
  lemma NoClosingFence(head: string, body: string)
    requires NoBacktick(body)
    ensures Find(head + body, Fence, |head|) == -1
  {
    var text := head + body;
    forall j | |head| <= j ensures !OccursAt(text, Fence, j) {
      FenceStartsWithBacktick(text, Fence, j);
      if j < |text| {
        assert text[j] == body[j - |head|];
      }
    }
  }

  /** text[start:-1] for a text that ends with `body` from `start` on: the
      body without its last character. */
  lemma SliceToEndDropsLast(text: string, start: nat, body: string)
    requires start + |body| == |text| && text[start..] == body
    ensures Slice(text, start, -1) == if body == [] then [] else body[..|body| - 1]
  {
    if body != [] {
      assert text[start..|text| - 1] == body[..|body| - 1];
    }
  }
}
