/**
 * What the agent does to a model reply before acting on it: the cleaning
 * chain of `runAgent` (trim, drop every "```json", drop every "```", trim)
 * and `extractFirstJSON`, the alternative decoder that picks the first
 * brace-delimited span out of surrounding prose.  `JSON.parse` is a
 * parameter: a partial function from text to a value.
 */
module ReplyDecoding {
  import opened Wrappers
  import opened Strings
  import opened JsonValue

  /** The opening fence of a Markdown JSON code block. */
  const JsonFence: string := "```json"

  /** The cleaning chain applied to `req.response.text()`. */
  function CleanReply(raw: string): string {
    Trim(RemoveAll(RemoveAll(Trim(raw), JsonFence), Fence))
  }

  /** The cleaned reply has no fence left, no whitespace at either end, and
      is the raw reply with characters deleted. */
  lemma CleanReplySound(raw: string)
    ensures !Contains(CleanReply(raw), Fence)
    ensures IsTrimmed(CleanReply(raw))
    ensures IsSubsequence(CleanReply(raw), raw)
  {
    var trimmed := Trim(raw);
    var untagged := RemoveAll(trimmed, JsonFence);
    var unfenced := RemoveAll(untagged, Fence);
    var r := Trim(unfenced);
    NoFenceAfterRemoval(untagged);
    TrimAddsNoRun(unfenced, Fence);
    TrimIsSubsequence(raw);
    TrimIsSubsequence(unfenced);
    SubsequenceTrans(unfenced, untagged, trimmed);
    SubsequenceTrans(r, unfenced, trimmed);
    SubsequenceTrans(r, trimmed, raw);
  }

  lemma NoJsonFenceWithoutFence(s: string)
    requires !Contains(s, Fence)
    ensures !Contains(s, JsonFence)
  {
    assert JsonFence == Fence + "json";
    if Contains(s, JsonFence) {
      ContainsPrefixOfPattern(s, Fence, "json");
    }
  }

  /** Cleaning a cleaned reply changes nothing. */
  lemma CleanReplyIdempotent(raw: string)
    ensures CleanReply(CleanReply(raw)) == CleanReply(raw)
  {
    var c := CleanReply(raw);
    CleanReplySound(raw);
    TrimOfTrimmed(c);
    NoJsonFenceWithoutFence(c);
  }

  /** A reply without any fence is only trimmed. */
  lemma CleanReplyOfUnfenced(raw: string)
    requires !Contains(raw, Fence)
    ensures CleanReply(raw) == Trim(raw)
  {
    var t := Trim(raw);
    TrimAddsNoRun(raw, Fence);
    NoJsonFenceWithoutFence(t);
    TrimOfTrimmed(t);
    assert !Contains(t, JsonFence);
    var untagged := RemoveAll(t, JsonFence);
    assert untagged == t;
    var unfenced := RemoveAll(untagged, Fence);
    assert unfenced == t;
    assert CleanReply(raw) == Trim(unfenced);
  }

  predicate NoBacktick(s: string) {
    forall i :: 0 <= i < |s| ==> s[i] != '`'
  }

  /** Text without backticks passes through a fence removal untouched, and
      the scan resumes after it. */
  lemma {:induction false} RemoveAllSkipsPlainText(body: string, tail: string, p: string)
    requires p != [] && p[0] == '`' && NoBacktick(body)
    ensures RemoveAll(body + tail, p) == body + RemoveAll(tail, p)
  {
    if body != [] {
      var s := body + tail;
      assert s[0] == body[0] && s[0] != p[0];
      assert !StartsWith(s, p);
      assert s[1..] == body[1..] + tail;
      assert RemoveAll(s, p) == [body[0]] + RemoveAll(body[1..] + tail, p);
      RemoveAllSkipsPlainText(body[1..], tail, p);
      assert [body[0]] + body[1..] == body;
    } else {
      assert body + tail == tail;
    }
  }

  /** The reply the cleaning is written for: a JSON code block whose content
      has no backtick comes out as that content, trimmed. */
  lemma CleanReplyUnwrapsCodeBlock(body: string)
    requires NoBacktick(body)
    ensures CleanReply(JsonFence + body + Fence) == Trim(body)
  {
    var raw := JsonFence + body + Fence;
    assert raw[0] == '`' && raw[|raw| - 1] == '`';
    TrimOfTrimmed(raw);
    assert StartsWith(raw, JsonFence);
    assert raw[|JsonFence|..] == body + Fence;
    RemoveAllSkipsPlainText(body, Fence, JsonFence);
    assert RemoveAll(Fence, JsonFence) == Fence;
    RemoveAllSkipsPlainText(body, Fence, Fence);
    assert Fence[3..] == [];
    assert body + [] == body;
  }

  /** The first index at or after `from` holding `c`. */
  function IndexOfChar(s: string, c: char, from: nat): (r: Option<nat>)
    ensures r.Some? ==> from <= r.value < |s| && s[r.value] == c
                        && forall j :: from <= j < r.value ==> s[j] != c
    ensures r.None? ==> forall j :: from <= j < |s| ==> s[j] != c
    decreases |s| - from
  {
    if from >= |s| then None
    else if s[from] == c then Some(from)
    else IndexOfChar(s, c, from + 1)
  }

  /** The span `s[o..e]` runs from an opening brace at `o` to the first
      closing brace after it, and no opening brace comes between `k` and `o`. */
  predicate FirstBraceSpan(s: string, k: nat, o: nat, e: nat) {
    && k <= o < e <= |s|
    && s[o] == '{' && s[e - 1] == '}'
    && (forall i :: k <= i < o ==> s[i] != '{')
    && (forall j :: o < j < e - 1 ==> s[j] != '}')
  }

  /** Some opening brace at or after `k` has a closing brace after it. */
  predicate HasBracePair(s: string, k: nat) {
    exists o, c :: k <= o < c < |s| && s[o] == '{' && s[c] == '}'
  }

  /** The search of the regular expression `/\{[\s\S]*?\}/` from position
      `k`: start positions are tried from left to right, and at each one the
      lazy `[\s\S]*?` stops at the first closing brace. */
  function LeftmostLazyMatch(s: string, k: nat): (r: Option<(nat, nat)>)
    ensures r.None? <==> !HasBracePair(s, k)
    ensures r.Some? ==> FirstBraceSpan(s, k, r.value.0, r.value.1)
    decreases |s| - k
  {
    if k >= |s| then None
    else if s[k] == '{' && IndexOfChar(s, '}', k + 1).Some? then
      Some((k, IndexOfChar(s, '}', k + 1).value + 1))
    else
      var r := LeftmostLazyMatch(s, k + 1);
      assert HasBracePair(s, k) ==> HasBracePair(s, k + 1) by {
        if HasBracePair(s, k) {
          var o, c :| k <= o < c < |s| && s[o] == '{' && s[c] == '}';
          assert k + 1 <= o;
        }
      }
      r
  }

  /** `extractFirstJSON` fails in two ways. */
  datatype ExtractError =
    | NoJsonFound  // the regular expression did not match
    | ParseFailed  // `JSON.parse` threw on the matched text

  /** `extractFirstJSON(str)`. */
  function ExtractFirstJson(s: string, parse: string -> Option<Json>): (r: Result<Json, ExtractError>)
    ensures r == Err(NoJsonFound) <==> forall o, c :: 0 <= o < c < |s| && s[o] == '{' ==> s[c] != '}'
    ensures r.Ok? ==> exists o: nat, e: nat :: FirstBraceSpan(s, 0, o, e) && parse(s[o..e]) == Some(r.value)
    ensures r == Err(ParseFailed) ==> exists o: nat, e: nat :: FirstBraceSpan(s, 0, o, e) && parse(s[o..e]).None?
  {
    match LeftmostLazyMatch(s, 0)
    case None => Err(NoJsonFound)
    case Some((o, e)) =>
      match parse(s[o..e])
      case None => Err(ParseFailed)
      case Some(v) => Ok(v)
  }

  /** Only the first opening brace can start the match, and the match ends
      at the first closing brace after it: the span is determined. */
  lemma FirstBraceSpanUnique(s: string, o: nat, e: nat, o': nat, e': nat)
    requires FirstBraceSpan(s, 0, o, e) && FirstBraceSpan(s, 0, o', e')
    ensures o == o' && e == e'
  {
  }
}
