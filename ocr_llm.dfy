/** The language-model helpers of the OCR service: reading the JSON array out
    of a model reply that may be wrapped in a markdown code fence, and calling
    the model with retries on rate limits. Each attempt's outcome is the oracle
    `call` (the text of the reply, or the text of the exception), the waits are
    returned instead of slept, and `json.loads` is the oracle `decode`. */
module OcrServiceLlm {
  import opened Util
  import opened Json

  const Brackets: set<char> := {'[', ']'}

  // ------------------------------------------------------------ the JSON text

  /** The text inside a code fence of a stripped reply: after "```json" up to
      the next fence, else the second piece of a split on "```", else all of
      it. */
  function Unfenced(t: string): string {
    if Contains(t, "```json") then Strip(SplitFirst(SplitSecond(t, "```json"), "```"))
    else if Contains(t, "```") then Strip(SplitSecond(t, "```"))
    else t
  }

  /** What the extraction yields: the unfenced text without its outer brackets,
      wrapped in exactly one pair; `[]` for an empty reply. */
  function ExtractedJson(text: string): string {
    if text == "" then "[]" else "[" + StripChars(Unfenced(Strip(text)), Brackets) + "]"
  }

  /** `extract_json_from_response`, step by step. */
  method ExtractJsonFromResponse(text: string) returns (jsonStr: string)
    ensures jsonStr == ExtractedJson(text)
  {
    if text == "" {
      return "[]";
    }
    jsonStr := Strip(text);
    ghost var t := jsonStr;
    if Contains(jsonStr, "```json") {
      var parts1 := SplitSecond(jsonStr, "```json");
      jsonStr := Strip(SplitFirst(parts1, "```"));
    } else if Contains(jsonStr, "```") {
      jsonStr := Strip(SplitSecond(jsonStr, "```"));
    }
    assert jsonStr == Unfenced(t);
    jsonStr := StripChars(jsonStr, Brackets);
    ghost var inner := jsonStr;
    Rewrapped(inner);
    if !IsPrefix("[", jsonStr) {
      jsonStr := "[" + jsonStr;
    }
    if !IsSuffix("]", jsonStr) {
      jsonStr := jsonStr + "]";
    }
  }

  /** Text without an outer bracket gets both brackets added. */
  lemma Rewrapped(inner: string)
    requires inner == [] || (inner[0] !in Brackets && inner[|inner| - 1] !in Brackets)
    ensures !IsPrefix("[", inner) && !IsSuffix("]", "[" + inner)
  {
    var w := "[" + inner;
    if inner != [] {
      assert inner[..1][0] == inner[0] != '[';
      assert w[|w| - 1..][0] == inner[|inner| - 1] != ']';
    } else {
      assert w[|w| - 1..][0] == '[';
    }
  }

  /** The result is always one bracketed array text whose inside neither starts
      nor ends with a bracket, and an empty reply gives the empty array. */
  lemma ExtractedShape(text: string)
    ensures var r := ExtractedJson(text);
      |r| >= 2 && r[0] == '[' && r[|r| - 1] == ']'
      && (r[1..|r| - 1] == [] || (r[1] !in Brackets && r[|r| - 2] !in Brackets))
      && (text == "" ==> r == "[]")
  {
    var r := ExtractedJson(text);
    if text != "" {
      var inner := StripChars(Unfenced(Strip(text)), Brackets);
      assert r[1..|r| - 1] == inner;
    }
  }

  /** With a fence in the reply, no fence is left in the extracted text. */
  lemma FenceRemoved(text: string)
    requires Contains(Strip(text), "```")
    ensures var r := ExtractedJson(text);
      !Contains(r[1..|r| - 1], "```")
  {
    var t := Strip(text);
    var u := Unfenced(t);
    if Contains(t, "```json") {
      var piece := SplitFirst(SplitSecond(t, "```json"), "```");
      FirstHasNoSep(SplitSecond(t, "```json"), "```");
      StripKeepsOut(piece, "```");
    } else {
      FirstHasNoSep(t[Find(t, "```").value + 3..], "```");
      StripKeepsOut(SplitSecond(t, "```"), "```");
    }
    StripCharsKeepsOut(u, Brackets, "```");
    var r := ExtractedJson(text);
    assert r[1..|r| - 1] == StripChars(u, Brackets);
  }

  /** Without a fence the extracted text is the stripped reply without its
      outer brackets. */
  lemma NoFenceKept(text: string)
    requires text != "" && !Contains(Strip(text), "```")
    ensures ExtractedJson(text) == "[" + StripChars(Strip(text), Brackets) + "]"
  {
    var t := Strip(text);
    if Contains(t, "```json") {
      var i :| 0 <= i <= |t| && OccursAt("```json", t, i);
      assert t[i..i + 3] == t[i..i + 7][..3];
      assert OccursAt("```", t, i);
    }
  }

  // ------------------------------------------------------------ retries

  /** An error text that names the rate-limit status. */
  predicate RateLimited(m: string) {
    Contains(m, "429")
  }

  /** The wait before retrying after attempt `attempt`, in seconds. */
  function Backoff(attempt: nat): nat {
    Pow2(attempt) * 3
  }

  /** One attempt: the reply text, or the text of the exception raised. */
  datatype Outcome = Ok(text: string) | Err(message: string)

  /** How the retrying call ends: a reply, a re-raised exception, or, when no
      attempt is allowed at all, Python's implicit `None`. */
  datatype Attempted = Returned(text: string) | Raised(message: string) | NothingReturned

  /** `make_api_request_with_retry`: attempt `k` has outcome `call(k)`; the
      waits before each retry are returned in order. */
  method RequestWithRetry(call: nat -> Outcome, maxRetries: int) returns (r: Attempted, waits: seq<nat>)
    ensures r.NothingReturned? <==> maxRetries <= 0
    ensures r.NothingReturned? ==> waits == []
    ensures maxRetries > 0 ==> |waits| < maxRetries
    ensures forall k :: 0 <= k < |waits| ==>
      waits[k] == Backoff(k) && call(k).Err? && RateLimited(call(k).message)
    ensures r.Returned? ==> call(|waits|) == Ok(r.text)
    ensures r.Raised? ==>
      call(|waits|) == Err(r.message) && (!RateLimited(r.message) || |waits| == maxRetries - 1)
  {
    waits := [];
    var attempt := 0;
    while attempt < maxRetries
      invariant attempt == |waits|
      invariant maxRetries > 0 ==> attempt < maxRetries
      invariant maxRetries <= 0 ==> attempt == 0
      invariant forall k :: 0 <= k < |waits| ==>
        waits[k] == Backoff(k) && call(k).Err? && RateLimited(call(k).message)
      decreases maxRetries - attempt
    {
      var outcome := call(attempt);
      if outcome.Ok? {
        return Returned(outcome.text), waits;
      }
      if RateLimited(outcome.message) && attempt < maxRetries - 1 {
        waits := waits + [Backoff(attempt)];
      } else {
        return Raised(outcome.message), waits;
      }
      attempt := attempt + 1;
    }
    return NothingReturned, waits;
  }

  /** `parse_menu_text`: blank text makes no call; otherwise the model is
      called with up to three attempts, and an exception or a reply that does
      not decode gives no items. `calls` is the number of attempts made. */
  method ParseMenuText(menuText: string, call: nat -> Outcome, decode: string -> Option<seq<Value>>)
    returns (items: seq<Value>, calls: nat)
    ensures Strip(menuText) == "" ==> items == [] && calls == 0
    ensures Strip(menuText) != "" ==> 1 <= calls <= 3
    ensures items != [] ==>
      calls >= 1 && call(calls - 1).Ok? && decode(ExtractedJson(call(calls - 1).text)) == Some(items)
    ensures Strip(menuText) != "" ==>
      (forall k :: 0 <= k < calls - 1 ==> call(k).Err? && RateLimited(call(k).message))
      && (call(calls - 1).Ok? || !RateLimited(call(calls - 1).message) || calls == 3)
    ensures Strip(menuText) != "" && call(calls - 1).Ok? ==>
      items == decode(ExtractedJson(call(calls - 1).text)).GetOr([])
    ensures Strip(menuText) != "" && call(calls - 1).Err? ==> items == []
  {
    if Strip(menuText) == "" {
      return [], 0;
    }
    var r, waits := RequestWithRetry(call, 3);
    calls := |waits| + 1;
    match r
    case Returned(t) =>
      var jsonStr := ExtractJsonFromResponse(t);
      items := decode(jsonStr).GetOr([]);
    case _ =>
      items := [];
  }
}
