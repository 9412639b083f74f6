/** The query refiner of the recommendation service: it asks the language model to
    rewrite a craving ("something spicy") into a richer food description, again
    and again, until the model reports enough confidence or the iteration budget
    is spent. The model is an oracle `llm(n, prompt)` for the n-th call (n >= 1). */
module QueryRefiner {
  import opened Util

  /** The two prompt templates, with the values filled into them. */
  datatype Prompt =
    | Cold(query: string)
    | Iterative(original: string, current: string, confidence: real)

  const RefinedTag: string := "REFINED_QUERY:"
  const ConfidenceTag: string := "CONFIDENCE:"

  /** The default of the `CONFIDENCE_THRESHOLD` setting. */
  const DefaultThreshold: real := 0.9
  /** The default `max_iterations`. */
  const DefaultMaxIterations: int := 100

  // ------------------------------------------------------------ reply parsing

  /** Index of the last line that starts with `tag`. */
  function LastTagged(lines: seq<string>, tag: string): (r: Option<nat>)
    ensures r.Some? ==> r.value < |lines| && IsPrefix(tag, lines[r.value])
    ensures r.Some? ==> forall j :: r.value < j < |lines| ==> !IsPrefix(tag, lines[j])
    ensures r.None? ==> forall j :: 0 <= j < |lines| ==> !IsPrefix(tag, lines[j])
  {
    if lines == [] then None
    else if IsPrefix(tag, lines[|lines| - 1]) then Some(|lines| - 1)
    else LastTagged(lines[..|lines| - 1], tag)
  }

  /** The text after a tag: every occurrence of the tag removed, then stripped. */
  function TagValue(line: string, tag: string): string
    requires tag != []
  {
    Strip(RemoveAll(line, tag))
  }

  /** `float(...)` of a confidence text, 0.0 when it does not parse. */
  function ConfidenceValue(line: string): real {
    match ParseFloat(TagValue(line, ConfidenceTag))
    case Some(v) => v
    case None => 0.0
  }

  /** The refined query a reply carries: that of its last `REFINED_QUERY:` line, or "". */
  function RefinedOf(lines: seq<string>): string {
    match LastTagged(lines, RefinedTag)
    case None => ""
    case Some(i) => TagValue(lines[i], RefinedTag)
  }

  /** The confidence a reply carries: that of its last `CONFIDENCE:` line, or 0.0. */
  function ConfidenceOf(lines: seq<string>): real {
    match LastTagged(lines, ConfidenceTag)
    case None => 0.0
    case Some(i) => ConfidenceValue(lines[i])
  }

  /** No line starts with both tags. */
  lemma TagsExclusive(line: string)
    requires IsPrefix(RefinedTag, line)
    ensures !IsPrefix(ConfidenceTag, line)
  {
    assert line[0] == RefinedTag[0];
  }

  /** Scanning one more line: it is the last tagged one when it carries the tag. */
  lemma LastTaggedStep(lines: seq<string>, i: nat, tag: string)
    requires i < |lines|
    ensures LastTagged(lines[..i + 1], tag)
         == if IsPrefix(tag, lines[i]) then Some(i) else LastTagged(lines[..i], tag)
  {
    assert lines[..i + 1][..i] == lines[..i];
    assert lines[..i + 1][i] == lines[i];
  }

  /** The line-by-line scan of a reply; later tagged lines overwrite earlier ones. */
  method ParseReply(text: string) returns (refined: string, confidence: real)
    ensures refined == RefinedOf(Split(text, '\n'))
    ensures confidence == ConfidenceOf(Split(text, '\n'))
  {
    var lines := Split(text, '\n');
    refined, confidence := "", 0.0;
    for i := 0 to |lines|
      invariant refined == RefinedOf(lines[..i])
      invariant confidence == ConfidenceOf(lines[..i])
    {
      LastTaggedStep(lines, i, RefinedTag);
      LastTaggedStep(lines, i, ConfidenceTag);
      if IsPrefix(RefinedTag, lines[i]) {
        TagsExclusive(lines[i]);
        refined := TagValue(lines[i], RefinedTag);
      } else if IsPrefix(ConfidenceTag, lines[i]) {
        confidence := ConfidenceValue(lines[i]);
      }
    }
    assert lines[..|lines|] == lines;
  }

  // ------------------------------------------------------------ the refinement loop

  /** How a run of the loop ends: normally after `calls` model calls, or by an
      exception escaping from one of them. */
  datatype Outcome = Finished(query: string, confidence: real, calls: nat) | Raised

  /** The prompt of call number `n`. */
  function PromptFor(n: nat, query: string, current: string, confidence: real): Prompt {
    if n == 1 then Cold(query) else Iterative(query, current, confidence)
  }

  /** The values after one reply: a missing refinement or a confidence that is not
      positive falls back to the previous value. */
  function Step(t: string, current: string, conf: real): (r: (string, real))
    ensures r.0 == current || r.0 == RefinedOf(Split(t, '\n'))
    ensures r.0 == "" ==> current == ""
    ensures r.1 == conf || r.1 > 0.0
  {
    var lines := Split(t, '\n');
    (if RefinedOf(lines) == "" then current else RefinedOf(lines),
     if ConfidenceOf(lines) <= 0.0 then conf else ConfidenceOf(lines))
  }

  /** The model's replies are read by `Step`; the loop is stated for any reader
      `step` so that its properties do not depend on how a reply is parsed. */
  type Reader = (string, string, real) -> (string, real)

  /** The loop from the state after `done` calls, holding `current` and `conf`. */
  function Loop(query: string, llm: (nat, Prompt) -> Reply, step: Reader, threshold: real,
                maxIterations: int, done: nat, current: string, conf: real): Outcome
    decreases maxIterations - done
  {
    if done >= maxIterations then Finished(current, conf, done)
    else
      var n := done + 1;
      match llm(n, PromptFor(n, query, current, conf))
      case Failure => Raised
      case Text(t) =>
        var r := step(t, current, conf);
        if r.1 >= threshold then Finished(r.0, r.1, n)
        else Loop(query, llm, step, threshold, maxIterations, n, r.0, r.1)
  }

  /** What `refine_query` returns: the loop's last query and confidence, or the
      original query with confidence 1.0 when a call raised. */
  function Refined(query: string, llm: (nat, Prompt) -> Reply, threshold: real, maxIterations: int)
    : (string, real)
  {
    match Loop(query, llm, Step, threshold, maxIterations, 0, query, 0.0)
    case Raised => (query, 1.0)
    case Finished(q, c, _) => (q, c)
  }

  method RefineQuery(query: string, llm: (nat, Prompt) -> Reply, threshold: real, maxIterations: int)
    returns (refined: string, confidence: real)
    ensures (refined, confidence) == Refined(query, llm, threshold, maxIterations)
  {
    var current, conf := query, 0.0;
    var iteration: nat := 0;
    while iteration < maxIterations
      invariant Loop(query, llm, Step, threshold, maxIterations, 0, query, 0.0)
             == Loop(query, llm, Step, threshold, maxIterations, iteration, current, conf)
      decreases maxIterations - iteration
    {
      iteration := iteration + 1;
      var prompt := if iteration == 1 then Cold(query) else Iterative(query, current, conf);
      var reply := llm(iteration, prompt);
      if reply.Failure? {
        return query, 1.0;
      }
      var q, c := ParseReply(reply.text);
      if q == "" {
        q := current;
      }
      if c <= 0.0 {
        c := conf;
      }
      current, conf := q, c;
      if conf >= threshold {
        break;
      }
    }
    return current, conf;
  }

  // ------------------------------------------------------------ properties

  /** The loop makes at most `maxIterations` calls (none when it is not positive),
      and it stops before the budget is spent only once the threshold is reached. */
  lemma {:induction false} LoopStops(query: string, llm: (nat, Prompt) -> Reply, step: Reader,
                                     threshold: real, maxIterations: int, done: nat,
                                     current: string, conf: real)
    requires done <= maxIterations || done == 0
    ensures var o := Loop(query, llm, step, threshold, maxIterations, done, current, conf);
      o.Finished? ==> o.calls == done || (done < o.calls <= maxIterations)
    ensures var o := Loop(query, llm, step, threshold, maxIterations, done, current, conf);
      o.Finished? && o.calls != done && o.calls < maxIterations ==> o.confidence >= threshold
    ensures var o := Loop(query, llm, step, threshold, maxIterations, done, current, conf);
      o.Finished? && o.calls == done ==> o.query == current && o.confidence == conf && done >= maxIterations
    decreases maxIterations - done
  {
    if done < maxIterations {
      var n := done + 1;
      match llm(n, PromptFor(n, query, current, conf))
      case Failure =>
      case Text(t) =>
        var r := step(t, current, conf);
        if r.1 < threshold {
          LoopStops(query, llm, step, threshold, maxIterations, n, r.0, r.1);
        }
    }
  }

  /** A finished refinement made at most `maxIterations` calls; it either reached
      the threshold or used up the whole budget. */
  lemma RefinementBudget(query: string, llm: (nat, Prompt) -> Reply, threshold: real, maxIterations: int)
    ensures var o := Loop(query, llm, Step, threshold, maxIterations, 0, query, 0.0);
      o.Finished? ==>
        (o.calls <= Max(maxIterations, 0) && (o.confidence >= threshold || o.calls == Max(maxIterations, 0)))
  {
    LoopStops(query, llm, Step, threshold, maxIterations, 0, query, 0.0);
  }

  /** Without a positive budget no call is made: the query comes back with 0.0. */
  lemma NoBudget(query: string, llm: (nat, Prompt) -> Reply, threshold: real, maxIterations: int)
    requires maxIterations <= 0
    ensures Refined(query, llm, threshold, maxIterations) == (query, 0.0)
  {
  }

  /** The confidence never becomes negative, and the query never becomes empty:
      a reply without a usable value keeps the previous one. */
  lemma {:induction false} LoopKeeps(query: string, llm: (nat, Prompt) -> Reply, step: Reader,
                                     threshold: real, maxIterations: int, done: nat,
                                     current: string, conf: real)
    requires forall t, q, c :: step(t, q, c).1 == c || step(t, q, c).1 > 0.0
    requires forall t, q, c :: step(t, q, c).0 == "" ==> q == ""
    requires conf >= 0.0
    ensures var o := Loop(query, llm, step, threshold, maxIterations, done, current, conf);
      o.Finished? ==> o.confidence >= 0.0 && (current != "" ==> o.query != "")
    decreases maxIterations - done
  {
    if done < maxIterations {
      var n := done + 1;
      match llm(n, PromptFor(n, query, current, conf))
      case Failure =>
      case Text(t) =>
        var r := step(t, current, conf);
        LoopKeeps(query, llm, step, threshold, maxIterations, n, r.0, r.1);
    }
  }

  /** `refine_query` never reports a negative confidence, and a non-empty query
      never refines into an empty one. */
  lemma RefinedWellFormed(query: string, llm: (nat, Prompt) -> Reply, threshold: real, maxIterations: int)
    ensures Refined(query, llm, threshold, maxIterations).1 >= 0.0
    ensures query != "" ==> Refined(query, llm, threshold, maxIterations).0 != ""
  {
    LoopKeeps(query, llm, Step, threshold, maxIterations, 0, query, 0.0);
  }

  /** A failing first call yields the original query with confidence 1.0. */
  lemma FirstCallFails(query: string, llm: (nat, Prompt) -> Reply, threshold: real, maxIterations: int)
    requires maxIterations >= 1 && llm(1, Cold(query)) == Failure
    ensures Refined(query, llm, threshold, maxIterations) == (query, 1.0)
  {
  }

  /** A first reply that names a refinement with a confidence at the threshold ends
      the loop after one call with exactly those values. */
  lemma ConfidentFirstReply(query: string, llm: (nat, Prompt) -> Reply, threshold: real,
                            maxIterations: int, t: string)
    requires maxIterations >= 1 && llm(1, Cold(query)) == Text(t)
    requires threshold > 0.0
    requires RefinedOf(Split(t, '\n')) != "" && ConfidenceOf(Split(t, '\n')) >= threshold
    ensures Refined(query, llm, threshold, maxIterations)
         == (RefinedOf(Split(t, '\n')), ConfidenceOf(Split(t, '\n')))
  {
  }

  /** A reply whose lines carry no tag leaves both values as they were. */
  lemma UntaggedReply(lines: seq<string>)
    requires forall j :: 0 <= j < |lines| ==> !IsPrefix(RefinedTag, lines[j]) && !IsPrefix(ConfidenceTag, lines[j])
    ensures RefinedOf(lines) == "" && ConfidenceOf(lines) == 0.0
  {
  }
}
