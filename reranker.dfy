/** The reranker of the recommendation service: the language model scores each
    dish 0-100 for the query, the score is blended 30/70 with the vector
    similarity, and the dishes are re-sorted, de-duplicated by name and tagged with
    a cuisine. The model is the oracle `llm(query, dishes)`; `decode` is
    `json.loads` on the bracketed part of its answer, already read into entries. */
module Reranker {
  import opened Util
  import opened Sorting
  import opened VectorSearch

  /** One element of the decoded score array. `Scored` is an object holding both
      "id" and "score" (an id that is not a string matches no dish, so such an
      entry is `Unscored`); `Unscored` lacks one of the keys; `Broken` is an element
      on which the `"id" in item` test raises (a number, a boolean, `null`), or a
      list or text that contains both "id" and "score", so that `item["id"]`
      raises. A list or text that does not contain both is `Unscored`. */
  datatype Entry = Scored(id: string, score: Score) | Unscored | Broken

  /** The dictionary `{item["id"]: item["score"] ...}`: later entries overwrite earlier ones. */
  function ScoreMap(entries: seq<Entry>): map<string, Score> {
    if entries == [] then map[]
    else
      var m := ScoreMap(entries[..|entries| - 1]);
      match entries[|entries| - 1]
      case Scored(id, s) => m[id := s]
      case _ => m
  }

  /** An id has a score exactly when some entry scores it, and its score is that of
      the last entry scoring it. */
  lemma {:induction false} ScoreMapSpec(entries: seq<Entry>)
    ensures forall k :: k in ScoreMap(entries) <==>
      exists i :: 0 <= i < |entries| && entries[i].Scored? && entries[i].id == k
    ensures forall k :: k in ScoreMap(entries) ==>
      exists i :: 0 <= i < |entries| && entries[i] == Scored(k, ScoreMap(entries)[k])
        && (forall j :: i < j < |entries| ==> !(entries[j].Scored? && entries[j].id == k))
  {
    if entries != [] {
      var init := entries[..|entries| - 1];
      ScoreMapSpec(init);
      assert forall i :: 0 <= i < |init| ==> init[i] == entries[i];
    }
  }

  predicate HasBroken(entries: seq<Entry>) {
    exists i :: 0 <= i < |entries| && entries[i].Broken?
  }

  /** Dividing a non-numeric score by 100 raises. */
  predicate Blocked(d: Dish, m: map<string, Score>) {
    d.id in m && m[d.id].NonNumeric?
  }

  /** A dish after scoring: with a model score it keeps its similarity as
      `original_score` and gets the 30/70 blend; without one its similarity is its
      combined score. */
  function Rescored(d: Dish, m: map<string, Score>): Dish
    requires !Blocked(d, m)
  {
    if d.id in m then
      var l := m[d.id].value / 100.0;
      d.(originalScore := Some(d.similarity), llmScore := Some(l), combined := Some(0.3 * d.similarity + 0.7 * l))
    else d.(combined := Some(d.similarity))
  }

  /** The scoring loop; it stops at the first blocked dish, leaving the dishes
      before it rescored and the rest untouched, and reports the exception. */
  function Scoring(recs: seq<Dish>, m: map<string, Score>): (seq<Dish>, bool) {
    if recs == [] then ([], false)
    else if Blocked(recs[0], m) then (recs, true)
    else
      var rest := Scoring(recs[1..], m);
      ([Rescored(recs[0], m)] + rest.0, rest.1)
  }

  /** Without usable scores every dish's similarity becomes its combined score. */
  function Defaulted(recs: seq<Dish>): seq<Dish> {
    seq(|recs|, i requires 0 <= i < |recs| => recs[i].(combined := Some(recs[i].similarity)))
  }

  function CombinedKey(d: Dish): real {
    d.combined.GetOr(d.similarity)
  }

  function NamesOf(s: seq<Dish>): (r: set<string>)
    ensures forall n :: n in r <==> exists i :: 0 <= i < |s| && s[i].name == n
  {
    if s == [] then {}
    else
      var init := s[..|s| - 1];
      assert forall i :: 0 <= i < |init| ==> init[i] == s[i];
      NamesOf(init) + {s[|s| - 1].name}
  }

  /** Keeps the first dish of every name, in order. */
  function DedupByName(s: seq<Dish>): seq<Dish> {
    if s == [] then []
    else
      var init := s[..|s| - 1];
      if s[|s| - 1].name in NamesOf(init) then DedupByName(init)
      else DedupByName(init) + [s[|s| - 1]]
  }

  /** The cuisine guessed from a dish name. */
  function CuisineOf(name: string): string {
    if Contains(name, "Margherita") || Contains(name, "Pizza") || Contains(name, "Pepperoni") then "Italian"
    else if Contains(name, "Sandwich") then "American"
    else if Contains(name, "Paneer") then "Indian"
    else "Unknown"
  }

  /** The cuisine rules apply in priority order: an Italian word wins over
      "Sandwich", which wins over "Paneer"; any other name is "Unknown". */
  lemma CuisinePriority(name: string)
    ensures var italian := Contains(name, "Margherita") || Contains(name, "Pizza") || Contains(name, "Pepperoni");
      (CuisineOf(name) == "Italian" <==> italian)
      && (CuisineOf(name) == "American" <==> !italian && Contains(name, "Sandwich"))
      && (CuisineOf(name) == "Indian" <==> !italian && !Contains(name, "Sandwich") && Contains(name, "Paneer"))
      && (CuisineOf(name) == "Unknown" <==>
            !italian && !Contains(name, "Sandwich") && !Contains(name, "Paneer"))
  {
  }

  function Tagged(d: Dish): Dish {
    d.(cuisineType := Some(CuisineOf(d.name)))
  }

  function TagAll(s: seq<Dish>): seq<Dish> {
    seq(|s|, i requires 0 <= i < |s| => Tagged(s[i]))
  }

  /** The reply reached the end of the happy path: scores decoded, none broken,
      none non-numeric. */
  predicate Completes(query: string, recs: seq<Dish>, llm: (string, seq<Dish>) -> Reply,
                      decode: string -> Option<seq<Entry>>)
  {
    recs != [] && llm(query, recs).Text? && BracketSpan(llm(query, recs).text).Some?
    && decode(BracketSpan(llm(query, recs).text).value).Some?
    && var entries := decode(BracketSpan(llm(query, recs).text).value).value;
    !HasBroken(entries) && !Scoring(recs, ScoreMap(entries)).1
  }

  /** What `rerank_recommendations` returns. */
  function Reranked(query: string, recs: seq<Dish>, llm: (string, seq<Dish>) -> Reply,
                    decode: string -> Option<seq<Entry>>): seq<Dish>
  {
    if recs == [] then []
    else match llm(query, recs)
      case Failure => recs
      case Text(t) =>
        match BracketSpan(t)
        case None => Defaulted(recs)
        case Some(span) =>
          match decode(span)
          case None => Defaulted(recs)
          case Some(entries) =>
            if HasBroken(entries) then recs
            else
              var scored := Scoring(recs, ScoreMap(entries));
              if scored.1 then scored.0
              else TagAll(DedupByName(SortDesc(scored.0, CombinedKey)))
  }

  /** The loop of the fallback paths. */
  method DefaultScores(recs: seq<Dish>) returns (result: seq<Dish>)
    ensures result == Defaulted(recs)
  {
    result := recs;
    for i := 0 to |recs|
      invariant |result| == |recs|
      invariant forall j :: 0 <= j < i ==> result[j] == Defaulted(recs)[j]
      invariant forall j :: i <= j < |recs| ==> result[j] == recs[j]
    {
      result := result[i := result[i].(combined := Some(result[i].similarity))];
    }
  }

  /** The scoring loop, which stops at a non-numeric score. */
  method ApplyScores(recs: seq<Dish>, m: map<string, Score>) returns (result: seq<Dish>, raised: bool)
    ensures result == Scoring(recs, m).0 && raised == Scoring(recs, m).1
  {
    result := recs;
    for i := 0 to |recs|
      invariant |result| == |recs|
      invariant forall j :: 0 <= j < i ==> !Blocked(recs[j], m) && result[j] == Rescored(recs[j], m)
      invariant forall j :: i <= j < |recs| ==> result[j] == recs[j]
    {
      if Blocked(result[i], m) {
        ScoringAt(recs, m, i);
        assert Scoring(recs[i..], m) == (recs[i..], true);
        assert result == Scoring(recs, m).0;
        return result, true;
      }
      result := result[i := Rescored(result[i], m)];
    }
    ScoringAt(recs, m, |recs|);
    assert Scoring(recs[|recs|..], m) == ([], false);
    raised := false;
  }

  /** Scoring past `i` dishes that are not blocked: those are rescored, and the
      rest is the scoring of what follows them. */
  lemma {:induction false} ScoringAt(recs: seq<Dish>, m: map<string, Score>, i: nat)
    requires i <= |recs| && forall j :: 0 <= j < i ==> !Blocked(recs[j], m)
    ensures Scoring(recs, m).1 == Scoring(recs[i..], m).1
    ensures |Scoring(recs, m).0| == i + |Scoring(recs[i..], m).0|
    ensures forall j :: 0 <= j < i ==> Scoring(recs, m).0[j] == Rescored(recs[j], m)
    ensures forall j :: i <= j < |Scoring(recs, m).0| ==> Scoring(recs, m).0[j] == Scoring(recs[i..], m).0[j - i]
  {
    if i > 0 {
      ScoringAt(recs[1..], m, i - 1);
      assert recs[1..][i - 1..] == recs[i..];
    }
  }

  /** The de-duplication loop over the sorted dishes, with its set of seen names. */
  method KeepFirstByName(sorted: seq<Dish>) returns (deduped: seq<Dish>)
    ensures deduped == DedupByName(sorted)
  {
    deduped := [];
    var seen: set<string> := {};
    for i := 0 to |sorted|
      invariant deduped == DedupByName(sorted[..i])
      invariant seen == NamesOf(sorted[..i])
    {
      assert sorted[..i + 1][..i] == sorted[..i];
      if sorted[i].name !in seen {
        seen := seen + {sorted[i].name};
        deduped := deduped + [sorted[i]];
      }
    }
    assert sorted[..|sorted|] == sorted;
  }

  /** The cuisine-tagging loop. */
  method TagCuisines(dishes: seq<Dish>) returns (result: seq<Dish>)
    ensures result == TagAll(dishes)
  {
    result := dishes;
    for i := 0 to |dishes|
      invariant |result| == |dishes|
      invariant forall j :: 0 <= j < i ==> result[j] == Tagged(dishes[j])
      invariant forall j :: i <= j < |dishes| ==> result[j] == dishes[j]
    {
      result := result[i := Tagged(result[i])];
    }
  }

  method RerankRecommendations(query: string, recs: seq<Dish>, llm: (string, seq<Dish>) -> Reply,
                               decode: string -> Option<seq<Entry>>) returns (result: seq<Dish>)
    ensures result == Reranked(query, recs, llm, decode)
  {
    if recs == [] {
      return [];
    }
    var reply := llm(query, recs);
    if reply.Failure? {
      return recs;
    }
    var span := BracketSpan(reply.text);
    if span.None? {
      result := DefaultScores(recs);
      return;
    }
    var entries := decode(span.value);
    if entries.None? {
      result := DefaultScores(recs);
      return;
    }
    if HasBroken(entries.value) {
      return recs;
    }
    var raised;
    result, raised := ApplyScores(recs, ScoreMap(entries.value));
    if raised {
      return;
    }
    var deduped := KeepFirstByName(SortDesc(result, CombinedKey));
    result := TagCuisines(deduped);
  }

  // ------------------------------------------------------------ properties

  predicate UniqueNames(s: seq<Dish>) {
    forall i, j :: 0 <= i < j < |s| ==> s[i].name != s[j].name
  }

  lemma {:induction false} DedupSubset(s: seq<Dish>)
    ensures forall d :: d in DedupByName(s) ==> d in s
    ensures |DedupByName(s)| <= |s|
  {
    if s != [] {
      var init := s[..|s| - 1];
      DedupSubset(init);
      assert forall j :: 0 <= j < |init| ==> init[j] == s[j];
    }
  }

  /** Adding a dish adds its name. */
  lemma NamesOfSnoc(r: seq<Dish>, d: Dish)
    ensures NamesOf(r + [d]) == NamesOf(r) + {d.name}
  {
    assert (r + [d])[..|r|] == r;
  }

  lemma {:induction false} DedupNames(s: seq<Dish>)
    ensures NamesOf(DedupByName(s)) == NamesOf(s)
  {
    if s != [] {
      var init := s[..|s| - 1];
      var last := s[|s| - 1];
      DedupNames(init);
      assert NamesOf(s) == NamesOf(init) + {last.name};
      if last.name !in NamesOf(init) {
        NamesOfSnoc(DedupByName(init), last);
      }
    }
  }

  lemma {:induction false} DedupUnique(s: seq<Dish>)
    ensures UniqueNames(DedupByName(s))
  {
    if s != [] {
      var init := s[..|s| - 1];
      var last := s[|s| - 1];
      DedupUnique(init);
      var r := DedupByName(init);
      if last.name !in NamesOf(init) {
        DedupNames(init);
        var r' := r + [last];
        assert r'[..|r|] == r;
        forall i, j | 0 <= i < j < |r'|
          ensures r'[i].name != r'[j].name
        {
          if j == |r| {
            assert r'[i] == r[i];
            assert r[i].name in NamesOf(r);
          } else {
            assert r'[i] == r[i] && r'[j] == r[j];
          }
        }
      }
    }
  }

  /** De-duplication keeps only dishes of the input, every name once, and every
      name of the input. */
  lemma DedupKeeps(s: seq<Dish>)
    ensures forall d :: d in DedupByName(s) ==> d in s
    ensures NamesOf(DedupByName(s)) == NamesOf(s)
    ensures UniqueNames(DedupByName(s))
    ensures |DedupByName(s)| <= |s|
  {
    DedupSubset(s);
    DedupNames(s);
    DedupUnique(s);
  }

  /** De-duplication keeps a descending order. */
  lemma {:induction false} DedupSorted(s: seq<Dish>, key: Dish -> real)
    requires SortedDesc(s, key)
    ensures SortedDesc(DedupByName(s), key)
  {
    if s != [] {
      var init := s[..|s| - 1];
      var last := s[|s| - 1];
      assert SortedDesc(init, key);
      DedupSorted(init, key);
      DedupSubset(init);
      var r := DedupByName(init);
      if last.name !in NamesOf(init) {
        var r' := r + [last];
        forall i, j | 0 <= i < j < |r'|
          ensures key(r'[i]) >= key(r'[j])
        {
          assert r'[i] == r[i];
          if j == |r| {
            assert r[i] in init;
            var k :| 0 <= k < |init| && init[k] == r[i];
            assert s[k] == r[i] && s[|s| - 1] == last;
          } else {
            assert r'[j] == r[j];
          }
        }
      }
    }
  }

  lemma {:induction false} ScoringShape(recs: seq<Dish>, m: map<string, Score>)
    ensures |Scoring(recs, m).0| == |recs|
    ensures forall i :: 0 <= i < |recs| ==> Scoring(recs, m).0[i].id == recs[i].id
    ensures !Scoring(recs, m).1 ==> forall i :: 0 <= i < |recs| ==>
      !Blocked(recs[i], m) && Scoring(recs, m).0[i] == Rescored(recs[i], m)
  {
    if recs != [] && !Blocked(recs[0], m) {
      ScoringShape(recs[1..], m);
    }
  }

  /** When the reply cannot be used (no bracketed array, or one that does not
      decode) every dish is kept in place, with its similarity as combined score. */
  lemma RerankedFallback(query: string, recs: seq<Dish>, llm: (string, seq<Dish>) -> Reply,
                         decode: string -> Option<seq<Entry>>)
    requires recs != [] && llm(query, recs).Text?
    requires BracketSpan(llm(query, recs).text).None?
          || decode(BracketSpan(llm(query, recs).text).value).None?
    ensures var r := Reranked(query, recs, llm, decode);
      |r| == |recs| && forall i :: 0 <= i < |recs| ==>
        r[i] == recs[i].(combined := Some(recs[i].similarity))
  {
  }

  /** Each dish of `r` is some non-blocked input dish, rescored and tagged. */
  predicate FromInput(r: seq<Dish>, recs: seq<Dish>, m: map<string, Score>) {
    forall i :: 0 <= i < |r| ==>
      exists j :: 0 <= j < |recs| && !Blocked(recs[j], m) && r[i] == Tagged(Rescored(recs[j], m))
  }

  /** Lists with the same name at every position have the same names. */
  lemma NamesOfPointwise(a: seq<Dish>, b: seq<Dish>)
    requires |a| == |b| && forall i :: 0 <= i < |a| ==> a[i].name == b[i].name
    ensures NamesOf(a) == NamesOf(b)
  {
    forall n | n in NamesOf(a) ensures n in NamesOf(b) {
      var i :| 0 <= i < |a| && a[i].name == n;
      assert b[i].name == n;
    }
  }

  /** Rearranging a list keeps its names. */
  lemma NamesOfPermutation(a: seq<Dish>, b: seq<Dish>)
    requires multiset(a) == multiset(b)
    ensures NamesOf(a) == NamesOf(b)
  {
    forall n | n in NamesOf(a) ensures n in NamesOf(b) {
      var i :| 0 <= i < |a| && a[i].name == n;
      assert a[i] in multiset(b);
    }
    forall n | n in NamesOf(b) ensures n in NamesOf(a) {
      var i :| 0 <= i < |b| && b[i].name == n;
      assert b[i] in multiset(a);
    }
  }

  /** Sorting and de-duplicating a list: ordered, one dish per name, every name kept. */
  lemma SortDedupShape(scored: seq<Dish>)
    ensures var d := DedupByName(SortDesc(scored, CombinedKey));
      SortedDesc(d, CombinedKey) && UniqueNames(d) && NamesOf(d) == NamesOf(scored)
      && |d| <= |scored| && forall x :: x in d ==> x in scored
  {
    var sorted := SortDesc(scored, CombinedKey);
    SortDescPermutation(scored, CombinedKey);
    SortDescSorted(scored, CombinedKey);
    DedupKeeps(sorted);
    DedupSorted(sorted, CombinedKey);
    NamesOfPermutation(sorted, scored);
    forall x | x in DedupByName(sorted) ensures x in scored {
      assert x in multiset(sorted);
    }
  }

  /** Tagging changes neither names nor combined scores. */
  lemma TagAllKeeps(d: seq<Dish>)
    ensures var r := TagAll(d);
      |r| == |d| && NamesOf(r) == NamesOf(d)
      && (SortedDesc(d, CombinedKey) ==> SortedDesc(r, CombinedKey))
      && (UniqueNames(d) ==> UniqueNames(r))
  {
    var r := TagAll(d);
    assert forall i :: 0 <= i < |r| ==> r[i].name == d[i].name && CombinedKey(r[i]) == CombinedKey(d[i]);
    NamesOfPointwise(r, d);
  }

  /** Tagging dishes drawn from a completely scored list gives rescored, tagged inputs. */
  lemma TaggedFromInput(d: seq<Dish>, recs: seq<Dish>, m: map<string, Score>)
    requires !Scoring(recs, m).1
    requires forall x :: x in d ==> x in Scoring(recs, m).0
    ensures FromInput(TagAll(d), recs, m)
  {
    var scored := Scoring(recs, m).0;
    ScoringShape(recs, m);
    var r := TagAll(d);
    forall i | 0 <= i < |r|
      ensures exists j :: 0 <= j < |recs| && !Blocked(recs[j], m) && r[i] == Tagged(Rescored(recs[j], m))
    {
      assert d[i] in scored;
      var j :| 0 <= j < |scored| && scored[j] == d[i];
      assert r[i] == Tagged(d[i]);
    }
  }

  /** Sorting, de-duplicating and tagging a completely scored list keeps
      rescored input dishes only. */
  lemma PipelineFromInput(recs: seq<Dish>, m: map<string, Score>)
    requires !Scoring(recs, m).1
    ensures FromInput(TagAll(DedupByName(SortDesc(Scoring(recs, m).0, CombinedKey))), recs, m)
  {
    var scored := Scoring(recs, m).0;
    var sorted := SortDesc(scored, CombinedKey);
    var deduped := DedupByName(sorted);
    SortDescPermutation(scored, CombinedKey);
    DedupSubset(sorted);
    forall x | x in deduped ensures x in scored {
      assert x in multiset(sorted);
    }
    TaggedFromInput(deduped, recs, m);
  }

  /** Sorting, de-duplicating and tagging a completely scored list. */
  lemma PipelineShape(recs: seq<Dish>, m: map<string, Score>)
    requires !Scoring(recs, m).1
    ensures var r := TagAll(DedupByName(SortDesc(Scoring(recs, m).0, CombinedKey)));
      SortedDesc(r, CombinedKey) && UniqueNames(r) && NamesOf(r) == NamesOf(recs) && |r| <= |recs|
      && FromInput(r, recs, m)
  {
    var scored := Scoring(recs, m).0;
    ScoringShape(recs, m);
    var deduped := DedupByName(SortDesc(scored, CombinedKey));
    SortDedupShape(scored);
    TagAllKeeps(deduped);
    NamesOfPointwise(scored, recs);
    assert NamesOf(TagAll(deduped)) == NamesOf(deduped) == NamesOf(scored) == NamesOf(recs);
    PipelineFromInput(recs, m);
  }

  /** The scores a completed reply carries. */
  function CompletedScores(query: string, recs: seq<Dish>, llm: (string, seq<Dish>) -> Reply,
                           decode: string -> Option<seq<Entry>>): map<string, Score>
    requires Completes(query, recs, llm, decode)
  {
    ScoreMap(decode(BracketSpan(llm(query, recs).text).value).value)
  }

  /** On the happy path the result is ordered by combined score, holds exactly one
      dish for every distinct name of the input, and each one is a rescored input
      dish tagged with its cuisine. */
  lemma RerankedShape(query: string, recs: seq<Dish>, llm: (string, seq<Dish>) -> Reply,
                      decode: string -> Option<seq<Entry>>)
    requires Completes(query, recs, llm, decode)
    ensures var r := Reranked(query, recs, llm, decode);
      SortedDesc(r, CombinedKey) && UniqueNames(r) && NamesOf(r) == NamesOf(recs) && |r| <= |recs|
      && FromInput(r, recs, CompletedScores(query, recs, llm, decode))
  {
    var m := CompletedScores(query, recs, llm, decode);
    assert Reranked(query, recs, llm, decode) == TagAll(DedupByName(SortDesc(Scoring(recs, m).0, CombinedKey)));
    PipelineShape(recs, m);
  }

  /** A blended score stays in [0, 1] when both of its parts do. */
  lemma RescoredBounded(d: Dish, m: map<string, Score>)
    requires !Blocked(d, m) && 0.0 <= d.similarity <= 1.0
    requires d.id in m ==> 0.0 <= m[d.id].value <= 100.0
    ensures Rescored(d, m).combined.Some? && 0.0 <= Rescored(d, m).combined.value <= 1.0
  {
  }

  /** With similarities in [0, 1] and model scores in [0, 100], every combined
      score of the reranked dishes lies in [0, 1]. */
  lemma RerankedScoresBounded(query: string, recs: seq<Dish>, llm: (string, seq<Dish>) -> Reply,
                              decode: string -> Option<seq<Entry>>)
    requires Completes(query, recs, llm, decode)
    requires forall i :: 0 <= i < |recs| ==> 0.0 <= recs[i].similarity <= 1.0
    requires var entries := decode(BracketSpan(llm(query, recs).text).value).value;
      forall i :: 0 <= i < |entries| && entries[i].Scored? && entries[i].score.Num? ==>
        0.0 <= entries[i].score.value <= 100.0
    ensures var r := Reranked(query, recs, llm, decode);
      forall i :: 0 <= i < |r| ==> r[i].combined.Some? && 0.0 <= r[i].combined.value <= 1.0
  {
    var entries := decode(BracketSpan(llm(query, recs).text).value).value;
    var m := CompletedScores(query, recs, llm, decode);
    ScoreMapBounded(entries);
    assert Reranked(query, recs, llm, decode) == TagAll(DedupByName(SortDesc(Scoring(recs, m).0, CombinedKey)));
    PipelineFromInput(recs, m);
    FromInputBounded(TagAll(DedupByName(SortDesc(Scoring(recs, m).0, CombinedKey))), recs, m);
  }

  /** Numeric entries in [0, 100] give a score map whose numeric scores lie there. */
  lemma ScoreMapBounded(entries: seq<Entry>)
    requires forall i :: 0 <= i < |entries| && entries[i].Scored? && entries[i].score.Num? ==>
      0.0 <= entries[i].score.value <= 100.0
    ensures forall k :: k in ScoreMap(entries) && ScoreMap(entries)[k].Num? ==>
      0.0 <= ScoreMap(entries)[k].value <= 100.0
  {
    ScoreMapSpec(entries);
    forall k | k in ScoreMap(entries) && ScoreMap(entries)[k].Num?
      ensures 0.0 <= ScoreMap(entries)[k].value <= 100.0
    {
      var i :| 0 <= i < |entries| && entries[i] == Scored(k, ScoreMap(entries)[k])
        && (forall j :: i < j < |entries| ==> !(entries[j].Scored? && entries[j].id == k));
    }
  }

  /** Dishes drawn from bounded inputs and bounded scores have bounded combined scores. */
  lemma FromInputBounded(r: seq<Dish>, recs: seq<Dish>, m: map<string, Score>)
    requires FromInput(r, recs, m)
    requires forall i :: 0 <= i < |recs| ==> 0.0 <= recs[i].similarity <= 1.0
    requires forall k :: k in m && m[k].Num? ==> 0.0 <= m[k].value <= 100.0
    ensures forall i :: 0 <= i < |r| ==> r[i].combined.Some? && 0.0 <= r[i].combined.value <= 1.0
  {
    forall i | 0 <= i < |r|
      ensures r[i].combined.Some? && 0.0 <= r[i].combined.value <= 1.0
    {
      var j :| 0 <= j < |recs| && !Blocked(recs[j], m) && r[i] == Tagged(Rescored(recs[j], m));
      RescoredBounded(recs[j], m);
    }
  }
}
