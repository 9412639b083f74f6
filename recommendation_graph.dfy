/** The recommendation pipeline: refine the query, embed it, search similar dishes,
    rerank them, and reorder them by healthiness when the query asks for healthy
    food. Each node takes the pipeline state and returns the updated state. */
module RecommendationGraph {
  import opened Util
  import opened Sorting
  import QueryRefiner
  import opened VectorSearch
  import opened Reranker

  datatype State = State(
    originalQuery: string,
    refinedQuery: Option<string>,
    confidence: real,
    embedding: Option<seq<real>>,
    recommendations: seq<Dish>,
    topK: int,
    error: Option<string>)

  /** A node either returns a state or lets an exception escape. */
  datatype NodeResult = Done(state: State) | Crashed(message: string)

  /** The services the nodes call: the language models, the embedding model, the
      database and the JSON decoders. */
  datatype Services = Services(
    refineLlm: (nat, QueryRefiner.Prompt) -> Reply,
    threshold: real,
    embed: string -> Option<seq<real>>,
    fetch: (seq<real>, int) -> seq<Row>,
    parseJson: string -> Json,
    rerankLlm: (string, seq<Dish>) -> Reply,
    rerankDecode: string -> Option<seq<Entry>>,
    healthLlm: seq<Dish> -> Reply,
    healthDecode: string -> Option<seq<Entry>>)

  const NoEmbeddingError: string := "No valid embedding available for search"

  /** `state.get("refined_query") or state["original_query"]`. */
  function QueryOf(s: State): (q: string)
    ensures q == s.originalQuery || (s.refinedQuery.Some? && q == s.refinedQuery.value && q != "")
  {
    if s.refinedQuery.Some? && s.refinedQuery.value != "" then s.refinedQuery.value else s.originalQuery
  }

  // ------------------------------------------------------------ the nodes

  /** `refine_query_node`. The refiner catches every exception itself, so the
      node's own handler is never reached. */
  function RefineNode(s: State, sv: Services): State {
    var (q, c) := QueryRefiner.Refined(s.originalQuery, sv.refineLlm, sv.threshold,
                                       QueryRefiner.DefaultMaxIterations);
    s.(refinedQuery := Some(q), confidence := c)
  }

  /** `generate_embedding_node`; the embedder yields None when it has no model or
      its call fails. */
  function EmbedNode(s: State, sv: Services): State {
    s.(embedding := sv.embed(QueryOf(s)))
  }

  /** `search_dishes_node`. */
  function SearchNode(s: State, sv: Services): State {
    if s.embedding.None? || s.embedding.value == [] then
      s.(recommendations := [], error := Some(NoEmbeddingError))
    else
      s.(recommendations := Searched(s.embedding.value, s.topK, sv.fetch, sv.parseJson))
  }

  /** `rerank_results_node`: rerank, then keep `[:top_k]`. */
  function RerankNode(s: State, sv: Services): State {
    if s.recommendations == [] then s
    else s.(recommendations := PyPrefix(Reranked(QueryOf(s), s.recommendations, sv.rerankLlm, sv.rerankDecode), s.topK))
  }

  const HealthTerms: seq<string> :=
    ["health", "healthy", "nutritious", "diet", "calorie", "fresh", "light", "wont be too much"]

  predicate IsHealthQuery(q: string) {
    exists i :: 0 <= i < |HealthTerms| && Contains(q, HealthTerms[i])
  }

  /** The health score a dish gets: the model's, or the neutral 50. */
  function WithHealth(recs: seq<Dish>, m: map<string, Score>): seq<Dish> {
    seq(|recs|, i requires 0 <= i < |recs| =>
      recs[i].(healthScore := Some(if recs[i].id in m then m[recs[i].id] else Num(50.0))))
  }

  predicate AllNumeric(recs: seq<Dish>) {
    forall i :: 0 <= i < |recs| ==> !(recs[i].healthScore.Some? && recs[i].healthScore.value.NonNumeric?)
  }

  /** The sort key: 30% similarity and 70% health, over 100; a missing health
      score counts as 50. */
  function HealthKey(d: Dish): real {
    var h := if d.healthScore.Some? && d.healthScore.value.Num? then d.healthScore.value.value else 50.0;
    (d.similarity * 0.3 + h * 0.7) / 100.0
  }

  /** `analyze_health_attributes_node`. Lower-casing a missing refined query raises
      outside the node's handlers. A non-numeric health score makes the sort raise
      after the scores were written into the dishes. */
  function Health(s: State, sv: Services): NodeResult {
    if s.recommendations == [] then Done(s)
    else if s.refinedQuery.None? then Crashed("'NoneType' object has no attribute 'lower'")
    else if !IsHealthQuery(Lower(s.originalQuery) + " " + Lower(s.refinedQuery.value)) then Done(s)
    else match sv.healthLlm(s.recommendations)
      case Failure => Done(s)
      case Text(t) =>
        match BracketSpan(t)
        case None => Done(s)
        case Some(span) =>
          match sv.healthDecode(span)
          case None => Done(s)
          case Some(entries) =>
            if HasBroken(entries) then Done(s)
            else
              var scored := WithHealth(s.recommendations, ScoreMap(entries));
              if AllNumeric(scored) then Done(s.(recommendations := SortDesc(scored, HealthKey)))
              else Done(s.(recommendations := scored))
  }

  method AnalyzeHealth(s: State, sv: Services) returns (r: NodeResult)
    ensures r == Health(s, sv)
  {
    if s.recommendations == [] {
      return Done(s);
    }
    if s.refinedQuery.None? {
      return Crashed("'NoneType' object has no attribute 'lower'");
    }
    var query := Lower(s.originalQuery) + " " + Lower(s.refinedQuery.value);
    if !IsHealthQuery(query) {
      return Done(s);
    }
    var reply := sv.healthLlm(s.recommendations);
    if reply.Failure? {
      return Done(s);
    }
    var span := BracketSpan(reply.text);
    if span.None? {
      return Done(s);
    }
    var entries := sv.healthDecode(span.value);
    if entries.None? || HasBroken(entries.value) {
      return Done(s);
    }
    var m := ScoreMap(entries.value);
    var recs := s.recommendations;
    for i := 0 to |recs|
      invariant |recs| == |s.recommendations|
      invariant forall j :: 0 <= j < i ==> recs[j] == WithHealth(s.recommendations, m)[j]
      invariant forall j :: i <= j < |recs| ==> recs[j] == s.recommendations[j]
    {
      var h := if recs[i].id in m then m[recs[i].id] else Num(50.0);
      recs := recs[i := recs[i].(healthScore := Some(h))];
    }
    assert recs == WithHealth(s.recommendations, m);
    if AllNumeric(recs) {
      return Done(s.(recommendations := SortDesc(recs, HealthKey)));
    }
    return Done(s.(recommendations := recs));
  }

  // ------------------------------------------------------------ the whole request

  function InitialState(query: string, topK: int): State {
    State(query, None, 0.0, None, [], topK, None)
  }

  /** The graph refine -> embed -> search -> rerank -> health. */
  function RunGraph(query: string, topK: int, sv: Services): NodeResult {
    var s1 := RefineNode(InitialState(query, topK), sv);
    var s2 := EmbedNode(s1, sv);
    var s3 := SearchNode(s2, sv);
    var s4 := RerankNode(s3, sv);
    Health(s4, sv)
  }

  datatype Response = Response(
    originalQuery: string, refinedQuery: Option<string>, confidence: real,
    recommendations: seq<Dish>, error: Option<string>)

  /** What `process_recommendation` returns. */
  function Processed(query: string, topK: int, sv: Services): Response {
    match RunGraph(query, topK, sv)
    case Done(s) => Response(s.originalQuery, s.refinedQuery, s.confidence, s.recommendations, s.error)
    case Crashed(e) => Response(query, None, 0.0, [], Some("Recommendation processing failed: " + e))
  }

  method ProcessRecommendation(query: string, topK: int, sv: Services) returns (response: Response)
    ensures response == Processed(query, topK, sv)
  {
    var s := InitialState(query, topK);
    var q, c := QueryRefiner.RefineQuery(query, sv.refineLlm, sv.threshold, QueryRefiner.DefaultMaxIterations);
    s := s.(refinedQuery := Some(q), confidence := c);
    s := s.(embedding := sv.embed(QueryOf(s)));
    if s.embedding.None? || s.embedding.value == [] {
      s := s.(recommendations := [], error := Some(NoEmbeddingError));
    } else {
      var found := SearchSimilarDishes(s.embedding.value, s.topK, sv.fetch, sv.parseJson);
      s := s.(recommendations := found);
    }
    if s.recommendations != [] {
      var reranked := RerankRecommendations(QueryOf(s), s.recommendations, sv.rerankLlm, sv.rerankDecode);
      s := s.(recommendations := PyPrefix(reranked, s.topK));
    }
    var r := AnalyzeHealth(s, sv);
    match r
    case Done(final) =>
      response := Response(final.originalQuery, final.refinedQuery, final.confidence,
                           final.recommendations, final.error);
    case Crashed(e) =>
      response := Response(query, None, 0.0, [], Some("Recommendation processing failed: " + e));
  }

  // ------------------------------------------------------------ properties

  function IdsOf(s: seq<Dish>): (r: set<string>)
    ensures forall x :: x in r <==> exists i :: 0 <= i < |s| && s[i].id == x
  {
    if s == [] then {}
    else
      var init := s[..|s| - 1];
      assert forall i :: 0 <= i < |init| ==> init[i] == s[i];
      IdsOf(init) + {s[|s| - 1].id}
  }

  /** Lists with the same id at every position have the same ids. */
  lemma IdsPointwise(a: seq<Dish>, b: seq<Dish>)
    requires |a| == |b| && forall i :: 0 <= i < |a| ==> a[i].id == b[i].id
    ensures IdsOf(a) == IdsOf(b)
  {
    forall x | x in IdsOf(a) ensures x in IdsOf(b) {
      var i :| 0 <= i < |a| && a[i].id == x;
      assert b[i].id == x;
    }
  }

  /** Rescored and tagged dishes keep the ids of the dishes they come from. */
  lemma FromInputIds(r: seq<Dish>, recs: seq<Dish>, m: map<string, Score>)
    requires FromInput(r, recs, m)
    ensures IdsOf(r) <= IdsOf(recs)
  {
    forall x | x in IdsOf(r) ensures x in IdsOf(recs) {
      var i :| 0 <= i < |r| && r[i].id == x;
      var j :| 0 <= j < |recs| && !Blocked(recs[j], m) && r[i] == Tagged(Rescored(recs[j], m));
      KeepsId(recs[j], m);
    }
  }

  lemma KeepsId(d: Dish, m: map<string, Score>)
    requires !Blocked(d, m)
    ensures Tagged(Rescored(d, m)).id == d.id
  {
  }

  /** Reranking on its happy path returns only dishes of its input. */
  lemma CompletedIds(query: string, recs: seq<Dish>, sv: Services)
    requires Completes(query, recs, sv.rerankLlm, sv.rerankDecode)
    ensures IdsOf(Reranked(query, recs, sv.rerankLlm, sv.rerankDecode)) <= IdsOf(recs)
  {
    RerankedShape(query, recs, sv.rerankLlm, sv.rerankDecode);
    FromInputIds(Reranked(query, recs, sv.rerankLlm, sv.rerankDecode), recs,
                 CompletedScores(query, recs, sv.rerankLlm, sv.rerankDecode));
  }

  /** Reranking, on every path, returns only dishes of its input. */
  lemma RerankedIds(query: string, recs: seq<Dish>, sv: Services)
    ensures IdsOf(Reranked(query, recs, sv.rerankLlm, sv.rerankDecode)) <= IdsOf(recs)
  {
    if recs != [] && sv.rerankLlm(query, recs).Text? {
      var span := BracketSpan(sv.rerankLlm(query, recs).text);
      if span.None? || sv.rerankDecode(span.value).None? {
        IdsPointwise(Defaulted(recs), recs);
      } else if !HasBroken(sv.rerankDecode(span.value).value) {
        var m := ScoreMap(sv.rerankDecode(span.value).value);
        if Scoring(recs, m).1 {
          ScoringShape(recs, m);
          IdsPointwise(Scoring(recs, m).0, recs);
        } else {
          CompletedIds(query, recs, sv);
        }
      }
    }
  }

  /** The health node never adds or drops a dish: it rearranges them at most. */
  lemma HealthKeepsDishes(s: State, sv: Services)
    requires Health(s, sv).Done?
    ensures IdsOf(Health(s, sv).state.recommendations) == IdsOf(s.recommendations)
    ensures |Health(s, sv).state.recommendations| == |s.recommendations|
    ensures Health(s, sv).state.(recommendations := s.recommendations) == s
  {
    var r := Health(s, sv).state;
    if r.recommendations != s.recommendations {
      var t := sv.healthLlm(s.recommendations).text;
      var entries := sv.healthDecode(BracketSpan(t).value).value;
      var scored := WithHealth(s.recommendations, ScoreMap(entries));
      IdsPointwise(scored, s.recommendations);
      if AllNumeric(scored) {
        SortedIds(scored);
      }
    }
  }

  /** Sorting by the health key keeps the ids and the length. */
  lemma SortedIds(scored: seq<Dish>)
    ensures IdsOf(SortDesc(scored, HealthKey)) == IdsOf(scored)
    ensures |SortDesc(scored, HealthKey)| == |scored|
  {
    SortDescPermutation(scored, HealthKey);
    PermutedIds(SortDesc(scored, HealthKey), scored);
  }

  /** Rearranged lists have the same ids. */
  lemma PermutedIds(a: seq<Dish>, b: seq<Dish>)
    requires multiset(a) == multiset(b)
    ensures IdsOf(a) == IdsOf(b) && |a| == |b|
  {
    assert |a| == |multiset(a)| == |multiset(b)| == |b|;
    forall x | x in IdsOf(a) ensures x in IdsOf(b) {
      var i :| 0 <= i < |a| && a[i].id == x;
      assert a[i] in multiset(b);
    }
    forall x | x in IdsOf(b) ensures x in IdsOf(a) {
      var i :| 0 <= i < |b| && b[i].id == x;
      assert b[i] in multiset(a);
    }
  }

  /** For a health query whose scores all came back as numbers, the dishes are
      reordered by the 30/70 similarity-health key: descending, a rearrangement of
      the scored dishes, with equal keys in their earlier order. */
  lemma HealthReorders(s: State, sv: Services, t: string, entries: seq<Entry>)
    requires s.recommendations != [] && s.refinedQuery.Some?
    requires IsHealthQuery(Lower(s.originalQuery) + " " + Lower(s.refinedQuery.value))
    requires sv.healthLlm(s.recommendations) == Text(t)
    requires BracketSpan(t).Some? && sv.healthDecode(BracketSpan(t).value) == Some(entries)
    requires !HasBroken(entries) && AllNumeric(WithHealth(s.recommendations, ScoreMap(entries)))
    ensures var scored := WithHealth(s.recommendations, ScoreMap(entries));
      var out := Health(s, sv).state.recommendations;
      SortedDesc(out, HealthKey) && multiset(out) == multiset(scored)
      && forall k :: WithKey(out, HealthKey, k) == WithKey(scored, HealthKey, k)
  {
    var scored := WithHealth(s.recommendations, ScoreMap(entries));
    SortDescSorted(scored, HealthKey);
    SortDescPermutation(scored, HealthKey);
    forall k ensures WithKey(SortDesc(scored, HealthKey), HealthKey, k) == WithKey(scored, HealthKey, k) {
      SortDescStable(scored, HealthKey, k);
    }
  }

  /** The refine node always sets a refined query, so the health node never reaches
      the lower-casing of a missing one, and the request never fails. */
  lemma RequestNeverFails(query: string, topK: int, sv: Services)
    ensures RunGraph(query, topK, sv).Done?
  {
  }

  /** The response echoes the query, reports a refined query that is empty only
      for an empty query, and a confidence that is not negative. */
  lemma ResponseQueries(query: string, topK: int, sv: Services)
    ensures var r := Processed(query, topK, sv);
      r.originalQuery == query && r.refinedQuery.Some? && r.confidence >= 0.0
      && (query != "" ==> r.refinedQuery.value != "")
  {
    QueryRefiner.RefinedWellFormed(query, sv.refineLlm, sv.threshold, QueryRefiner.DefaultMaxIterations);
    var s4 := RerankNode(SearchNode(EmbedNode(RefineNode(InitialState(query, topK), sv), sv), sv), sv);
    if Health(s4, sv).Done? {
      HealthKeepsDishes(s4, sv);
    }
  }

  /** At most `top_k` dishes are recommended, and every one of them is a dish the
      search returned. */
  lemma ResponseDishes(query: string, topK: int, sv: Services)
    ensures var r := Processed(query, topK, sv);
      var s3 := SearchNode(EmbedNode(RefineNode(InitialState(query, topK), sv), sv), sv);
      (topK >= 0 ==> |r.recommendations| <= topK) && IdsOf(r.recommendations) <= IdsOf(s3.recommendations)
  {
    var s3 := SearchNode(EmbedNode(RefineNode(InitialState(query, topK), sv), sv), sv);
    var s4 := RerankNode(s3, sv);
    RequestNeverFails(query, topK, sv);
    assert Processed(query, topK, sv).recommendations == Health(s4, sv).state.recommendations;
    HealthKeepsDishes(s4, sv);
    RerankKeeps(s3, sv);
  }

  /** The rerank node keeps at most `top_k` dishes, all of them from its input. */
  lemma RerankKeeps(s: State, sv: Services)
    ensures var r := RerankNode(s, sv);
      (s.topK >= 0 ==> |r.recommendations| <= s.topK) && IdsOf(r.recommendations) <= IdsOf(s.recommendations)
  {
    if s.recommendations != [] {
      var reranked := Reranked(QueryOf(s), s.recommendations, sv.rerankLlm, sv.rerankDecode);
      RerankedIds(QueryOf(s), s.recommendations, sv);
      var p := PyPrefix(reranked, s.topK);
      forall x | x in IdsOf(p) ensures x in IdsOf(reranked) {
        var i :| 0 <= i < |p| && p[i].id == x;
        assert reranked[i].id == x;
      }
    }
  }

  /** Without an embedding the search is skipped: no dishes, and the error says so. */
  lemma NoEmbeddingNoDishes(query: string, topK: int, sv: Services)
    requires var s1 := RefineNode(InitialState(query, topK), sv);
      sv.embed(QueryOf(s1)).None? || sv.embed(QueryOf(s1)) == Some([])
    ensures Processed(query, topK, sv).recommendations == []
    ensures Processed(query, topK, sv).error == Some(NoEmbeddingError)
  {
  }
}
