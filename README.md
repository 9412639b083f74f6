# CraveConnect core, modelled in Dafny

CraveConnect is a food-ordering platform whose backend recommends dishes for a
free-text craving and extracts structured menus from photographed menus. This
project models the parts of it that hold real logic, one Dafny module per source
file:

- **The recommendation path** (`backend/recommendation_service/app`):
  - the query refinement loop (`QueryRefiner`);
  - conversion of similarity-search rows into dishes (`VectorSearch`);
  - LLM-score fusion, stable sort, name de-duplication and cuisine tagging (`Reranker`);
  - the pipeline nodes and their fallbacks, with the healthy-food reordering (`RecommendationGraph`).
- **Rule-based personalisation** of the main backend (`Personalization`):
  - profile building, boosts and the suitability filter;
  - top-k and threshold selection.
- **Menu extraction** in the embedding service:
  - the extractor and its fallback decision (`MenuExtractor`);
  - the four post-processing steps over one item list (`PostProcessor`);
  - section, price-format and layout analysis (`MenuAnalyzer`);
  - mapping and validation (`EmbeddingSchemas`);
  - JSON slicing and the vision/OCR merge (`EmbeddingLlm`);
  - the embedding text (`EmbeddingService`).
- **The OCR service and the shared OCR package**:
  - fence-stripping JSON extraction and the rate-limit retry loop (`OcrServiceLlm`, `PkgOcrLlm`);
  - mapping and validation (`OcrServiceSchemas`, `PkgOcrSchema`);
  - the valid/invalid/warning partition (`PkgOcrVerification`).
- **Embeddings in the main backend**:
  - the embedding texts;
  - the 768-dimension check (`AppEmbedding`);
  - create-or-update and the tally loops over a restaurant or a batch (`AppEmbeddings`).
- **The web front end**:
  - the cart reducer and its totals invariant (`CartContext`);
  - the display formatters (`Formatters`).
- **The field validators**:
  - Python: `Payment`, `CartItems`, `CartItemAddons`, `Addons`, sharing the result type of `Validation`;
  - Go: `ModelFiles`, `ModelFile`, `ModelUser`, `ModelMenu`, `ModelRestaurant`, over `ModelPerson`.

Shared modules:

- `Util`: strings, options and collection helpers;
- `Json`: decoded JSON values and Python's truthiness, `get`, `float` and `str`;
- `Sorting`: Python's stable `sorted(..., reverse=True)`, proved sorted, stable and a permutation.

Everything outside the process is a parameter of the operation that uses it:

- the language models: a reply per call, or a failure where the call raises;
- the embedding models;
- the database queries and repositories;
- `json.loads`;
- the regular expressions: predicates and search functions;
- the text Python or JavaScript gives a number, list or dict.

Where the source loops or updates state, the model does too:

- a method with a loop is proved equal to a specification function;
- classes hold the tables that are written.

Where the source computes values, the model is functions and lemmas.
Numbers are mathematical reals and integers.

## Model

| member | source | states |
|---|---|---|
| QueryRefiner.LastTagged | backend/recommendation_service/app/query_refiner.py:99-107 | the line that decides a value is the last one that starts with the tag; no later line starts with it, and no value is found when no line does |
| QueryRefiner.TagsExclusive | backend/recommendation_service/app/query_refiner.py:100-102 | a line starting with `REFINED_QUERY:` is never read as a confidence line (the `elif`) |
| QueryRefiner.ParseReply | backend/recommendation_service/app/query_refiner.py:96-107 | the line scan yields the stripped text after the tag of the last `REFINED_QUERY:` line (or "") and the float of the last `CONFIDENCE:` line (0.0 when missing or not a number) |
| QueryRefiner.Step | backend/recommendation_service/app/query_refiner.py:109-117 | after a reply the query is the previous one or the parsed refinement, never empty unless the previous one was; the confidence is the previous one or a positive parsed value |
| QueryRefiner.RefineQuery | backend/recommendation_service/app/query_refiner.py:62-129 | the loop returns exactly the query and confidence of the recursive definition, including `(query, 1.0)` when a call raises |
| QueryRefiner.LoopStops | backend/recommendation_service/app/query_refiner.py:72-122 | at most `max_iterations` calls; a run that stops early has reached the threshold; with no call made the values are unchanged |
| QueryRefiner.RefinementBudget | backend/recommendation_service/app/query_refiner.py:72-122 | a finished refinement made at most `max(max_iterations, 0)` calls and either reached the threshold or spent the whole budget |
| QueryRefiner.NoBudget | backend/recommendation_service/app/query_refiner.py:67-72 | with `max_iterations <= 0` the result is `(query, 0.0)` |
| QueryRefiner.LoopKeeps | backend/recommendation_service/app/query_refiner.py:109-117 | for any reader that only replaces a confidence by a positive value and a query by a non-empty one, the loop's confidence stays non-negative and a non-empty query stays non-empty |
| QueryRefiner.RefinedWellFormed | backend/recommendation_service/app/query_refiner.py:67-129 | the returned confidence is never negative (values above 1 are not clamped), and a non-empty query never refines into an empty one |
| QueryRefiner.FirstCallFails | backend/recommendation_service/app/query_refiner.py:126-129 | a first call that raises gives the original query with confidence 1.0 |
| QueryRefiner.ConfidentFirstReply | backend/recommendation_service/app/query_refiner.py:76-122 | a first reply (cold prompt on the raw query) with a refinement and a confidence at the threshold ends the loop with exactly those values |
| QueryRefiner.UntaggedReply | backend/recommendation_service/app/query_refiner.py:96-107 | a reply without tagged lines parses to "" and 0.0 |
| VectorSearch.CategoryOf | backend/recommendation_service/app/vector_search.py:65-77 | the category is the meta object's "category" (or ""), the decoded text's when it is an object, "" for NULL, other values or undecodable text, and the row fails exactly when the text decodes to a non-object |
| VectorSearch.ConvertRow | backend/recommendation_service/app/vector_search.py:77-92 | a row converts exactly when its price is not NULL and its category can be read; the dish then carries the row's id, name, price, similarity, category and its description or "" |
| VectorSearch.SearchSimilarDishes | backend/recommendation_service/app/vector_search.py:8-94 | an empty embedding gives no dishes without querying; otherwise the dishes are the converted rows, in database order, skipping the rows that fail |
| VectorSearch.ConvertAllFaithful | backend/recommendation_service/app/vector_search.py:58-94 | every dish comes from a row, every convertible row gives its dish, and there are no more dishes than rows |
| VectorSearch.ConvertAllTotal | backend/recommendation_service/app/vector_search.py:58-94 | when every row converts, the dishes are the rows one for one, in the same order |
| Reranker.ScoreMapSpec | backend/recommendation_service/app/reranker.py:93 | an id has a score exactly when some entry with both keys names it, and its score is that of the last such entry (later entries overwrite earlier ones) |
| Reranker.CuisinePriority | backend/recommendation_service/app/reranker.py:119-128 | the cuisine is "Italian" exactly when the name holds Margherita, Pizza or Pepperoni; otherwise "American" exactly when it holds Sandwich; otherwise "Indian" exactly when it holds Paneer; otherwise "Unknown" |
| Reranker.DefaultScores | backend/recommendation_service/app/reranker.py:82-90 | the fallback loop gives every dish its similarity as combined score and changes nothing else |
| Reranker.ApplyScores | backend/recommendation_service/app/reranker.py:96-106 | the scoring loop computes the recursive definition, including the stop at the first dish whose model score is not a number |
| Reranker.ScoringShape | backend/recommendation_service/app/reranker.py:96-106 | scoring keeps the length and the id of every dish, and when it does not stop every dish is the rescored input dish |
| Reranker.KeepFirstByName | backend/recommendation_service/app/reranker.py:109-116 | the loop with its set of seen names keeps the first dish of each name, in order |
| Reranker.DedupKeeps | backend/recommendation_service/app/reranker.py:109-116 | de-duplication keeps only input dishes, every input name exactly once, and never grows the list |
| Reranker.DedupSorted | backend/recommendation_service/app/reranker.py:109-116 | de-duplicating a list sorted by descending key leaves it sorted |
| Reranker.SortDedupShape | backend/recommendation_service/app/reranker.py:108-116 | sorting by combined score and de-duplicating gives a descending list of input dishes, one per input name |
| Reranker.TagCuisines | backend/recommendation_service/app/reranker.py:119-128 | the tagging loop sets each dish's cuisine from its name and keeps the order |
| Reranker.TagAllKeeps | backend/recommendation_service/app/reranker.py:119-128 | tagging changes neither the length, the names nor the combined scores |
| Reranker.RerankRecommendations | backend/recommendation_service/app/reranker.py:48-134 | the method returns exactly the function's result on every path: empty input, model failure, no array, undecodable array, broken entry, non-numeric score, and the happy path |
| Reranker.RerankedFallback | backend/recommendation_service/app/reranker.py:72-90 | when the reply has no bracketed array or it does not decode, every dish stays in place with its similarity as combined score |
| Reranker.PipelineShape | backend/recommendation_service/app/reranker.py:96-130 | after complete scoring the result is sorted descending, holds one dish per input name, and each is a rescored, tagged input dish |
| Reranker.RerankedShape | backend/recommendation_service/app/reranker.py:48-130 | on the happy path the result is sorted by combined score, names every input name exactly once, is no longer than the input, and each dish is an input dish blended 30/70 with its model score and tagged |
| Reranker.RescoredBounded | backend/recommendation_service/app/reranker.py:97-106 | a similarity in [0, 1] and a model score in [0, 100] blend to a combined score in [0, 1] |
| Reranker.RerankedScoresBounded | backend/recommendation_service/app/reranker.py:93-130 | with similarities in [0, 1] and model scores in [0, 100], every combined score of the happy-path result lies in [0, 1] |
| RecommendationGraph.QueryOf | backend/recommendation_service/app/recommendation_graph.py:100 | the query used downstream is the original one, or the refined one when that is present and non-empty |
| RecommendationGraph.AnalyzeHealth | backend/recommendation_service/app/recommendation_graph.py:129-229 | the health node's loop and branches compute the node function: skipped for no dishes or a non-health query, crash on a missing refined query, unchanged state on any model or decoding failure, default score 50, re-sort only when every score is a number |
| RecommendationGraph.HealthKeepsDishes | backend/recommendation_service/app/recommendation_graph.py:205-221 | the health node keeps the set of ids and the number of dishes, and changes nothing in the state but the dishes |
| RecommendationGraph.HealthReorders | backend/recommendation_service/app/recommendation_graph.py:213-219 | for a health query with numeric scores the dishes are sorted descending by 30% similarity plus 70% health over 100, are a rearrangement of the scored dishes, and equal keys keep their order |
| RecommendationGraph.ProcessRecommendation | backend/recommendation_service/app/recommendation_graph.py:231-297 | running refine, embed, search, rerank and health in turn returns the response of the graph function, with the failure response when a node crashes |
| RecommendationGraph.RequestNeverFails | backend/recommendation_service/app/recommendation_graph.py:135 | the refine node always sets a refined query, so the lower-casing in the health node never raises and the request never takes the failure branch |
| RecommendationGraph.ResponseQueries | backend/recommendation_service/app/recommendation_graph.py:258-286 | the response echoes the query, carries a refined query that is non-empty for a non-empty query, and a non-negative confidence |
| RecommendationGraph.ResponseDishes | backend/recommendation_service/app/recommendation_graph.py:93-229 | at most `top_k` dishes are returned, every one of them a dish the vector search found |
| RecommendationGraph.RerankKeeps | backend/recommendation_service/app/recommendation_graph.py:93-127 | the rerank node keeps at most `top_k` dishes, all from its input |
| RecommendationGraph.RerankedIds | backend/recommendation_service/app/reranker.py:48-134 | on every path of the reranker, the returned dishes have ids of input dishes |
| RecommendationGraph.NoEmbeddingNoDishes | backend/recommendation_service/app/recommendation_graph.py:66-74 | without an embedding (none or empty) no dishes are returned and the error names the missing embedding |
| Personalization.CollectLineNames | backend/app/utils/recommend.py:38-42 | the inner loop collects the lower-cased names of the named entries of one order |
| Personalization.CollectOrderedNames | backend/app/utils/recommend.py:35-42 | the order loop collects the lower-cased names over every order |
| Personalization.CollectMatchingIds | backend/app/utils/recommend.py:44-48 | the menu loop collects the ids of the named items whose lower-cased name was ordered |
| Personalization.GetUserProfile | backend/app/utils/recommend.py:18-54 | the profile holds the first stored preferences (or none), the favourite ids and the ordered ids, the last empty when nothing was ordered |
| Personalization.OrderedNamesExactly | backend/app/utils/recommend.py:35-42 | a name is collected exactly when some entry of some order has that lower-cased, non-empty name |
| Personalization.OrderedExactly | backend/app/utils/recommend.py:35-48 | an id is in the profile's ordered ids exactly when a named menu item with that id has a lower-cased name matching an entry of a past order |
| Personalization.ComputeBoost | backend/app/utils/recommend.py:63-87 | the accumulating loop yields the sum of the weights of the rules that apply (cuisine 0.2, restriction 0.1, spice 0.1, favourite 0.3, ordered 0.1), in [0, 0.8] |
| Personalization.Suitable | backend/app/utils/recommend.py:89-103 | without preferences every item is suitable; otherwise an item is suitable exactly when none of the user's allergies is among its allergens and none of the restrictions among its tags |
| Personalization.BoostBounds | backend/app/utils/recommend.py:63-87 | the boost lies in [0, 0.8], and is 0 for a user without preferences, favourites and orders notwithstanding |
| Personalization.SuitableBoostSkipsRestrictions | backend/app/utils/recommend.py:74-76 | for a suitable item the restriction rule never applies, so its boost is at most 0.7 |
| Personalization.ScoreCandidates | backend/app/utils/recommend.py:120-126 | the loop keeps the nearest items with details that are suitable, scored by similarity plus boost, in search order |
| Personalization.CandidatesExactly | backend/app/utils/recommend.py:114-126 | a candidate is exactly a nearest item with details that passes the filter, with similarity plus boost as its score; there are no more candidates than nearest items |
| Personalization.Confidences | backend/app/utils/recommend.py:130 | the confidence map has exactly the ids of the listed items |
| Personalization.KeepAtLeast | backend/app/utils/recommend.py:158 | every kept item scores at least the threshold, and kept items are drawn from the input |
| Personalization.FilterAtLeast | backend/app/utils/recommend.py:158 | the filtering comprehension keeps the items scoring at least the threshold, in order |
| Personalization.KeepAtLeastKeeps | backend/app/utils/recommend.py:158 | every input item scoring at least the threshold is kept |
| Personalization.ResolveTopK | backend/app/utils/recommend.py:105-133 | the ids and confidences are those of the best `k` candidates after the descending sort, with no threshold |
| Personalization.TopKShape | backend/app/utils/recommend.py:128-131 | at most `k` items, best first, drawn from the candidates, a prefix of the sorted candidates, and none left out scores above one kept |
| Personalization.ResolveThreshold | backend/app/utils/recommend.py:135-163 | the ids and confidences are those of the candidates at or above the threshold, sorted descending, and the threshold is reported |
| Personalization.ThresholdShape | backend/app/utils/recommend.py:150-161 | the result is sorted descending and holds exactly the candidates scoring at least the threshold |
| MenuExtractor.JsonItems | backend/embedding_service/app/menu_extractor.py:248-273 | items come only from the decoded first-`[`-to-last-`]` span; no span, or a span that does not decode, gives no items |
| MenuExtractor.CallLlm | backend/embedding_service/app/menu_extractor.py:120-143 | a request that raises gives no items |
| MenuExtractor.CleanPrice | backend/embedding_service/app/menu_extractor.py:183-190 | a falsy or non-string price is left alone; a non-empty string becomes a non-negative number, 0 when nothing of `[\d.]` is left or it does not parse |
| MenuExtractor.DigitsParse | backend/embedding_service/app/menu_extractor.py:186-188 | a string of digits and points parses, if at all, to a non-negative number |
| MenuExtractor.CleanOne | backend/embedding_service/app/menu_extractor.py:164-196 | the steps on one kept item, in order, give the cleaned item |
| MenuExtractor.ProcessItems | backend/embedding_service/app/menu_extractor.py:145-202 | the loop keeps the objects with a truthy name, each cleaned, in order |
| MenuExtractor.CleanItemFacts | backend/embedding_service/app/menu_extractor.py:164-196 | a cleaned item carries the restaurant id, a string description and a size; its name loses a trailing parenthetical, which becomes the description exactly when that was blank; a non-empty string price becomes a non-negative number; no other field changes |
| MenuExtractor.CleanedItemsSound | backend/embedding_service/app/menu_extractor.py:158-196 | every item that comes out is a kept input element, cleaned, and there are no more items than inputs |
| MenuExtractor.CleanedItemsComplete | backend/embedding_service/app/menu_extractor.py:158-196 | every kept input element comes out, cleaned |
| MenuExtractor.NothingKept | backend/embedding_service/app/menu_extractor.py:159-160 | a list without any object with a truthy name cleans to nothing |
| MenuExtractor.EstimateItemCount | backend/embedding_service/app/menu_extractor.py:313-334 | the estimate is the number of price lines, scaled by 0.7 when more than one size column was found, and never below 10 |
| MenuExtractor.EstimateWithColumns | backend/embedding_service/app/menu_extractor.py:329-334 | size columns only ever lower the estimate |
| MenuExtractor.Choose | backend/embedding_service/app/menu_extractor.py:77-99 | the first attempt stands unless it holds fewer than half the expected items; the emergency list replaces it only when it holds more; a raising emergency post-processing gives the raw emergency extraction |
| MenuExtractor.NoModelOrBlank | backend/embedding_service/app/menu_extractor.py:58-60 | without a model, or for blank text, nothing is extracted |
| MenuExtractor.FirstAttemptFacts | backend/embedding_service/app/menu_extractor.py:64-70 | the first attempt is the structured request, and the emergency request only when that gave nothing |
| MenuExtractor.TooFewExact | backend/embedding_service/app/menu_extractor.py:79 | below half the estimate means twice the count is below it; as the estimate is at least 10, four items or fewer always trigger the emergency request |
| MenuExtractor.RaisingFallsBack | backend/embedding_service/app/menu_extractor.py:101-103 | when post-processing the first attempt raises, the emergency extraction is returned as the model gave it |
| PostProcessor.OpenFrom | backend/embedding_service/app/post_processor.py:125 | the position found is the leftmost at or after the start where `\(([^)]+)\)$` matches, and none is found only when it matches nowhere |
| PostProcessor.SplitParenFacts | backend/embedding_service/app/post_processor.py:125-132 | a name splits exactly when the pattern matches; the text taken holds no `)`, and the name left is shorter |
| PostProcessor.Separated | backend/embedding_service/app/post_processor.py:120-132 | only the name and description change; a falsy name or one without a trailing parenthetical is left alone; otherwise the name loses it, and it becomes the description exactly when that was blank |
| PostProcessor.SeparateNameDescription | backend/embedding_service/app/post_processor.py:111-134 | the loop updates every record in place to its separated form |
| PostProcessor.GroupByBaseName | backend/embedding_service/app/post_processor.py:136-159 | the loop and the final comprehension compute the groups function over the items |
| PostProcessor.GroupsFacts | backend/embedding_service/app/post_processor.py:136-159 | the groups are exactly the base names of more than one named item, each listed once with the positions of all its items, in item order |
| PostProcessor.GroupsDisjoint | backend/embedding_service/app/post_processor.py:147-156 | no item belongs to two groups, and each group's positions increase |
| PostProcessor.Canonical | backend/embedding_service/app/post_processor.py:260-268 | a size word in any case comes out capitalised; any other word is kept; the lower-cased form never changes |
| PostProcessor.FirstByLowerFacts | backend/embedding_service/app/post_processor.py:266-270 | the unique sizes cover every word found and name each spelling once, ignoring case |
| PostProcessor.UniqueSizes | backend/embedding_service/app/post_processor.py:266-270 | the comprehension with its `seen` set keeps the first word of each lower-cased spelling, in canonical case |
| PostProcessor.ExtractSizeIndicators | backend/embedding_service/app/post_processor.py:230-276 | the three searches are tried in turn: at least two letter-inch pairs, else at least two inch numbers sorted, else at least two distinct size words, else none |
| PostProcessor.SortedInchesFacts | backend/embedding_service/app/post_processor.py:249-250 | the inch sizes are the numbers found, in ascending order |
| PostProcessor.WordSizesFacts | backend/embedding_service/app/post_processor.py:252-276 | word sizes are absent or at least two, cover every size word found, each spelling once ignoring case |
| PostProcessor.GenericNames | backend/embedding_service/app/post_processor.py:278-293 | there are names for every item: Regular/Large for two, Small/Medium/Large for three, otherwise the six names extended by "Size k" |
| PostProcessor.GenericSizes | backend/embedding_service/app/post_processor.py:287-296 | the extending loop gives the generic names |
| PostProcessor.LabelGroup | backend/embedding_service/app/post_processor.py:217-219 | the items at the group's positions, in price order, get the sizes in turn; nothing else changes |
| PostProcessor.AssignSizes | backend/embedding_service/app/post_processor.py:189-228 | the pass succeeds exactly when no group's sort raises (two members or more, with a `None` price or text prices mixed with numbers), and then the items are the sized items of the specification; a group priced only in text is sorted in string order and sized |
| PostProcessor.ByPriceFacts | backend/embedding_service/app/post_processor.py:215 | the group sort rearranges the positions, which stay distinct and in range, into ascending order of `price`: string order when every price is text, numeric order otherwise, a missing price counting as 0 |
| PostProcessor.NumericWhenNotText | backend/embedding_service/app/post_processor.py:215 | a group of two or more whose sort does not raise and whose prices are not all text has only numeric keys, so the numeric order is the order Python uses |
| PostProcessor.TextPricedPair | backend/embedding_service/app/post_processor.py:215-219 | two items priced in text, such as two `""` prices, are sized "Regular" and "Large" in string order of their prices; a text price beside a numeric one makes the sort raise |
| PostProcessor.SizeGroupFacts | backend/embedding_service/app/post_processor.py:213-226 | in one group the item of price rank k gets the k-th size name, and no item outside the group changes |
| PostProcessor.SizeGroupsFacts | backend/embedding_service/app/post_processor.py:189-228 | across all groups only sizes change, each grouped item gets the size of its price rank, and an item in no group is left as it was |
| PostProcessor.CategoryPricesSpec | backend/embedding_service/app/post_processor.py:48-57 | a category is listed exactly when one of its items has a counted price, with those prices in item order |
| PostProcessor.CategoryAverages | backend/embedding_service/app/post_processor.py:48-62 | the collecting loop and the averages give the per-category mean, or fail when a sum meets a string |
| PostProcessor.RoundHalfEven | backend/embedding_service/app/post_processor.py:95 | the rounded value is within one half, and a half rounds to the even neighbour |
| PostProcessor.MaxOf | backend/embedding_service/app/post_processor.py:83 | the maximum is one of the values and no value exceeds it |
| PostProcessor.ValidPrices | backend/embedding_service/app/post_processor.py:79-81 | the valid prices of a group are all positive |
| PostProcessor.FixPrice | backend/embedding_service/app/post_processor.py:65-107 | one turn of the fix loop succeeds exactly when the item's step does not raise, and then updates that one record |
| PostProcessor.ValidatePrices | backend/embedding_service/app/post_processor.py:43-109 | the pass succeeds exactly when no step raises, and the items are then the validated items |
| PostProcessor.ValidatedFacts | backend/embedding_service/app/post_processor.py:65-107 | every price ends up a number; a positive price is left alone; a suspicious one is inferred or flagged for review, with nothing else changed |
| PostProcessor.AverageOfOne | backend/embedding_service/app/post_processor.py:48-62 | the average of a lone counted number is that number |
| PostProcessor.LoneNegativePrice | backend/embedding_service/app/post_processor.py:50-100 | a lone named item with a negative price is "inferred" at its own rounded price, which is still not positive, and is not flagged for review |
| PostProcessor.ProcessItems | backend/embedding_service/app/post_processor.py:22-41 | the four steps in order succeed exactly when none raises (a size sort over a `None` or mixed text and number prices, or a price average over text), and the items are then the processed items |
| PostProcessor.ValidatedLabels | backend/embedding_service/app/post_processor.py:65-107 | price validation changes only prices and review flags, and leaves every price a number |
| PostProcessor.ProcessFacts | backend/embedding_service/app/post_processor.py:22-41 | one record per item; every price a number; names and descriptions as split; grouped items sized by price rank, other items keep their size |
| MenuAnalyzer.Classify | backend/embedding_service/app/menu_analyzer.py:97-103 | a line is read stripped: blank, a header, or content, and a non-blank line keeps non-empty text |
| MenuAnalyzer.NonBlankKeeps | backend/embedding_service/app/menu_analyzer.py:130 | every line that is not blank is kept in the default section, stripped |
| MenuAnalyzer.ScanSections | backend/embedding_service/app/menu_analyzer.py:96-121 | the line loop, with its current section, computes the recursive scan and closes the last section |
| MenuAnalyzer.IdentifySections | backend/embedding_service/app/menu_analyzer.py:77-134 | the sections are those scanned, or the one default section when none was found |
| MenuAnalyzer.ScanCount | backend/embedding_service/app/menu_analyzer.py:96-121 | the scan holds one section per header line read so far, and none is closed before one is opened |
| MenuAnalyzer.ScanSectionsOk | backend/embedding_service/app/menu_analyzer.py:96-121 | every section starts at its header line, is named by it, ends within the lines read, and holds only non-blank content lines |
| MenuAnalyzer.ScanOrdered | backend/embedding_service/app/menu_analyzer.py:96-121 | each section ends before the next begins, and all end before the line being read |
| MenuAnalyzer.SectionsShape | backend/embedding_service/app/menu_analyzer.py:77-134 | without a header the whole text is one "Menu Items" section over every non-blank stripped line; otherwise there is one well-formed section per header, in order |
| MenuAnalyzer.FormatsComplete | backend/embedding_service/app/menu_analyzer.py:140-152 | every notation is among those counted |
| MenuAnalyzer.FirstMax | backend/embedding_service/app/menu_analyzer.py:153 | the chosen notation is counted, and none has a higher count |
| MenuAnalyzer.FirstMaxIsFirst | backend/embedding_service/app/menu_analyzer.py:153 | every element before the chosen one has a strictly smaller count |
| MenuAnalyzer.DetectPriceFormat | backend/embedding_service/app/menu_analyzer.py:136-167 | the chosen notation has the highest count, and its pattern is the one listed for it |
| MenuAnalyzer.PriceFormatTies | backend/embedding_service/app/menu_analyzer.py:140-153 | ties go to the notation listed first |
| MenuAnalyzer.FirstSizeLine | backend/embedding_service/app/menu_analyzer.py:192-202 | the line found is the first with at least two size matches, and none is found when no line has two |
| MenuAnalyzer.AnalyzeLayout | backend/embedding_service/app/menu_analyzer.py:169-204 | the loop over the first 30 lines, stopping at the first with two size matches, computes the layout |
| MenuAnalyzer.LayoutFacts | backend/embedding_service/app/menu_analyzer.py:169-204 | descriptions are reported exactly when more than two lines hold a long parenthetical; size columns exactly when one of the first 30 lines has two size matches, and then the layout is "size_column_layout", otherwise "standard" with no columns |
| MenuAnalyzer.AnalyzeMenu | backend/embedding_service/app/menu_analyzer.py:51-75 | the structure is the three analyses of the text |
| EmbeddingSchemas.AsDict | backend/embedding_service/app/schemas.py:121-130 | the record sent on has exactly the eight keys, strings everywhere but the number `price` and the boolean `is_active` |
| EmbeddingSchemas.MapToMenuItems | backend/embedding_service/app/schemas.py:106-136 | the loop appends the mapped record of every item that maps, in order, and skips the rest |
| EmbeddingSchemas.MapOneFacts | backend/embedding_service/app/schemas.py:112-134 | an item maps exactly when its name and price are truthy and the price converts; the record then carries the restaurant, the trimmed name, the converted price, no image, `is_active`, and `{}` as meta unless there is a category |
| EmbeddingSchemas.ZeroPriceSkipped | backend/embedding_service/app/schemas.py:113-114 | a missing price or a price of 0 means the item is skipped |
| EmbeddingSchemas.MappedShape | backend/embedding_service/app/schemas.py:106-136 | the list is no longer than the input, each record comes from an item with a truthy name and price and is active without an image, and every item that maps is in it |
| EmbeddingSchemas.MetaAsJson | backend/embedding_service/app/schemas.py:50-56 | a dict `meta` becomes text and any other input is left as it is |
| EmbeddingSchemas.ValidateMenuItems | backend/embedding_service/app/schemas.py:139-150 | an empty list is rejected with "No valid menu items found"; otherwise the result is true exactly when every item validates, and the message names the first item that does not |
| EmbeddingSchemas.RecordValid | backend/embedding_service/app/schemas.py:37-56 | a mapped record passes the `MenuItem` model exactly when its price is above 0, so a negative price that `float` accepts still fails |
| EmbeddingSchemas.MappedListValid | backend/embedding_service/app/schemas.py:106-150 | a mapped list validates exactly when it is non-empty and every price in it is above 0 |
| EmbeddingSchemas.CheckExtracted | backend/embedding_service/app/schemas.py:11-34 | an `ExtractedMenuItem` is accepted exactly when its trimmed name is non-empty and its price above 0, with the name trimmed; a rejection names exactly the failing fields |
| EmbeddingLlm.SliceJson | backend/embedding_service/app/llm.py:107-113 | there is no slice exactly when `[` or `]` is missing |
| EmbeddingLlm.ParseMenuText | backend/embedding_service/app/llm.py:47-131 | no model or a raising call gives no items |
| EmbeddingLlm.SliceIsSpan | backend/embedding_service/app/llm.py:107-113 | the slice is the bracketed span whenever there is one; a `]` before the first `[` gives the empty text |
| EmbeddingLlm.ParsedFromSlice | backend/embedding_service/app/llm.py:103-122 | items come back only from a model reply whose slice decodes |
| EmbeddingLlm.MergeMenuItems | backend/embedding_service/app/llm.py:246-276 | the loop with its growing name set computes the merge function, raising on the first truthy name that is not text once both lists are non-empty |
| EmbeddingLlm.OcrAddedFrom | backend/embedding_service/app/llm.py:267-274 | every added item is a named OCR item |
| EmbeddingLlm.OcrAddedDistinct | backend/embedding_service/app/llm.py:264-274 | added names are new to the vision list and pairwise distinct |
| EmbeddingLlm.SeenHasAll | backend/embedding_service/app/llm.py:264-274 | every named OCR item's name and every vision name is in the final name set |
| EmbeddingLlm.SeenIsAdded | backend/embedding_service/app/llm.py:264-274 | the final name set is the vision names plus the names of the added items |
| EmbeddingLlm.MergeFacts | backend/embedding_service/app/llm.py:246-276 | with one list empty the other is returned whatever its names hold; with both non-empty the merge raises exactly when a truthy name in either list is not text, and otherwise the vision items come first in order, then the OCR items with new lower-cased names, each name once, and a named OCR item left out shares its name with an item kept |
| EmbeddingService.ItemText | backend/embedding_service/app/embedding.py:72-81 | the text built step by step is the item-text function |
| EmbeddingService.TextShape | backend/embedding_service/app/embedding.py:72-81 | the text starts with the name, ends with the category label when there is a category, and is the bare name when nothing else is given |
| EmbeddingService.MenuItemEmbedding | backend/embedding_service/app/embedding.py:43-87 | an embedding comes back only with a model and a text, and is the model's embedding of that text |
| EmbeddingService.ModuleEmbedding | backend/embedding_service/app/embedding.py:115-129 | without a service or without an embedding the result is `[]`; otherwise the service's embedding |
| OcrServiceLlm.ExtractJsonFromResponse | backend/ocr_service/app/llm.py:6-40 | the steps (empty reply, strip, fence removal, outer brackets stripped, one bracket added at each end where missing) compute the extracted JSON text |
| OcrServiceLlm.ExtractedShape | backend/ocr_service/app/llm.py:8-33 | the extracted text is always one bracketed array text whose inside neither starts nor ends with a bracket, and an empty reply gives `[]` |
| OcrServiceLlm.FenceRemoved | backend/ocr_service/app/llm.py:15-24 | a reply with a code fence leaves no fence inside the extracted text |
| OcrServiceLlm.NoFenceKept | backend/ocr_service/app/llm.py:12-33 | without a fence the extracted text is the stripped reply with its outer brackets replaced by exactly one pair |
| OcrServiceLlm.RequestWithRetry | backend/ocr_service/app/llm.py:162-175 | at most `max_retries` attempts; every retry follows a rate-limit ("429") error and waits `2^attempt * 3` seconds; the first success is returned; any other error, or a rate limit on the last attempt, is raised; no attempt at all returns nothing |
| OcrServiceLlm.ParseMenuText | backend/ocr_service/app/llm.py:42-100 | blank text makes no call and gives no items; otherwise one to three attempts are made, every attempt before the last was rate-limited, and the last either answered, was not rate-limited or was the third; an answer gives the decode of its extracted JSON, or no items when that does not decode, and a raise gives no items |
| OcrServiceSchemas.AsDict | backend/ocr_service/app/schemas.py:19-25 | the record sent on carries the name, the restaurant id as text and the price as a number |
| OcrServiceSchemas.MapToMenuItems | backend/ocr_service/app/schemas.py:4-28 | one record per item, in order, each the mapping of its item; the whole call raises exactly when some item's mapping raises |
| OcrServiceSchemas.MapOneFacts | backend/ocr_service/app/schemas.py:10-25 | a record belongs to the restaurant, is active, carries the price as `float` converts it, and has a truthy size appended to the name in parentheses, the name unchanged otherwise |
| OcrServiceSchemas.MapOneRaises | backend/ocr_service/app/schemas.py:15-23 | mapping an item raises exactly when its price does not convert or a category meets a description that is not text |
| OcrServiceSchemas.CategoryOnce | backend/ocr_service/app/schemas.py:15-17 | with a category the description always mentions "category", so mapping again adds no second category line, and a description that already mentions one is kept |
| OcrServiceSchemas.ItemProblem | backend/ocr_service/app/schemas.py:35-47 | an item passes exactly when it has a truthy name and restaurant id and a price that converts and is not negative, a missing price counting as 0 |
| OcrServiceSchemas.ValidateMenuItems | backend/ocr_service/app/schemas.py:30-49 | an empty list fails with "no menu items"; otherwise the list passes exactly when every item passes, and a failure reports the first failing item's problem |
| OcrServiceSchemas.ZeroPriceAccepted | backend/ocr_service/app/schemas.py:42-45 | a missing or zero price passes and a negative price is reported with the item's name and price |
| OcrServiceSchemas.MappedValidates | backend/ocr_service/app/schemas.py:19-47 | a mapped record passes validation exactly when the restaurant id is not empty, the name is truthy and the price is not negative |
| PkgOcrLlm.GeminiParseMenu | backend/pkg/ocr/llm.py:11-74 | an empty API key raises before anything else; items are returned exactly when the model replied and the unfenced JSON text decodes, and they are the decoded items; every other failure is raised |
| PkgOcrLlm.FenceGone | backend/pkg/ocr/llm.py:60-63 | a fenced reply leaves no fence in the text that is decoded |
| PkgOcrLlm.PlainReply | backend/pkg/ocr/llm.py:64-65 | a reply without a fence is decoded whole, stripped |
| PkgOcrSchema.MapToMenuitems | backend/pkg/ocr/schema.py:11-65 | an empty restaurant id raises before any item is read; otherwise the rows are the items mapped in order, the `k`-th with the `k`-th fresh id |
| PkgOcrSchema.MappedRowsSpec | backend/pkg/ocr/schema.py:26-62 | there is one row per item, in order, and the `k`-th row is built from the `k`-th item with the `k`-th id |
| PkgOcrSchema.RowFacts | backend/pkg/ocr/schema.py:28-60 | a row has the given id and restaurant, is active, is created and updated at the same moment, has an image path exactly when a base path is given, and has a truthy size in parentheses after the name |
| PkgOcrSchema.PriceFacts | backend/pkg/ocr/schema.py:37-41 | the price text keeps no `$` or `₹`, and the price is that text as a number or 0.0 |
| PkgOcrSchema.NumericPriceKept | backend/pkg/ocr/schema.py:37-39 | a numeric price comes through as the same number, given that `str` of a number reads back as that number |
| PkgOcrSchema.MissingPriceZero | backend/pkg/ocr/schema.py:37-39 | a missing price is the int 0, whose text "0" gives 0.0 |
| PkgOcrSchema.SignedPrice | backend/pkg/ocr/schema.py:37-39 | a `$` or `₹` in front of a price text is dropped before the rest is read |
| PkgOcrSchema.ImagePathsDistinct | backend/pkg/ocr/schema.py:46-47 | rows with different ids have different image paths |
| PkgOcrSchema.RowsDistinct | backend/pkg/ocr/schema.py:23-59 | with fresh ids, two rows of one call differ in id and image path and share the timestamp |
| PkgOcrVerification.ErrorsListed | backend/pkg/ocr/verification.py:19-30 | every error of an item is collected, not only the first: a missing name, a missing restaurant id and a price that is not positive each have an entry, and there are none exactly when all three hold |
| PkgOcrVerification.VerifyMenuItems | backend/pkg/ocr/verification.py:10-47 | the call raises exactly when some price cannot be compared with a number; otherwise it reports the items without errors, the items with their errors, a warning per price above 10000, and `valid` exactly when no item is invalid |
| PkgOcrVerification.PartitionCount | backend/pkg/ocr/verification.py:37-40 | each item lands in exactly one of the valid and invalid lists |
| PkgOcrVerification.ValidListed | backend/pkg/ocr/verification.py:37-40 | the valid list holds exactly the items without errors, unchanged |
| PkgOcrVerification.InvalidListed | backend/pkg/ocr/verification.py:37-38 | the invalid list holds exactly the items with errors, each with all of its errors |
| PkgOcrVerification.WarningsListed | backend/pkg/ocr/verification.py:33-34 | every price above 10000 is warned about, valid item or not, and nothing else is |
| PkgOcrVerification.ValidWhenNoErrors | backend/pkg/ocr/verification.py:42-43 | the report is valid exactly when no item has an error |
| AppEmbedding.OptionLines | backend/app/utils/embedding.py:21-23 | one `Option: name - description - price` line per option, in order |
| AppEmbedding.AppendOptionLines | backend/app/utils/embedding.py:22-23 | the option loop appends exactly those lines, in order, after the parts already collected |
| AppEmbedding.GetMenuItemText | backend/app/utils/embedding.py:17-28 | the parts collected step by step, joined with " \| ", give the item's text |
| AppEmbedding.PartsLayout | backend/app/utils/embedding.py:18-27 | the name comes first, then the description when there is one, one line per option in order, the tags line, and the allergens line last; nothing else is added |
| AppEmbedding.TextStartsWithName | backend/app/utils/embedding.py:18-28 | the text starts with the name, and is the bare name when nothing else is given |
| AppEmbedding.EmptyOption | backend/app/utils/embedding.py:23 | an option with none of the three keys still gets a line, with empty fields |
| AppEmbedding.Attempted | backend/app/utils/embedding.py:30-51 | a row is stored exactly when the model answered, its vector (the "embedding" entry of a dict, else the response) is a list of 768 values and writing succeeds; the row then holds the item id, that vector and empty metadata |
| AppEmbedding.RejectedDimensions | backend/app/utils/embedding.py:40-41 | a vector that is not a list is reported as invalid, and one of the wrong length with its length |
| AppEmbedding.DictWithoutEmbedding | backend/app/utils/embedding.py:38-41 | a dict response without an "embedding" key is checked as it is, and so is always rejected |
| AppEmbedding.EmbeddingTable.constructor | backend/app/utils/embedding.py:47 | the embedding table starts empty |
| AppEmbedding.EmbeddingTable.CreateMenuItemEmbedding | backend/app/utils/embedding.py:30-51 | on success exactly one row is appended; every failure surfaces as one wrapped bad-request error and stores nothing |
| AppEmbeddings.CreateTextForEmbedding | backend/app/utils/embeddings.py:33-49 | the parts collected step by step, joined with single spaces, give the item's text |
| AppEmbeddings.TextShape | backend/app/utils/embeddings.py:38-49 | the text starts with the name, ends with the allergen list when there is one, and is the bare name when nothing else is given |
| AppEmbeddings.GeneratedFirstSuccess | backend/app/utils/embeddings.py:52-80 | a vector comes back exactly when the client exists and one of the three tries succeeds, and it is the vector of the first try that does |
| AppEmbeddings.FindItem | backend/app/utils/embeddings.py:90-92 | the item found has the requested id and is in the table; nothing is found exactly when no row has that id |
| AppEmbeddings.EmbeddedFacts | backend/app/utils/embeddings.py:83-113 | the call succeeds exactly when the item exists and embeds, and a missing item raises `NotFoundError`; on success the new vector is stored under the id and the message says "created" exactly when there was no embedding before; a failure changes nothing |
| AppEmbeddings.MessagesClassified | backend/app/utils/embeddings.py:163-166 | the tally counts the created message as created and the updated message as updated |
| AppEmbeddings.ProcessedCounts | backend/app/utils/embeddings.py:160-179 | every item is counted once: the three counters add up to the number of items, with one status per item in order, a success exactly when the item exists and embeds |
| AppEmbeddings.ProcessedSize | backend/app/utils/embeddings.py:160-179 | the embeddings table grows by exactly the number counted as created |
| AppEmbeddings.EmbeddedIdsSpec | backend/app/utils/embeddings.py:160-171 | the ids embedded by a run are exactly the ids of its items that exist and embed |
| AppEmbeddings.ProcessedKeys | backend/app/utils/embeddings.py:160-179 | after a run the table holds exactly the keys it had plus the ids of the items that embedded |
| AppEmbeddings.RestaurantItems | backend/app/utils/embeddings.py:146-147 | a restaurant run covers exactly the items of that restaurant |
| AppEmbeddings.BatchItems | backend/app/utils/embeddings.py:194-199 | a batch with ids processes the row of every id that resolves and only those, and no more items than ids |
| AppEmbeddings.Database.constructor | backend/app/utils/embeddings.py:135-147 | the tables hold the given restaurants, menu items and embeddings |
| AppEmbeddings.Database.CreateMenuItemEmbedding | backend/app/utils/embeddings.py:83-113 | the message returned and the embeddings table afterwards are those of the specification above; the menu items and restaurants are unchanged |
| AppEmbeddings.Database.ProcessItems | backend/app/utils/embeddings.py:160-184 | the loop's counters, statuses and embeddings table are those of the tally over the items, and the total is the number of items |
| AppEmbeddings.Database.CreateEmbeddingsForRestaurant | backend/app/utils/embeddings.py:135-184 | an unknown restaurant, or one without items, raises `NotFoundError` and changes nothing; otherwise the result is the tally over the restaurant's items |
| AppEmbeddings.Database.ResolveItems | backend/app/utils/embeddings.py:194-199 | the rows of the requested ids that resolve, in the order asked |
| AppEmbeddings.Database.BatchCreateEmbeddings | backend/app/utils/embeddings.py:187-238 | with a non-empty id list the resolved rows, otherwise every row, are tallied; `NotFoundError` and no change when that leaves nothing to process |
| CartContext.WithTotals | frontend/src/context/CartContext.js:36-40 | the totals are the sum of the quantities and the sum of price times quantity over the items |
| CartContext.FindIndex | frontend/src/context/CartContext.js:16-18 | the first position holding the id, or none exactly when no item has it |
| CartContext.WithoutId | frontend/src/context/CartContext.js:68 | the filter never lengthens the list |
| CartContext.SetQuantity | frontend/src/context/CartContext.js:105-107 | every entry with the id gets the new quantity, every other entry is unchanged, and the order is kept |
| CartContext.EditsKeepTotals | frontend/src/context/CartContext.js:13-133 | after adding, removing, updating or clearing, the totals match the items |
| CartContext.AddExistingItem | frontend/src/context/CartContext.js:20-40 | adding an id already in the cart adds the quantity to that entry in place and leaves the other entries and the order alone; the count grows by the quantity and the amount by that quantity at the entry's price |
| CartContext.AddNewItem | frontend/src/context/CartContext.js:30-40 | a new id is appended as given, and the totals grow by its quantity and its amount |
| CartContext.AddItemKeepsIdsUnique | frontend/src/context/CartContext.js:15-54 | adding keeps every id in the cart once |
| CartContext.RemoveAbsent | frontend/src/context/CartContext.js:57-61 | removing an id that is not in the cart returns the state as it was |
| CartContext.RemoveItemEffect | frontend/src/context/CartContext.js:63-83 | with unique ids, an entry of quantity 1 is deleted and any other is decremented by one, no other entry is touched, the count drops by one and the amount by the entry's price |
| CartContext.RemoveItemKeepsIdsUnique | frontend/src/context/CartContext.js:56-97 | removing keeps every id in the cart once |
| CartContext.UpdateIgnoresNonPositive | frontend/src/context/CartContext.js:101-103 | a quantity that is not positive returns the state as it was |
| CartContext.UpdateQuantityEffect | frontend/src/context/CartContext.js:105-114 | with unique ids only the entry with the id gets the new quantity, and the totals move by the difference |
| CartContext.WholeCartActions | frontend/src/context/CartContext.js:130-138 | clearing gives the empty cart with zero totals, loading gives the loaded cart, and any other action changes nothing |
| Formatters.TruncateFits | frontend/src/utils/formatters.js:22-25 | falsy text, or text no longer than the limit, comes back unchanged; a longer text with a limit of at least 3 becomes exactly that many characters, its head followed by "..." |
| Formatters.TruncateSmallMax | frontend/src/utils/formatters.js:24 | below a limit of 3 the slice end counts from the back of the text, so the result keeps all but `3 - maxLength` characters and can exceed the limit |
| Formatters.PhoneDigitsKept | frontend/src/utils/formatters.js:85-97 | formatting never changes the digits of a number, and formatting a formatted number changes nothing |
| Formatters.PhoneTenDigits | frontend/src/utils/formatters.js:89-94 | ten digits, whatever surrounds them, give the `(ddd) ddd-dddd` layout of 14 characters |
| Formatters.LayoutDigits | frontend/src/utils/formatters.js:93 | the phone layout keeps the ten digits in order and adds none |
| Formatters.CuisineText | frontend/src/utils/formatters.js:112-114 | a text cuisine type gives one trimmed piece per comma-separated part, none containing a comma, and the untrimmed parts rejoined with commas are the text |
| Formatters.CuisineOtherwise | frontend/src/utils/formatters.js:105-116 | no restaurant, or a cuisine type that is neither text nor an array, gives no types; an array comes back as it is |
| Formatters.LinesSpec | frontend/src/utils/formatters.js:136 | there are lines exactly when every day has one, and then they are one per day, in key order |
| Formatters.HoursFallback | frontend/src/utils/formatters.js:125-140 | "Hours not available" comes back exactly when the hours are falsy, do not parse, have no days or make a line throw; otherwise the day lines joined with ", ", the first day leading |
| Formatters.HoursOfObject | frontend/src/utils/formatters.js:133-136 | an object whose days each carry an object gives `day: open - close` for every day, in key order, joined with ", " |
| Formatters.HoursThroughSafeParse | frontend/src/utils/formatters.js:61-67 | reading text hours is `safeJsonParse` with a `null` fallback or its default `{}`: either fallback has no days and gives "Hours not available", as a throwing parse does |
| Payment.ValidatePayment | backend/app/models/payment.py:34-47 | a payment passes, unchanged, exactly when it has a user, a positive total, a status and as many prices as items, at least one of each; a missing user is reported first, and the count mismatch exactly when every earlier check passes and the lengths differ |
| Payment.EmptyListsOrder | backend/app/models/payment.py:39-44 | a missing status is reported before empty items, and empty items before empty prices |
| CartItems.ValidateCartItem | backend/app/models/cart_items.py:45-54 | a line passes, unchanged, exactly when it has both ids, a positive quantity and a positive base price; the checks report in that order |
| CartItemAddons.ValidateCartItemAddon | backend/app/models/cart_item_addons.py:32-41 | an add-on passes, unchanged, exactly when it has both ids, a positive quantity and a price that is not negative, a free add-on included; the checks report in that order |
| Addons.FirstStop | backend/app/models/addons.py:27-29 | the loop stops at the first option that raises or has no positive price, and runs through exactly when there is none |
| Addons.ValidateAddons | backend/app/models/addons.py:20-31 | a group passes, unchanged, exactly when it has a non-empty name and options, each with a positive price; a price rejection names an existing option that is not positive, and an exception comes from an option whose price cannot be read |
| Addons.PricelessOption | backend/app/models/addons.py:28 | an option without a price counts as 0 and is rejected |
| ModelFiles.ValidateFile | backend/pkg/model/files.go:45-71 | a file passes exactly when every text field is given, the size is positive and the purpose is one of the four constants; a missing uploader is reported first, and "invalid purpose" exactly when everything else is given and the purpose is not one of them |
| ModelFile.ValidateFile | backend/pkg/model/file.go:29-47 | a file passes exactly when it has a name, a path, a type, a positive size and a mime type; the size is checked before the mime type |
| ModelUser.ValidateUser | backend/pkg/model/user.go:23-34 | a user passes exactly when it has a name, an email or a phone, and a provider; the "either email or phone" error comes exactly when a named user has neither |
| ModelMenu.ValidateMenuItem | backend/pkg/model/menu.go:24-36 | an item passes exactly when it has a restaurant, a name and a price of at least zero; the price error comes exactly when the first two are given and the price is negative |
| ModelRestaurant.ValidateRestaurant | backend/pkg/model/restaurant.go:21-37 | a restaurant passes exactly when it has a name, an email, a phone and a provider, checked in that order |
| ModelRestaurant.StricterThanUser | backend/pkg/model/restaurant.go:21-37 | every person that passes the restaurant check passes the user check, and one with an email but no phone passes only the user check |

## Left out

- Language-model, embedding, OCR, HTTP and database calls: each is an oracle parameter (a reply, a vector, the rows a query returns). Prompts, model names and client set-up are not modelled, because they only shape what the oracle returns.
- Oracle determinism: every oracle is a mathematical function, so a model is assumed to answer the same question the same way within one run.
- SQL ordering and `LIMIT` of the similarity queries (`ORDER BY` cosine distance, the 30 nearest items): the rows come from the `fetch` oracle as the database returns them, because the ordering happens inside PostgreSQL.
- Falsy database rows in the similarity search: a row is a record here and always truthy, so the skip of falsy rows has nothing to act on.
- Regular expressions (section headers, price notations, size words, base names, trailing parentheticals beyond the bracket scan): they are predicates and search functions given as parameters, because no regex engine is modelled.
- IEEE floating point: scores, prices and similarities are reals, so rounding error, NaN, infinities and overflow are not modelled.
- MenuExtractor.EstimateItemCount: `int(n * 0.7)` is the exact floor of `7n/10`, not its binary floating-point value (which is one less for some `n`).
- PostProcessor.RoundHalfEven: Python's `round` is banker's rounding on the exact real average, not on the float average.
- Json.ToFloat: Python's `float` of text is a decimal parser (`Util.ParseFloat`) with an optional sign and fraction, inside ASCII whitespace; exponents, `inf`, `nan` and underscores are not accepted.
- Util.Lower: lower-casing maps ASCII letters only, and `Strip` trims ASCII whitespace; Unicode case folding and Unicode spaces are not modelled. `Util.IsDigit` is ASCII too, while Python's `\d` in the price clean-up (`backend/embedding_service/app/menu_extractor.py:186`) and `float` also accept Unicode decimal digits; JavaScript's `\D` in the formatters is ASCII, so there the model is exact.
- Formatters: JavaScript numbers are reals, so `NaN`'s falsiness is not modelled. Object keys keep insertion order, so JavaScript's ordering of integer-like keys first is not modelled.
- `formatCurrency`, `formatDate`, `getPlaceholderImage` and `deepClone` in the formatters: they are `Intl` formatting, a URL template and a JSON round trip with no logic of their own.
- `add_cuisine_context` in the reranker (lines 136 onward): it only builds prompt text for the model.
- `parse_menu_image` in the embedding and OCR services' `llm.py`: the image call is an oracle, and what follows it is the JSON extraction already modelled.
- `process_embedding_async` and the session handling in `backend/app/utils/embeddings.py`: they open and close a database session around the modelled call.
- `find_similar_menu_items` in `backend/app/utils/embeddings.py`: numpy normalisation and cosine similarity are floating-point vector arithmetic.
- The Cohere normalisation of a generated embedding (`backend/app/utils/embeddings.py:74-75`): the vector is whatever the oracle returns.
- Multiple embedding rows for one menu item: the embeddings table is a map keyed by menu item id, so `existing_embeddings[0]` is the one stored embedding.
- Retry waits are returned, not slept, and the exponential backoff of the Cohere decorator is not timed: time is not modelled.
- Logging everywhere: it has no effect on results.
- Pydantic models are approximated by the checks their validators make; coercion of field types that pydantic would perform before the validator runs is not modelled.
- The Python validators raise `errors.BadRequestError` from an error module that defines no such name: the rejection is modelled by its message (`Validation.Checked`), as if the import worked.
- Addons.ValidateAddons: an options column that is not a list (a dict or text, which pydantic would reject) is not modelled.
- Fields the validators do not read are not part of the validated records.
- Go `int64` sizes are unbounded integers: overflow is not modelled.
- The authentication-provider constants of `backend/pkg/model/person.go`: no validator uses them; a user needs only a non-empty provider.
- PkgOcrSchema.RowsDistinct: that `uuid4` gives distinct ids is a precondition on the `newId` oracle, not proved.
- `localStorage` in the cart context, and the provider, hooks and UI pages of the front end: they are side effects and rendering.
- HTTP handlers, routers, repositories, SQL builders, entry points and pipeline glue whose every step is a foreign call: they carry no logic beyond the calls.
- Update in place: the post-processor's shared dictionaries are modelled as one item array reached through positions, and the reranker's and health node's dish dictionaries as values that are rebuilt; aliasing between dictionaries held by different callers is not modelled.
- AppEmbeddings.Database: the repository calls are modelled as the code intends them, a lookup of rows by filter and an update of the stored embedding; `backend/app/repositories/base.py` defines only `get(db, id)` and `create(db, obj_in)`, so `get(db, filters=...)`, `get(db)` and `update` would raise as written.
- AppEmbeddings.Database: `GetMenuItemFilters(restaurant_id=...)` is taken to build a filter; under pydantic 2 its `Optional` fields without defaults would fail validation.
- AppEmbeddings.Database: `backend/app/utils/embeddings.py` imports `BadRequestError`, which the error module does not define, so the module as written fails to import; the model assumes the import works.
- AppEmbeddings.Database: repository reads and writes never fail; database errors and commits are not modelled.
- EmbeddingService.TextOf: a name that is not text is modelled as failing; Python hands a non-text name to the embedding call when no other field is truthy, and extends a list name with a truthy size.
- PkgOcrSchema.NumericPriceKept: that `str` of the price reads back as the same number (`ReadsBack`) is a precondition on the `render` oracle; it holds for Python's shortest float text whenever that text has no exponent.
- Formatters.TruncateText: the default `maxLength = 100` is not modelled, so callers pass the limit; lengths count characters, not JavaScript's UTF-16 code units.
- Formatters.SafeJsonParse: the default fallback `{}` is not a default here, so callers pass the fallback.
- PkgOcrLlm.GeminiParseMenu: the `decode` oracle returns a list of items, so a reply that decodes to a JSON object or to a JSON scalar (a number, a text, `null`), which the source returns as it is, cannot be represented.
- Personalization.GetUserProfile: the repository reads are modelled as the code intends them, a lookup of rows by filter; `backend/app/repositories/base.py:7` defines only `get(db, id)`, so `get(db, filters=...)` (`backend/app/utils/recommend.py:25`, `:29`, `:32`) and `get(db)` (`:45`) would raise as written.
- Personalization.ResolveTopK: the nearest items come from a `nearest` oracle and the details from a map of menu items; the repository defines neither `get_top_k_similar` (`backend/app/utils/recommend.py:114`) nor `get(db, filters=...)` (`:60`), so the call would raise as written.
- Personalization.ResolveThreshold: as for `ResolveTopK`, `get_top_k_similar` (`backend/app/utils/recommend.py:144`) and `get(db, filters=...)` are modelled as intended; as written they would raise.
- AppEmbedding.GetMenuItemText: the item is modelled with `options`; the one caller (`backend/app/utils/ocr.py:152-153`) passes the database menu item, which has no `options` attribute, so `backend/app/utils/embedding.py:21` would raise `AttributeError` as written.
- AppEmbedding.EmbeddingTable.CreateMenuItemEmbedding: failures are modelled as the wrapped bad-request error the code intends; `backend/app/utils/embedding.py:5` imports `BadRequestError`, which the error module does not define, so the module fails to import as written, and the text of the item from its one caller would raise as for `GetMenuItemText`.
- MenuExtractor.ProcessItems: names and descriptions are modelled as text; a truthy name that is not text is turned into text by `str` (`backend/embedding_service/app/menu_extractor.py:167`), and a truthy description that is not text raises at `.strip()` when the name ends in a parenthetical (`:170`), so the item is skipped, and is otherwise turned into text by `str` (`:180`). Neither case is represented.
- ModelFiles and ModelFile: `backend/pkg/model/files.go` and `backend/pkg/model/file.go` both declare `File`, `GetFileFilters` and `ValidateFile` in one Go package, which therefore does not compile as written; they are modelled as two separate modules, each as its file states it.
