/** The similarity search of the recommendation service. The SQL query (active
    items with an embedding, ordered by pgvector cosine distance, `LIMIT top_k`)
    runs in the database and is the oracle `fetch`; what is modelled is the
    conversion of the returned rows into dish records. */
module VectorSearch {
  import opened Util

  /** The `meta` column as the database driver hands it over. */
  datatype Meta =
    | MetaNull                              // SQL NULL
    | MetaText(text: string)                // a text value, decoded with `json.loads`
    | MetaObject(category: Option<string>)  // an already decoded object
    | MetaOther                             // any other decoded value

  /** What `json.loads` makes of a meta text. */
  datatype Json =
    | JObject(category: Option<string>)     // an object, with its "category" key if any
    | JOther                                // valid JSON that is not an object
    | JInvalid                              // a decoding error

  /** One result row; `description` and `price` are nullable columns. */
  datatype Row = Row(id: string, name: string, description: Option<string>, price: Option<real>,
                     restaurantId: string, restaurantName: string, meta: Meta, similarity: real)

  /** The score a language model gave: a JSON number (booleans included), or any
      other JSON value, on which arithmetic raises `TypeError`. */
  datatype Score = Num(value: real) | NonNumeric

  /** A recommended dish. Search fills the first eight fields; the reranker and
      the health analysis add the optional ones. */
  datatype Dish = Dish(
    id: string, name: string, description: string, price: real,
    restaurantId: string, restaurantName: string, similarity: real, category: string,
    combined: Option<real>, llmScore: Option<real>, originalScore: Option<real>,
    cuisineType: Option<string>, healthScore: Option<Score>)

  /** The category a row's meta yields, or None when `meta.get` raises because the
      text decoded to something other than an object. */
  function CategoryOf(meta: Meta, parseJson: string -> Json): (r: Option<string>)
    ensures r.None? <==> meta.MetaText? && parseJson(meta.text).JOther?
    ensures meta.MetaObject? ==> r == Some(meta.category.GetOr(""))
    ensures meta.MetaText? && parseJson(meta.text).JObject? ==> r == Some(parseJson(meta.text).category.GetOr(""))
    ensures meta.MetaNull? || meta.MetaOther? || (meta.MetaText? && parseJson(meta.text).JInvalid?) ==> r == Some("")
  {
    match meta
    case MetaNull => Some("")
    case MetaOther => Some("")
    case MetaObject(c) => Some(c.GetOr(""))
    case MetaText(t) =>
      match parseJson(t)
      case JObject(c) => Some(c.GetOr(""))
      case JInvalid => Some("")
      case JOther => None
  }

  /** The dish a row becomes, or None when converting it raises (`float(None)` on a
      NULL price, or `.get` on a non-object meta) and the row is skipped. */
  function ConvertRow(row: Row, parseJson: string -> Json): (r: Option<Dish>)
    ensures r.Some? <==> row.price.Some? && CategoryOf(row.meta, parseJson).Some?
    ensures r.Some? ==>
      (r.value.id == row.id && r.value.name == row.name
       && r.value.price == row.price.value && r.value.similarity == row.similarity
       && r.value.description == row.description.GetOr("")
       && r.value.category == CategoryOf(row.meta, parseJson).value
       && r.value.combined.None? && r.value.healthScore.None? && r.value.cuisineType.None?)
  {
    match (row.price, CategoryOf(row.meta, parseJson))
    case (Some(p), Some(c)) =>
      Some(Dish(row.id, row.name, row.description.GetOr(""), p, row.restaurantId,
                row.restaurantName, row.similarity, c, None, None, None, None, None))
    case _ => None
  }

  /** The converted rows, in order, without the skipped ones. */
  function ConvertAll(rows: seq<Row>, parseJson: string -> Json): seq<Dish> {
    if rows == [] then []
    else
      var rest := ConvertAll(rows[..|rows| - 1], parseJson);
      match ConvertRow(rows[|rows| - 1], parseJson)
      case Some(d) => rest + [d]
      case None => rest
  }

  /** What `search_similar_dishes` returns. */
  function Searched(embedding: seq<real>, topK: int, fetch: (seq<real>, int) -> seq<Row>,
                    parseJson: string -> Json): seq<Dish>
  {
    if embedding == [] then [] else ConvertAll(fetch(embedding, topK), parseJson)
  }

  method SearchSimilarDishes(embedding: seq<real>, topK: int, fetch: (seq<real>, int) -> seq<Row>,
                             parseJson: string -> Json) returns (dishes: seq<Dish>)
    ensures embedding == [] ==> dishes == []
    ensures embedding != [] ==> dishes == ConvertAll(fetch(embedding, topK), parseJson)
  {
    if embedding == [] {
      return [];
    }
    var rows := fetch(embedding, topK);
    dishes := [];
    for i := 0 to |rows|
      invariant dishes == ConvertAll(rows[..i], parseJson)
    {
      assert rows[..i + 1][..i] == rows[..i];
      var d := ConvertRow(rows[i], parseJson);
      if d.Some? {
        dishes := dishes + [d.value];
      }
    }
    assert rows[..|rows|] == rows;
  }

  // ------------------------------------------------------------ properties

  /** Every dish comes from a row, and every convertible row yields a dish;
      the order is stated by `ConvertAllTotal`. */
  lemma {:induction false} ConvertAllFaithful(rows: seq<Row>, parseJson: string -> Json)
    ensures |ConvertAll(rows, parseJson)| <= |rows|
    ensures forall d :: d in ConvertAll(rows, parseJson) ==>
      exists i :: 0 <= i < |rows| && ConvertRow(rows[i], parseJson) == Some(d)
    ensures forall i :: 0 <= i < |rows| && ConvertRow(rows[i], parseJson).Some? ==>
      ConvertRow(rows[i], parseJson).value in ConvertAll(rows, parseJson)
  {
    if rows != [] {
      var init := rows[..|rows| - 1];
      ConvertAllFaithful(init, parseJson);
      forall d | d in ConvertAll(rows, parseJson)
        ensures exists i :: 0 <= i < |rows| && ConvertRow(rows[i], parseJson) == Some(d)
      {
        if d in ConvertAll(init, parseJson) {
          var i :| 0 <= i < |init| && ConvertRow(init[i], parseJson) == Some(d);
          assert rows[i] == init[i];
        } else {
          assert ConvertRow(rows[|rows| - 1], parseJson) == Some(d);
        }
      }
      forall i | 0 <= i < |rows| && ConvertRow(rows[i], parseJson).Some?
        ensures ConvertRow(rows[i], parseJson).value in ConvertAll(rows, parseJson)
      {
        if i < |rows| - 1 {
          assert rows[i] == init[i];
        }
      }
    }
  }

  /** Nothing is dropped from rows that all convert: the dishes are the rows, one
      for one and in the same order. */
  lemma {:induction false} ConvertAllTotal(rows: seq<Row>, parseJson: string -> Json)
    requires forall i :: 0 <= i < |rows| ==> ConvertRow(rows[i], parseJson).Some?
    ensures |ConvertAll(rows, parseJson)| == |rows|
    ensures forall i :: 0 <= i < |rows| ==> Some(ConvertAll(rows, parseJson)[i]) == ConvertRow(rows[i], parseJson)
  {
    if rows != [] {
      var init := rows[..|rows| - 1];
      assert forall i :: 0 <= i < |init| ==> init[i] == rows[i];
      ConvertAllTotal(init, parseJson);
    }
  }
}
