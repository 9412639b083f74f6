/** The schema mapper of the shared OCR package: parsed items become database
    rows. The fresh identifier of the `k`-th row is the oracle `newId(k)`
    (`uuid4`), the clock reading `now` is given, and the text of a number, list
    or dict is the oracle `render`. */
module PkgOcrSchema {
  import opened Util
  import opened Json

  /** A clock reading, as `datetime.now()` returns it. */
  type Timestamp = int

  datatype Row = Row(id: string, restaurantId: string, name: Value, description: Value, price: real,
                     imagePath: Option<string>, isActive: bool, createdAt: Timestamp, updatedAt: Timestamp)

  /** The name, with a truthy size appended in parentheses. */
  function RowName(item: Dict, render: Value -> string): Value {
    var name := Get(item, "name", Str(""));
    var size := Get(item, "size", Nil);
    if Truthy(size) then Str(PyStr(name, render) + " (" + PyStr(size, render) + ")") else name
  }

  /** `str(item.get('price', 0))`: the default is the int 0, whose text is "0". */
  function PriceSource(item: Dict, render: Value -> string): string {
    if "price" in item then PyStr(item["price"], render) else "0"
  }

  /** The price text with the dollar and rupee signs removed. */
  function PriceText(item: Dict, render: Value -> string): string {
    RemoveAll(RemoveAll(PriceSource(item, render), "$"), "₹")
  }

  /** The price: the sanitised text read as a float, 0.0 where it is not one. */
  function RowPrice(item: Dict, render: Value -> string): real {
    ParseFloat(PriceText(item, render)).GetOr(0.0)
  }

  /** `<base>/<id>.jpg` when a non-empty base path is given. */
  function ImagePath(base: Option<string>, id: string): Option<string> {
    if base.Some? && base.value != "" then Some(base.value + "/" + id + ".jpg") else None
  }

  function MapItem(item: Dict, restaurantId: string, base: Option<string>, id: string, now: Timestamp,
                   render: Value -> string): Row {
    Row(id, restaurantId, RowName(item, render), Get(item, "description", Str("")), RowPrice(item, render),
        ImagePath(base, id), true, now, now)
  }

  /** The row of the item at position `k`, which gets the `k`-th fresh id. */
  function RowAt(restaurantId: string, base: Option<string>, newId: nat -> string, now: Timestamp,
                 render: Value -> string): (Dict, nat) -> Row {
    (item: Dict, k: nat) => MapItem(item, restaurantId, base, newId(k), now, render)
  }

  /** `map_to_menuitems`: None where it raises, which is for an empty
      restaurant id, before any item is looked at. */
  method MapToMenuitems(menuItems: seq<Dict>, restaurantId: string, base: Option<string>,
                        newId: nat -> string, now: Timestamp, render: Value -> string)
    returns (mapped: Option<seq<Row>>)
    ensures mapped.None? <==> restaurantId == ""
    ensures mapped.Some? ==> mapped.value == MapIndexed(menuItems, RowAt(restaurantId, base, newId, now, render))
  {
    if restaurantId == "" {
      return None;
    }
    ghost var f := RowAt(restaurantId, base, newId, now, render);
    var rows: seq<Row> := [];
    for k := 0 to |menuItems|
      invariant rows == MapIndexed(menuItems[..k], f)
    {
      var row := MapItem(menuItems[k], restaurantId, base, newId(k), now, render);
      assert f(menuItems[k], k) == row;
      rows := rows + [row];
      assert menuItems[..k + 1][..k] == menuItems[..k];
    }
    assert menuItems[..|menuItems|] == menuItems;
    return Some(rows);
  }

  /** One row per item, in order, the `k`-th built from the `k`-th item with
      the `k`-th fresh id. */
  lemma MappedRowsSpec(items: seq<Dict>, restaurantId: string, base: Option<string>,
                       newId: nat -> string, now: Timestamp, render: Value -> string)
    ensures var rows := MapIndexed(items, RowAt(restaurantId, base, newId, now, render));
      |rows| == |items|
      && forall k :: 0 <= k < |items| ==> rows[k] == MapItem(items[k], restaurantId, base, newId(k), now, render)
  {
    MapIndexedSpec(items, RowAt(restaurantId, base, newId, now, render));
  }

  /** A row: the given id and restaurant, active, created and updated at the
      same moment; an image path exactly when a base path is given; a truthy
      size in parentheses after the name. */
  lemma RowFacts(item: Dict, restaurantId: string, base: Option<string>, id: string, now: Timestamp,
                 render: Value -> string)
    ensures var r := MapItem(item, restaurantId, base, id, now, render);
      r.id == id && r.restaurantId == restaurantId && r.isActive
      && r.createdAt == now && r.updatedAt == now
      && (r.imagePath.Some? <==> base.Some? && base.value != "")
      && (Truthy(Get(item, "size", Nil)) ==>
            r.name == Str(PyStr(Get(item, "name", Str("")), render) + " (" + PyStr(item["size"], render) + ")"))
  {
  }

  /** The price is read from text with no currency sign left in it, and is 0.0
      when that text is not a number. */
  lemma PriceFacts(item: Dict, render: Value -> string)
    ensures var t := PriceText(item, render);
      '$' !in t && '₹' !in t
      && RowPrice(item, render) == (if ParseFloat(t).Some? then ParseFloat(t).value else 0.0)
  {
    var s := PriceSource(item, render);
    RemoveAllChars(s, "$", '$');
    RemoveAllChars(RemoveAll(s, "$"), "₹", '$');
    RemoveAllChars(RemoveAll(s, "$"), "₹", '₹');
  }

  /** `str` of the number `n` is text that `float` reads back as `n`, as
      Python prints the shortest such text of a float. */
  predicate ReadsBack(render: Value -> string, n: real) {
    ParseFloat(render(Num(n))) == Some(n)
  }

  /** A numeric price is kept as it is. */
  lemma NumericPriceKept(item: Dict, render: Value -> string)
    requires "price" in item && item["price"].Num? && ReadsBack(render, item["price"].n)
    ensures RowPrice(item, render) == item["price"].n
  {
    var v := item["price"];
    var t := render(v);
    assert PriceSource(item, render) == t;
    assert ParseFloat(t) == Some(v.n);
    ParseFloatChars(t);
    assert !NumberChar('$') && !NumberChar('₹');
    RemoveAbsent(t, '$');
    RemoveAbsent(t, '₹');
    assert PriceText(item, render) == t;
  }

  /** A missing price becomes 0.0. */
  lemma MissingPriceZero(item: Dict, render: Value -> string)
    requires "price" !in item
    ensures RowPrice(item, render) == 0.0
  {
    assert ParseUnsigned("0") == Some(0.0);
    RemoveAbsent("0", '$');
    RemoveAbsent("0", '₹');
  }

  /** A currency sign in front of a price text is dropped before the text is
      read. */
  lemma SignedPrice(item: Dict, render: Value -> string)
    requires "price" in item && item["price"].Str?
    requires var p := item["price"].s;
      |p| >= 1 && (p[0] == '$' || p[0] == '₹') && '$' !in p[1..] && '₹' !in p[1..]
    ensures RowPrice(item, render) == ParseFloat(item["price"].s[1..]).GetOr(0.0)
  {
    SignDropped(item["price"].s);
  }

  lemma SignDropped(p: string)
    requires |p| >= 1 && (p[0] == '$' || p[0] == '₹') && '$' !in p[1..] && '₹' !in p[1..]
    ensures RemoveAll(RemoveAll(p, "$"), "₹") == p[1..]
  {
    var rest := p[1..];
    RemoveAbsent(rest, '$');
    RemoveAbsent(rest, '₹');
    if p[0] == '$' {
      assert p[..1] == "$";
    } else {
      assert p[..1] != "$";
      assert RemoveAll(p, "$") == p;
      assert p[..1] == "₹";
    }
  }

  /** Rows with different ids have different image paths. */
  lemma ImagePathsDistinct(base: Option<string>, id1: string, id2: string)
    requires base.Some? && base.value != "" && id1 != id2
    ensures ImagePath(base, id1) != ImagePath(base, id2)
  {
    var p1, p2 := base.value + "/" + id1 + ".jpg", base.value + "/" + id2 + ".jpg";
    var n := |base.value| + 1;
    if |id1| == |id2| {
      assert p1[n..n + |id1|] == id1;
      assert p2[n..n + |id2|] == id2;
    } else {
      assert |p1| != |p2|;
    }
  }

  /** With fresh ids every row of one call has its own id, and its own image
      path when there is a base path. */
  lemma RowsDistinct(menuItems: seq<Dict>, restaurantId: string, base: Option<string>, newId: nat -> string,
                     now: Timestamp, render: Value -> string, j: nat, k: nat)
    requires j < k < |menuItems| && newId(j) != newId(k)
    ensures var rj := MapItem(menuItems[j], restaurantId, base, newId(j), now, render);
      var rk := MapItem(menuItems[k], restaurantId, base, newId(k), now, render);
      rj.id != rk.id && rj.createdAt == rk.createdAt
      && (base.Some? && base.value != "" ==> rj.imagePath != rk.imagePath)
  {
    if base.Some? && base.value != "" {
      ImagePathsDistinct(base, newId(j), newId(k));
    }
  }
}
