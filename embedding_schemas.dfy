/** The schema module of the embedding service: extracted items are mapped to
    the records the menu service stores, and a list of records is validated
    against the `MenuItem` model before it is sent. The JSON text of the
    `{"category": c}` meta object is the oracle `metaJson`, that of a dict `meta`
    is `dumps`, and the text of a number, list or dict is `render`. */
module EmbeddingSchemas {
  import opened Util
  import opened Json

  // ------------------------------------------------------------ mapping

  /** A record as `map_to_menu_items` builds it. */
  datatype MenuRecord = MenuRecord(restaurantId: string, name: string, description: string, price: real,
                                   size: string, imagePath: string, isActive: bool, meta: string)

  /** The record as the dictionary that is sent on. */
  function AsDict(r: MenuRecord): (d: Dict)
    ensures "restaurant_id" in d && d["restaurant_id"] == Str(r.restaurantId)
    ensures "name" in d && d["name"] == Str(r.name)
    ensures "price" in d && d["price"] == Num(r.price)
    ensures "meta" in d && d["meta"] == Str(r.meta)
    ensures "description" in d && d["description"] == Str(r.description)
    ensures "size" in d && d["size"] == Str(r.size)
    ensures "image_path" in d && d["image_path"] == Str(r.imagePath)
    ensures "is_active" in d && d["is_active"] == Bool(r.isActive)
    ensures forall k :: k in d ==> k in {"restaurant_id", "name", "description", "price", "size",
                                         "image_path", "is_active", "meta"}
    ensures forall k :: k in d && k != "price" && k != "is_active" ==> d[k].Str?
  {
    map["restaurant_id" := Str(r.restaurantId), "name" := Str(r.name), "description" := Str(r.description),
        "price" := Num(r.price), "size" := Str(r.size), "image_path" := Str(r.imagePath),
        "is_active" := Bool(r.isActive), "meta" := Str(r.meta)]
  }

  /** `map_to_menu_items` on one extracted item: None when it is skipped, because
      its name or price is falsy (a price of 0 included) or its price does not
      convert with `float`. */
  function MapOne(restaurantId: string, item: Dict, render: Value -> string,
                  metaJson: Value -> string): Option<MenuRecord>
  {
    var name := Get(item, "name", Nil);
    var price := Get(item, "price", Nil);
    if !Truthy(name) || !Truthy(price) then None
    else
      match ToFloat(price)
      case None => None
      case Some(p) =>
        var category := Get(item, "category", Nil);
        Some(MenuRecord(restaurantId, Strip(PyStr(name, render)),
                        PyStr(Get(item, "description", Str("")), render), p,
                        PyStr(Get(item, "size", Str("")), render), "", true,
                        if Truthy(category) then metaJson(category) else "{}"))
  }

  /** `map_to_menu_items` over the list, one step per item. */
  function Mapper(restaurantId: string, render: Value -> string, metaJson: Value -> string): Dict -> Option<MenuRecord> {
    item => MapOne(restaurantId, item, render, metaJson)
  }

  method MapToMenuItems(restaurantId: string, items: seq<Dict>, render: Value -> string,
                        metaJson: Value -> string) returns (menuItems: seq<MenuRecord>)
    ensures menuItems == Collect(items, Mapper(restaurantId, render, metaJson))
  {
    ghost var f := Mapper(restaurantId, render, metaJson);
    menuItems := [];
    for i := 0 to |items|
      invariant menuItems == Collect(items[..i], f)
    {
      var mapped := MapOne(restaurantId, items[i], render, metaJson);
      assert f(items[i]) == mapped;
      if mapped.Some? {
        menuItems := menuItems + [mapped.value];
      }
      assert items[..i + 1][..i] == items[..i];
    }
    assert items[..|items|] == items;
  }

  /** What a mapped record holds: the restaurant, the trimmed name, the price as
      converted, an empty image path, `is_active`, and the meta object only when
      there is a category; an item with a falsy name or price is skipped. */
  lemma MapOneFacts(restaurantId: string, item: Dict, render: Value -> string, metaJson: Value -> string)
    ensures var r := MapOne(restaurantId, item, render, metaJson);
      var name, price, category := Get(item, "name", Nil), Get(item, "price", Nil), Get(item, "category", Nil);
      (r.Some? <==> Truthy(name) && Truthy(price) && ToFloat(price).Some?)
      && (r.Some? ==>
            r.value.restaurantId == restaurantId
            && r.value.name == Strip(PyStr(name, render))
            && r.value.price == ToFloat(price).value
            && r.value.imagePath == "" && r.value.isActive
            && (!Truthy(category) ==> r.value.meta == "{}")
            && (Truthy(category) ==> r.value.meta == metaJson(category)))
  {
  }

  /** A price of 0, or a missing one, means the item is skipped. */
  lemma ZeroPriceSkipped(restaurantId: string, item: Dict, render: Value -> string, metaJson: Value -> string)
    requires "price" !in item || item["price"] == Num(0.0)
    ensures MapOne(restaurantId, item, render, metaJson).None?
  {
  }

  /** The mapped list: no longer than the input, each record from an item with
      a truthy name and price, active and without an image, and every item that
      maps is in it. */
  lemma MappedShape(restaurantId: string, items: seq<Dict>, render: Value -> string, metaJson: Value -> string)
    ensures var f := Mapper(restaurantId, render, metaJson);
      var r := Collect(items, f);
      |r| <= |items|
      && (forall k :: 0 <= k < |r| ==>
            (r[k].restaurantId == restaurantId && r[k].isActive && r[k].imagePath == ""
             && exists i :: 0 <= i < |items| && Truthy(Get(items[i], "name", Nil))
                            && Truthy(Get(items[i], "price", Nil)) && f(items[i]) == Some(r[k])))
      && (forall i :: 0 <= i < |items| && f(items[i]).Some? ==> f(items[i]).value in r)
  {
    var f := Mapper(restaurantId, render, metaJson);
    var r := Collect(items, f);
    CollectSpec(items, f);
    forall k | 0 <= k < |r|
      ensures r[k].restaurantId == restaurantId && r[k].isActive && r[k].imagePath == ""
            && exists i :: 0 <= i < |items| && Truthy(Get(items[i], "name", Nil)) && Truthy(Get(items[i], "price", Nil))
                           && f(items[i]) == Some(r[k])
    {
      assert CollectedFrom(items, f, r[k]);
      var i :| 0 <= i < |items| && f(items[i]) == Some(r[k]);
      MapOneFacts(restaurantId, items[i], render, metaJson);
    }
  }

  // ------------------------------------------------------------ validation

  /** Pydantic's lax `float` field: numbers, booleans and numeric strings. */
  function ModelFloat(v: Value): Option<real> {
    match v
    case Num(n) => Some(n)
    case Bool(b) => Some(if b then 1.0 else 0.0)
    case Str(s) => ParseFloat(s)
    case _ => None
  }

  /** The `before` validator: a dict `meta` becomes its JSON text. */
  function MetaAsJson(d: Dict, dumps: Value -> string): (r: Dict)
    ensures "meta" in d && d["meta"].Obj? ==> "meta" in r && r["meta"].Str?
    ensures "meta" !in d || !d["meta"].Obj? ==> r == d
  {
    if "meta" in d && d["meta"].Obj? then d["meta" := Str(dumps(d["meta"]))] else d
  }

  predicate OptionalStr(d: Dict, k: string) {
    k in d ==> d[k].Str?
  }

  /** What the `MenuItem` model accepts once `meta` is converted: string
      `restaurant_id` and `name`, a price above 0, strings where the optional
      text fields are given, a boolean `is_active`, and an embedding that is
      `None` or a list of numbers. */
  predicate ValidMenuItem(d0: Dict, dumps: Value -> string) {
    var d := MetaAsJson(d0, dumps);
    "restaurant_id" in d && d["restaurant_id"].Str?
    && "name" in d && d["name"].Str?
    && "price" in d && ModelFloat(d["price"]).Some? && ModelFloat(d["price"]).value > 0.0
    && OptionalStr(d, "description") && OptionalStr(d, "size") && OptionalStr(d, "image_path")
    && OptionalStr(d, "meta")
    && ("is_active" in d ==> d["is_active"].Bool?)
    && ("embedding" in d ==>
          (d["embedding"].Nil? || (d["embedding"].List? && forall e :: e in d["embedding"].elems ==> e.Num?)))
  }

  /** `validate_menu_items`: the first item the model rejects is reported,
      `explain` standing for the text of the validation error. */
  method ValidateMenuItems(items: seq<Dict>, dumps: Value -> string, explain: Dict -> string)
    returns (ok: bool, message: Option<string>)
    ensures items == [] ==> !ok && message == Some("No valid menu items found")
    ensures ok <==> items != [] && forall i :: 0 <= i < |items| ==> ValidMenuItem(items[i], dumps)
    ensures ok ==> message.None?
    ensures !ok && items != [] ==>
      exists k :: 0 <= k < |items| && !ValidMenuItem(items[k], dumps)
        && (forall j :: 0 <= j < k ==> ValidMenuItem(items[j], dumps))
        && message == Some("Invalid menu item: " + explain(items[k]))
  {
    if items == [] {
      return false, Some("No valid menu items found");
    }
    for i := 0 to |items|
      invariant forall j :: 0 <= j < i ==> ValidMenuItem(items[j], dumps)
    {
      if !ValidMenuItem(items[i], dumps) {
        return false, Some("Invalid menu item: " + explain(items[i]));
      }
    }
    return true, None;
  }

  /** A mapped record passes the model exactly when its price is above 0: a
      negative price, which `float` accepts, still fails validation. */
  lemma RecordValid(r: MenuRecord, dumps: Value -> string)
    ensures ValidMenuItem(AsDict(r), dumps) <==> r.price > 0.0
  {
    var d := AsDict(r);
    assert MetaAsJson(d, dumps) == d;
  }

  /** A mapped list validates exactly when it is non-empty and every price in it
      is above 0. */
  lemma MappedListValid(restaurantId: string, items: seq<Dict>, render: Value -> string,
                        metaJson: Value -> string, dumps: Value -> string)
    ensures var r := Collect(items, Mapper(restaurantId, render, metaJson));
      (forall k :: 0 <= k < |r| ==> ValidMenuItem(AsDict(r[k]), dumps))
      <==> (forall k :: 0 <= k < |r| ==> r[k].price > 0.0)
  {
    var r := Collect(items, Mapper(restaurantId, render, metaJson));
    forall k | 0 <= k < |r|
      ensures ValidMenuItem(AsDict(r[k]), dumps) <==> r[k].price > 0.0
    {
      RecordValid(r[k], dumps);
    }
  }

  // ------------------------------------------------------------ ExtractedMenuItem

  /** An `ExtractedMenuItem` built from a name and a price: accepted with the
      name trimmed, or rejected with the failing fields in field order. */
  datatype Checked = Accepted(name: string, price: real) | Rejected(fields: seq<string>)

  function CheckExtracted(name: string, price: real): (r: Checked)
    ensures r.Accepted? <==> Strip(name) != "" && price > 0.0
    ensures r.Accepted? ==> r.name == Strip(name) && r.price == price
    ensures r.Rejected? ==> ("name" in r.fields <==> Strip(name) == "")
                            && ("price" in r.fields <==> price <= 0.0)
  {
    var errs := (if Strip(name) == "" then ["name"] else []) + (if price <= 0.0 then ["price"] else []);
    if errs == [] then Accepted(Strip(name), price) else Rejected(errs)
  }
}
