/** The schema module of the OCR service: parsed items are mapped one to one
    to menu records, and the records are checked before they are sent on. The
    text of a number, list or dict is the oracle `render`. */
module OcrServiceSchemas {
  import opened Util
  import opened Json

  // ------------------------------------------------------------ mapping

  /** A record as `map_to_menu_items` builds it. The name is kept as a value:
      without a size, a name that is not text passes through unchanged. */
  datatype Mapped = Mapped(restaurantId: string, name: Value, description: Value, price: real, isActive: bool)

  function AsDict(m: Mapped): (d: Dict)
    ensures "name" in d && d["name"] == m.name
    ensures "restaurant_id" in d && d["restaurant_id"] == Str(m.restaurantId)
    ensures "price" in d && d["price"] == Num(m.price)
  {
    map["restaurant_id" := Str(m.restaurantId), "name" := m.name, "description" := m.description,
        "price" := Num(m.price), "is_active" := Bool(m.isActive)]
  }

  /** The description before a category is considered: `item.get("description") or ""`. */
  function GivenDescription(item: Dict): Value {
    var d := Get(item, "description", Nil);
    if Truthy(d) then d else Str("")
  }

  /** The description with the category line in front, unless "category"
      already occurs in it, case-insensitively. None where `.lower()` raises
      because the description is not text. */
  function WithCategory(description: Value, category: Value, render: Value -> string): Option<Value> {
    if !Truthy(category) then Some(description)
    else if !description.Str? then None
    else if Contains(Lower(description.s), "category") then Some(description)
    else Some(Str(Strip("Category: " + PyStr(category, render) + "\n" + description.s)))
  }

  /** `map_to_menu_items` on one item; None where it raises, which is when the
      price does not convert with `float` or the description cannot be
      lower-cased. */
  function MapOne(restaurantId: string, item: Dict, render: Value -> string): Option<Mapped> {
    var name0 := Get(item, "name", Str(""));
    var size := Get(item, "size", Nil);
    var name := if Truthy(size) then Str(PyStr(name0, render) + " (" + PyStr(size, render) + ")") else name0;
    match WithCategory(GivenDescription(item), Get(item, "category", Nil), render)
    case None => None
    case Some(description) =>
      match ToFloat(Get(item, "price", Num(0.0)))
      case None => None
      case Some(price) => Some(Mapped(restaurantId, name, description, price, true))
  }

  /** `map_to_menu_items`: one record per item, in order, or None where any
      item raises. */
  method MapToMenuItems(restaurantId: string, items: seq<Dict>, render: Value -> string)
    returns (menuItems: Option<seq<Mapped>>)
    ensures menuItems.Some? <==> forall i :: 0 <= i < |items| ==> MapOne(restaurantId, items[i], render).Some?
    ensures menuItems.Some? ==>
      |menuItems.value| == |items|
      && forall i :: 0 <= i < |items| ==> Some(menuItems.value[i]) == MapOne(restaurantId, items[i], render)
  {
    var acc: seq<Mapped> := [];
    for i := 0 to |items|
      invariant |acc| == i
      invariant forall j :: 0 <= j < i ==> Some(acc[j]) == MapOne(restaurantId, items[j], render)
    {
      var menuItem := MapOne(restaurantId, items[i], render);
      if menuItem.None? {
        return None;
      }
      acc := acc + [menuItem.value];
    }
    return Some(acc);
  }

  /** A mapped record belongs to the restaurant, is active, and carries the
      price as converted; a truthy size is appended to the name in
      parentheses, and the name is kept as it is otherwise. */
  lemma MapOneFacts(restaurantId: string, item: Dict, render: Value -> string)
    requires MapOne(restaurantId, item, render).Some?
    ensures var m := MapOne(restaurantId, item, render).value;
      var name, size := Get(item, "name", Str("")), Get(item, "size", Nil);
      m.restaurantId == restaurantId && m.isActive
      && Some(m.price) == ToFloat(Get(item, "price", Num(0.0)))
      && (Truthy(size) ==> m.name == Str(PyStr(name, render) + " (" + PyStr(size, render) + ")"))
      && (!Truthy(size) ==> m.name == name)
  {
  }

  /** The mapping raises exactly when the price does not convert or a category
      meets a description that is not text. */
  lemma MapOneRaises(restaurantId: string, item: Dict, render: Value -> string)
    ensures MapOne(restaurantId, item, render).None? <==>
      ToFloat(Get(item, "price", Num(0.0))).None?
      || (Truthy(Get(item, "category", Nil)) && !GivenDescription(item).Str?)
  {
  }

  /** "category" occurs in a text that starts with "Category". */
  lemma HeadMentions(r: string)
    requires |r| >= 8 && r[..8] == "Category"
    ensures Contains(Lower(r), "category")
  {
    LowerPrefix("Category", r);
    LowerCategory();
    PrefixContained("category", Lower(r));
  }

  lemma LowerCategory()
    ensures Lower("Category") == "category"
  {
  }

  /** "category" occurs in the text a category line starts. */
  lemma CategoryLineMentions(category: string, description: string)
    ensures Contains(Lower(Strip("Category: " + category + "\n" + description)), "category")
  {
    var header := "Category: ";
    var s := header + category + "\n" + description;
    assert s[..10] == header;
    StripKeepsHead(s, 8);
    var r := Strip(s);
    assert r[..8] == r[..9][..8] == s[..9][..8] == header[..8];
    HeadMentions(r);
  }

  /** With a category the description always mentions one, so mapping the
      output again adds no second category line; a description that already
      mentions a category is kept. */
  lemma CategoryOnce(description: Value, category: Value, render: Value -> string)
    requires Truthy(category) && WithCategory(description, category, render).Some?
    ensures var d := WithCategory(description, category, render).value;
      d.Str? && Contains(Lower(d.s), "category")
      && WithCategory(d, category, render) == Some(d)
  {
    if !Contains(Lower(description.s), "category") {
      CategoryLineMentions(PyStr(category, render), description.s);
    }
  }

  // ------------------------------------------------------------ validation

  /** Why validation stops, in the terms of its message. */
  datatype Problem =
    | NoItems
    | NoName(position: nat)
    | NoRestaurant(name: Value)
    | NegativePrice(name: Value, price: real)
    | NonNumericPrice(name: Value, given: Value)

  /** The check of the item at `position`: a name, a restaurant, and a price
      that converts and is not negative (a missing price counts as 0). */
  function ItemProblem(position: nat, item: Dict): (r: Option<Problem>)
    ensures r.None? <==>
      Truthy(Get(item, "name", Nil)) && Truthy(Get(item, "restaurant_id", Nil))
      && ToFloat(Get(item, "price", Num(0.0))).Some? && ToFloat(Get(item, "price", Num(0.0))).value >= 0.0
  {
    var name := Get(item, "name", Nil);
    if !Truthy(name) then Some(NoName(position))
    else if !Truthy(Get(item, "restaurant_id", Nil)) then Some(NoRestaurant(name))
    else
      match ToFloat(Get(item, "price", Num(0.0)))
      case None => Some(NonNumericPrice(name, Get(item, "price", Nil)))
      case Some(price) => if price < 0.0 then Some(NegativePrice(name, price)) else None
  }

  /** `validate_menu_items`: the first failing item is reported. */
  method ValidateMenuItems(menuItems: seq<Dict>) returns (ok: bool, problem: Option<Problem>)
    ensures menuItems == [] ==> !ok && problem == Some(NoItems)
    ensures ok <==> menuItems != [] && forall i :: 0 <= i < |menuItems| ==> ItemProblem(i, menuItems[i]).None?
    ensures ok ==> problem.None?
    ensures !ok && menuItems != [] ==>
      exists k :: 0 <= k < |menuItems| && problem == ItemProblem(k, menuItems[k]) && problem.Some?
        && forall j :: 0 <= j < k ==> ItemProblem(j, menuItems[j]).None?
  {
    if menuItems == [] {
      return false, Some(NoItems);
    }
    for i := 0 to |menuItems|
      invariant forall j :: 0 <= j < i ==> ItemProblem(j, menuItems[j]).None?
    {
      var p := ItemProblem(i, menuItems[i]);
      if p.Some? {
        return false, p;
      }
    }
    return true, None;
  }

  /** A price of zero passes, a negative one does not. */
  lemma ZeroPriceAccepted(position: nat, item: Dict)
    requires Truthy(Get(item, "name", Nil)) && Truthy(Get(item, "restaurant_id", Nil))
    ensures "price" !in item || item["price"] == Num(0.0) ==> ItemProblem(position, item).None?
    ensures "price" in item && item["price"].Num? && item["price"].n < 0.0 ==>
      ItemProblem(position, item) == Some(NegativePrice(item["name"], item["price"].n))
  {
  }

  /** A mapped record passes validation exactly when the restaurant id is not
      empty, the name is truthy and the price is not negative: the mapping
      never yields a price that does not convert. */
  lemma MappedValidates(position: nat, m: Mapped)
    ensures ItemProblem(position, AsDict(m)).None? <==>
      m.restaurantId != "" && Truthy(m.name) && m.price >= 0.0
  {
  }
}
