/** The verification step of the shared OCR package: items are split into
    valid and invalid ones before they are submitted, collecting every error of
    an item and a warning for unusually high prices. */
module PkgOcrVerification {
  import opened Util
  import opened Json

  datatype ItemError = NameRequired | RestaurantIdRequired | PriceNotPositive(price: Value)

  datatype Invalid = Invalid(item: Dict, errors: seq<ItemError>)

  datatype Warning = HighPrice(name: Value, price: Value)

  datatype Report = Report(valid: bool, items: seq<Dict>, invalidItems: seq<Invalid>, warnings: seq<Warning>)

  const PriceWarningAbove: real := 10000.0

  /** The price as compared with a number; a missing price is 0. */
  function PriceValue(item: Dict): Value {
    Get(item, "price", Num(0.0))
  }

  /** Python compares numbers and booleans with a number; anything else raises
      `TypeError`. */
  predicate Comparable(item: Dict) {
    PriceValue(item).Num? || PriceValue(item).Bool?
  }

  function PriceNumber(item: Dict): real
    requires Comparable(item)
  {
    match PriceValue(item)
    case Num(n) => n
    case Bool(b) => if b then 1.0 else 0.0
  }

  /** Every error of one item, in the order the checks run. */
  function Errors(item: Dict): seq<ItemError>
    requires Comparable(item)
  {
    (if !Truthy(Get(item, "name", Nil)) then [NameRequired] else [])
    + (if !Truthy(Get(item, "restaurant_id", Nil)) then [RestaurantIdRequired] else [])
    + (if PriceNumber(item) <= 0.0 then [PriceNotPositive(PriceValue(item))] else [])
  }

  /** All errors are collected, not only the first: a missing name, a missing
      restaurant id and a price that is not positive each have their entry. */
  lemma ErrorsListed(item: Dict)
    requires Comparable(item)
    ensures var r := Errors(item);
      (NameRequired in r <==> !Truthy(Get(item, "name", Nil)))
      && (RestaurantIdRequired in r <==> !Truthy(Get(item, "restaurant_id", Nil)))
      && (PriceNotPositive(PriceValue(item)) in r <==> PriceNumber(item) <= 0.0)
      && (r == [] <==> Truthy(Get(item, "name", Nil)) && Truthy(Get(item, "restaurant_id", Nil))
                       && PriceNumber(item) > 0.0)
  {
  }

  predicate AllComparable(items: seq<Dict>) {
    forall i :: 0 <= i < |items| ==> Comparable(items[i])
  }

  /** The first `n` prices are comparable, checked one at a time. */
  predicate ComparableUpTo(items: seq<Dict>, n: nat)
    requires n <= |items|
  {
    n == 0 || (ComparableUpTo(items, n - 1) && Comparable(items[n - 1]))
  }

  lemma {:induction false} ComparableUpToAll(items: seq<Dict>, n: nat)
    requires n <= |items|
    ensures ComparableUpTo(items, n) <==> forall j :: 0 <= j < n ==> Comparable(items[j])
  {
    if n > 0 {
      ComparableUpToAll(items, n - 1);
    }
  }

  /** Each step of the loop, as what it appends to each of the three lists. */
  function Keep(item: Dict): Option<Dict> {
    if Comparable(item) && Errors(item) == [] then Some(item) else None
  }

  function Reject(item: Dict): Option<Invalid> {
    if Comparable(item) && Errors(item) != [] then Some(Invalid(item, Errors(item))) else None
  }

  function Warn(item: Dict): Option<Warning> {
    if Comparable(item) && PriceNumber(item) > PriceWarningAbove
    then Some(HighPrice(Get(item, "name", Nil), Get(item, "price", Nil)))
    else None
  }

  /** `verify_menu_items`: None where a price comparison raises. */
  method VerifyMenuItems(menuItems: seq<Dict>) returns (report: Option<Report>)
    ensures report.None? <==> !AllComparable(menuItems)
    ensures report.Some? ==>
      report.value.items == Collect(menuItems, Keep)
      && report.value.invalidItems == Collect(menuItems, Reject)
      && report.value.warnings == Collect(menuItems, Warn)
      && report.value.valid == (report.value.invalidItems == [])
  {
    var validItems: seq<Dict> := [];
    var invalidItems: seq<Invalid> := [];
    var warnings: seq<Warning> := [];
    for i := 0 to |menuItems|
      invariant ComparableUpTo(menuItems, i)
      invariant validItems == Collect(menuItems[..i], Keep)
      invariant invalidItems == Collect(menuItems[..i], Reject)
      invariant warnings == Collect(menuItems[..i], Warn)
    {
      if !Comparable(menuItems[i]) {
        return None;
      }
      var item := menuItems[i];
      var errors := Errors(item);
      var valid, invalid, warning := [], [], [];
      if PriceNumber(item) > PriceWarningAbove {
        warning := [HighPrice(Get(item, "name", Nil), Get(item, "price", Nil))];
      }
      if errors != [] {
        invalid := [Invalid(item, errors)];
      } else {
        valid := [item];
      }
      CheckedStep(menuItems, i, valid, invalid, warning);
      validItems := validItems + valid;
      invalidItems := invalidItems + invalid;
      warnings := warnings + warning;
    }
    assert menuItems[..|menuItems|] == menuItems;
    ComparableUpToAll(menuItems, |menuItems|);
    return Some(Report(invalidItems == [], validItems, invalidItems, warnings));
  }

  /** The lists after one more item are those before it plus what it adds. */
  lemma CheckedStep(menuItems: seq<Dict>, i: nat, valid: seq<Dict>, invalid: seq<Invalid>, warning: seq<Warning>)
    requires i < |menuItems|
    requires valid == match Keep(menuItems[i]) case None => [] case Some(y) => [y]
    requires invalid == match Reject(menuItems[i]) case None => [] case Some(y) => [y]
    requires warning == match Warn(menuItems[i]) case None => [] case Some(y) => [y]
    ensures Collect(menuItems[..i + 1], Keep) == Collect(menuItems[..i], Keep) + valid
    ensures Collect(menuItems[..i + 1], Reject) == Collect(menuItems[..i], Reject) + invalid
    ensures Collect(menuItems[..i + 1], Warn) == Collect(menuItems[..i], Warn) + warning
  {
    CollectStep(menuItems, i, Keep);
    CollectStep(menuItems, i, Reject);
    CollectStep(menuItems, i, Warn);
  }

  /** With every price comparable, each item lands in exactly one list. */
  lemma PartitionCount(menuItems: seq<Dict>)
    requires AllComparable(menuItems)
    ensures |Collect(menuItems, Keep)| + |Collect(menuItems, Reject)| == |menuItems|
  {
    CollectSplit(menuItems, Keep, Reject);
  }

  /** The valid list holds exactly the items without errors, unchanged. */
  lemma ValidListed(menuItems: seq<Dict>)
    requires AllComparable(menuItems)
    ensures forall i :: 0 <= i < |menuItems| && Errors(menuItems[i]) == [] ==>
      menuItems[i] in Collect(menuItems, Keep)
    ensures forall d :: d in Collect(menuItems, Keep) ==> Comparable(d) && Errors(d) == []
  {
    CollectSpec(menuItems, Keep);
    forall d | d in Collect(menuItems, Keep)
      ensures Comparable(d) && Errors(d) == []
    {
      var k :| 0 <= k < |Collect(menuItems, Keep)| && Collect(menuItems, Keep)[k] == d;
      assert CollectedFrom(menuItems, Keep, d);
      var i :| 0 <= i < |menuItems| && Keep(menuItems[i]) == Some(d);
      assert d == menuItems[i];
    }
  }

  /** The invalid list holds the items with errors, each with all of them. */
  lemma InvalidListed(menuItems: seq<Dict>)
    requires AllComparable(menuItems)
    ensures forall i :: 0 <= i < |menuItems| && Errors(menuItems[i]) != [] ==>
      Invalid(menuItems[i], Errors(menuItems[i])) in Collect(menuItems, Reject)
    ensures forall v :: v in Collect(menuItems, Reject) ==>
      v.errors != [] && Comparable(v.item) && v.errors == Errors(v.item)
  {
    CollectSpec(menuItems, Reject);
    forall v | v in Collect(menuItems, Reject)
      ensures v.errors != [] && Comparable(v.item) && v.errors == Errors(v.item)
    {
      var k :| 0 <= k < |Collect(menuItems, Reject)| && Collect(menuItems, Reject)[k] == v;
      assert CollectedFrom(menuItems, Reject, v);
    }
  }

  /** Every price above 10000 is warned about, whether the item is valid or
      not, and nothing else is. */
  lemma WarningsListed(menuItems: seq<Dict>)
    requires AllComparable(menuItems)
    ensures forall i :: 0 <= i < |menuItems| && PriceNumber(menuItems[i]) > PriceWarningAbove ==>
      HighPrice(Get(menuItems[i], "name", Nil), Get(menuItems[i], "price", Nil)) in Collect(menuItems, Warn)
    ensures |Collect(menuItems, Warn)| <= |menuItems|
    ensures forall w :: w in Collect(menuItems, Warn) ==>
      exists i :: 0 <= i < |menuItems| && PriceNumber(menuItems[i]) > PriceWarningAbove
                  && w == HighPrice(Get(menuItems[i], "name", Nil), Get(menuItems[i], "price", Nil))
  {
    CollectSpec(menuItems, Warn);
    forall w | w in Collect(menuItems, Warn)
      ensures exists i :: 0 <= i < |menuItems| && PriceNumber(menuItems[i]) > PriceWarningAbove
                  && w == HighPrice(Get(menuItems[i], "name", Nil), Get(menuItems[i], "price", Nil))
    {
      var k :| 0 <= k < |Collect(menuItems, Warn)| && Collect(menuItems, Warn)[k] == w;
      assert CollectedFrom(menuItems, Warn, w);
    }
  }

  /** The report is valid exactly when no item has an error. */
  lemma ValidWhenNoErrors(menuItems: seq<Dict>)
    requires AllComparable(menuItems)
    ensures Collect(menuItems, Reject) == [] <==> forall i :: 0 <= i < |menuItems| ==> Errors(menuItems[i]) == []
  {
    CollectSpec(menuItems, Reject);
    if Collect(menuItems, Reject) != [] {
      var v := Collect(menuItems, Reject)[0];
      assert CollectedFrom(menuItems, Reject, v);
    }
  }
}
