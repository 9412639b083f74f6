/** The cart reducer of the web front end: adding, removing and re-counting
    items, clearing and loading the cart, with the two totals recomputed after
    every edit. Saving to local storage is left out; JavaScript numbers are
    reals here (rounding is not modelled) and quantities are whole numbers. */
module CartContext {
  import opened Util

  datatype CartItem = CartItem(id: string, name: string, price: real, quantity: int)

  datatype Cart = Cart(items: seq<CartItem>, totalAmount: real, totalItems: real)

  datatype Action =
    | AddItem(payload: CartItem)
    | RemoveItem(id: string)
    | UpdateQuantity(id: string, quantity: int)
    | ClearCart
    | LoadCart(cart: Cart)
    | Other(kind: string)

  const InitialState: Cart := Cart([], 0.0, 0.0)

  // ------------------------------------------------------------ totals

  /** The sum of `f` over the items, as `reduce` computes it. */
  function Sum(items: seq<CartItem>, f: CartItem -> real): real {
    if items == [] then 0.0 else f(items[0]) + Sum(items[1..], f)
  }

  function Quantity(item: CartItem): real {
    item.quantity as real
  }

  function Amount(item: CartItem): real {
    item.price * item.quantity as real
  }

  /** A cart whose totals are those of its items. */
  ghost predicate Consistent(cart: Cart) {
    cart.totalItems == Sum(cart.items, Quantity) && cart.totalAmount == Sum(cart.items, Amount)
  }

  /** A cart with these items and their totals. */
  function WithTotals(items: seq<CartItem>): (r: Cart)
    ensures r.items == items && Consistent(r)
  {
    Cart(items, Sum(items, Amount), Sum(items, Quantity))
  }

  lemma {:induction false} SumAppend(items: seq<CartItem>, x: CartItem, f: CartItem -> real)
    ensures Sum(items + [x], f) == Sum(items, f) + f(x)
    decreases |items|
  {
    if items != [] {
      assert (items + [x])[1..] == items[1..] + [x];
      SumAppend(items[1..], x, f);
    }
  }

  lemma {:induction false} SumUpdate(items: seq<CartItem>, i: nat, x: CartItem, f: CartItem -> real)
    requires i < |items|
    ensures Sum(items[i := x], f) == Sum(items, f) - f(items[i]) + f(x)
    decreases |items|
  {
    if i > 0 {
      assert items[i := x][1..] == items[1..][i - 1 := x];
      SumUpdate(items[1..], i - 1, x, f);
    } else {
      assert items[i := x][1..] == items[1..];
    }
  }

  // ------------------------------------------------------------ lookups

  /** `findIndex`: the first position with the id. */
  function FindIndex(items: seq<CartItem>, id: string): (r: Option<nat>)
    ensures r.Some? ==> r.value < |items| && items[r.value].id == id
                        && forall j :: 0 <= j < r.value ==> items[j].id != id
    ensures r.None? <==> forall j :: 0 <= j < |items| ==> items[j].id != id
  {
    if items == [] then None
    else if items[0].id == id then Some(0)
    else
      match FindIndex(items[1..], id)
      case None => None
      case Some(k) => Some(k + 1)
  }

  /** `filter(item => item.id !== id)`. */
  function WithoutId(items: seq<CartItem>, id: string): (r: seq<CartItem>)
    ensures |r| <= |items|
  {
    if items == [] then []
    else (if items[0].id != id then [items[0]] else []) + WithoutId(items[1..], id)
  }

  /** `map(item => item.id === id ? { ...item, quantity } : item)`. */
  function SetQuantity(items: seq<CartItem>, id: string, quantity: int): (r: seq<CartItem>)
    ensures |r| == |items|
    ensures forall j :: 0 <= j < |items| ==>
      r[j] == if items[j].id == id then items[j].(quantity := quantity) else items[j]
  {
    if items == [] then []
    else [if items[0].id == id then items[0].(quantity := quantity) else items[0]]
         + SetQuantity(items[1..], id, quantity)
  }

  /** No two entries share an id. */
  predicate UniqueIds(items: seq<CartItem>) {
    forall j, k :: 0 <= j < k < |items| ==> items[j].id != items[k].id
  }

  // ------------------------------------------------------------ the reducer

  /** `cartReducer`. */
  function Reduce(state: Cart, action: Action): Cart {
    match action
    case AddItem(payload) =>
      (match FindIndex(state.items, payload.id)
       case Some(i) =>
         WithTotals(state.items[i := state.items[i].(quantity := state.items[i].quantity + payload.quantity)])
       case None => WithTotals(state.items + [payload]))
    case RemoveItem(id) =>
      (match FindIndex(state.items, id)
       case None => state
       case Some(i) =>
         if state.items[i].quantity == 1 then WithTotals(WithoutId(state.items, id))
         else WithTotals(state.items[i := state.items[i].(quantity := state.items[i].quantity - 1)]))
    case UpdateQuantity(id, quantity) =>
      if quantity <= 0 then state else WithTotals(SetQuantity(state.items, id, quantity))
    case ClearCart => InitialState
    case LoadCart(cart) => cart
    case Other(_) => state
  }

  /** From a cart whose totals match its items, every edit leaves totals that
      match: an applied edit recomputes them, and an ignored one (an absent id,
      a quantity of 0 or less) returns the cart as it was; clearing gives the
      empty cart. */
  lemma EditsKeepTotals(state: Cart, action: Action)
    requires action.AddItem? || action.RemoveItem? || action.UpdateQuantity? || action.ClearCart?
    requires Consistent(state)
    ensures Consistent(Reduce(state, action))
  {
  }

  /** Adding an id already in the cart adds the quantity to that entry in
      place and leaves every other entry and the order alone; the item count
      grows by the quantity added and the amount by that quantity at the
      entry's price. */
  lemma AddExistingItem(state: Cart, payload: CartItem, i: nat)
    requires FindIndex(state.items, payload.id) == Some(i)
    ensures var r := Reduce(state, AddItem(payload));
      |r.items| == |state.items|
      && r.items[i] == state.items[i].(quantity := state.items[i].quantity + payload.quantity)
      && (forall j :: 0 <= j < |state.items| && j != i ==> r.items[j] == state.items[j])
      && r.totalItems == Sum(state.items, Quantity) + payload.quantity as real
      && r.totalAmount == Sum(state.items, Amount) + state.items[i].price * payload.quantity as real
  {
    var x := state.items[i].(quantity := state.items[i].quantity + payload.quantity);
    assert Reduce(state, AddItem(payload)) == WithTotals(state.items[i := x]);
    SumUpdate(state.items, i, x, Quantity);
    SumUpdate(state.items, i, x, Amount);
    Distribute(state.items[i].price, state.items[i].quantity, payload.quantity);
  }

  lemma Distribute(p: real, a: int, b: int)
    ensures p * (a + b) as real == p * a as real + p * b as real
  {
  }

  /** A new id is appended as given; the totals grow by its quantity and its
      amount. */
  lemma AddNewItem(state: Cart, payload: CartItem)
    requires forall j :: 0 <= j < |state.items| ==> state.items[j].id != payload.id
    ensures var r := Reduce(state, AddItem(payload));
      r.items == state.items + [payload]
      && r.totalItems == Sum(state.items, Quantity) + payload.quantity as real
      && r.totalAmount == Sum(state.items, Amount) + payload.price * payload.quantity as real
  {
    SumAppend(state.items, payload, Quantity);
    SumAppend(state.items, payload, Amount);
  }

  /** Adding keeps the ids unique. */
  lemma AddItemKeepsIdsUnique(state: Cart, payload: CartItem)
    requires UniqueIds(state.items)
    ensures UniqueIds(Reduce(state, AddItem(payload)).items)
  {
    var r := Reduce(state, AddItem(payload));
    if FindIndex(state.items, payload.id).None? {
      forall j, k | 0 <= j < k < |r.items|
        ensures r.items[j].id != r.items[k].id
      {
        if k == |state.items| {
          assert r.items[j] == state.items[j];
        } else {
          assert r.items[j] == state.items[j] && r.items[k] == state.items[k];
        }
      }
    }
  }

  /** Removing an id that is not in the cart returns the state as it was. */
  lemma RemoveAbsent(state: Cart, id: string)
    requires forall j :: 0 <= j < |state.items| ==> state.items[j].id != id
    ensures Reduce(state, RemoveItem(id)) == state
  {
  }

  /** With unique ids, removing deletes an entry of quantity 1 and decrements
      any other by exactly 1, touching no other entry; the item count drops by
      one and the amount by the entry's price. */
  lemma RemoveItemEffect(state: Cart, id: string, i: nat)
    requires UniqueIds(state.items) && i < |state.items| && state.items[i].id == id
    ensures var r := Reduce(state, RemoveItem(id));
      (state.items[i].quantity == 1 ==> r.items == state.items[..i] + state.items[i + 1..])
      && (state.items[i].quantity != 1 ==>
            r.items == state.items[i := state.items[i].(quantity := state.items[i].quantity - 1)])
      && r.totalItems == Sum(state.items, Quantity) - 1.0
      && r.totalAmount == Sum(state.items, Amount) - state.items[i].price
  {
    var x := state.items[i].(quantity := state.items[i].quantity - 1);
    if state.items[i].quantity == 1 {
      WithoutUnique(state.items, i);
      var rest := state.items[..i] + state.items[i + 1..];
      SumUpdate(state.items, i, x, Quantity);
      SumUpdate(state.items, i, x, Amount);
      DropZero(state.items, i, x);
      assert Amount(x) == 0.0 && Quantity(x) == 0.0;
    } else {
      SumUpdate(state.items, i, x, Quantity);
      SumUpdate(state.items, i, x, Amount);
    }
  }

  /** With unique ids the filter removes exactly the one entry. */
  lemma {:induction false} WithoutUnique(items: seq<CartItem>, i: nat)
    requires UniqueIds(items) && i < |items|
    ensures WithoutId(items, items[i].id) == items[..i] + items[i + 1..]
    decreases |items|
  {
    var id := items[i].id;
    var tail := items[1..];
    if i == 0 {
      KeepAll(tail, id);
      assert WithoutId(items, id) == WithoutId(tail, id);
      assert items[..0] + items[1..] == tail;
    } else {
      assert items[0].id != id;
      assert tail[i - 1] == items[i];
      UniqueTail(items);
      WithoutUnique(tail, i - 1);
      assert WithoutId(items, id) == [items[0]] + WithoutId(tail, id);
      DropInTail(items, i);
    }
  }

  lemma UniqueTail(items: seq<CartItem>)
    requires UniqueIds(items) && items != []
    ensures UniqueIds(items[1..])
  {
    var tail := items[1..];
    forall j, k | 0 <= j < k < |tail|
      ensures tail[j].id != tail[k].id
    {
      assert tail[j] == items[j + 1] && tail[k] == items[k + 1];
    }
  }

  /** Dropping entry `i - 1` of the tail is dropping entry `i`. */
  lemma DropInTail(items: seq<CartItem>, i: nat)
    requires 0 < i < |items|
    ensures [items[0]] + (items[1..][..i - 1] + items[1..][i..]) == items[..i] + items[i + 1..]
  {
    assert items[1..][..i - 1] == items[1..i];
    assert items[1..][i..] == items[i + 1..];
    assert items[..i] == [items[0]] + items[1..i];
  }

  lemma {:induction false} KeepAll(items: seq<CartItem>, id: string)
    requires forall j :: 0 <= j < |items| ==> items[j].id != id
    ensures WithoutId(items, id) == items
    decreases |items|
  {
    if items != [] {
      KeepAll(items[1..], id);
    }
  }

  /** Dropping an entry whose quantity has fallen to zero does not change the
      sums. */
  lemma DropZero(items: seq<CartItem>, i: nat, x: CartItem)
    requires i < |items| && x.quantity == 0
    ensures Sum(items[..i] + items[i + 1..], Quantity) == Sum(items[i := x], Quantity)
    ensures Sum(items[..i] + items[i + 1..], Amount) == Sum(items[i := x], Amount)
  {
    SumSplit(items[..i], [x] + items[i + 1..], Quantity);
    SumSplit(items[..i], [x] + items[i + 1..], Amount);
    SumSplit(items[..i], items[i + 1..], Quantity);
    SumSplit(items[..i], items[i + 1..], Amount);
    assert items[i := x] == items[..i] + ([x] + items[i + 1..]);
  }

  lemma {:induction false} SumSplit(a: seq<CartItem>, b: seq<CartItem>, f: CartItem -> real)
    ensures Sum(a + b, f) == Sum(a, f) + Sum(b, f)
    decreases |a|
  {
    if a != [] {
      assert (a + b)[0] == a[0] && (a + b)[1..] == a[1..] + b;
      SumSplit(a[1..], b, f);
    } else {
      assert a + b == b;
    }
  }

  /** Removing keeps the ids unique. */
  lemma RemoveItemKeepsIdsUnique(state: Cart, id: string)
    requires UniqueIds(state.items)
    ensures UniqueIds(Reduce(state, RemoveItem(id)).items)
  {
    var r := Reduce(state, RemoveItem(id));
    match FindIndex(state.items, id)
    case None =>
    case Some(i) =>
      if state.items[i].quantity == 1 {
        WithoutUnique(state.items, i);
        forall j, k | 0 <= j < k < |r.items|
          ensures r.items[j].id != r.items[k].id
        {
          var j', k' := if j < i then j else j + 1, if k < i then k else k + 1;
          assert r.items[j] == state.items[j'] && r.items[k] == state.items[k'];
        }
      }
  }

  /** A quantity that is not positive is ignored. */
  lemma UpdateIgnoresNonPositive(state: Cart, id: string, quantity: int)
    requires quantity <= 0
    ensures Reduce(state, UpdateQuantity(id, quantity)) == state
  {
  }

  /** Otherwise only the entries with the id get the new quantity; the rest are
      unchanged, and with unique ids the count moves by the difference. */
  lemma UpdateQuantityEffect(state: Cart, id: string, quantity: int, i: nat)
    requires quantity > 0 && UniqueIds(state.items) && i < |state.items| && state.items[i].id == id
    ensures var r := Reduce(state, UpdateQuantity(id, quantity));
      r.items == state.items[i := state.items[i].(quantity := quantity)]
      && r.totalItems == Sum(state.items, Quantity) - state.items[i].quantity as real + quantity as real
      && r.totalAmount == Sum(state.items, Amount) - Amount(state.items[i]) + state.items[i].price * quantity as real
  {
    var x := state.items[i].(quantity := quantity);
    assert SetQuantity(state.items, id, quantity) == state.items[i := x];
    SumUpdate(state.items, i, x, Quantity);
    SumUpdate(state.items, i, x, Amount);
  }

  /** Clearing gives the empty cart, loading gives the cart loaded, and any
      other action changes nothing. */
  lemma WholeCartActions(state: Cart, cart: Cart, kind: string)
    ensures Reduce(state, ClearCart) == Cart([], 0.0, 0.0) && Consistent(Reduce(state, ClearCart))
    ensures Reduce(state, LoadCart(cart)) == cart
    ensures Reduce(state, Other(kind)) == state
  {
  }
}
