/** `validate_cart_item`: the ordered checks a cart line passes before it is
    stored. A NULL column is `None`. */
module CartItems {
  import opened Util
  import opened Validation

  /** The columns of a cart-item row that the validator reads. */
  datatype CartItem = CartItem(cartId: Option<string>, menuItemId: Option<string>,
                               quantity: Option<int>, basePrice: Option<real>)

  const CartIdMissing: string := "Cart ID must be provided"
  const MenuItemIdMissing: string := "Menu item ID must be provided"
  const QuantityNotPositive: string := "Quantity must be greater than 0"
  const BasePriceNotPositive: string := "Base price must be greater than 0"

  /** A line that can be stored: both ids, a positive quantity and a positive
      base price. */
  predicate Complete(item: CartItem) {
    item.cartId.Some? && item.menuItemId.Some?
    && item.quantity.Some? && item.quantity.value >= 1
    && item.basePrice.Some? && item.basePrice.value > 0.0
  }

  /** The checks in their order; a valid line comes back unchanged. */
  function ValidateCartItem(item: CartItem): (r: Checked<CartItem>)
    ensures r.Valid? <==> Complete(item)
    ensures r.Valid? ==> r.value == item
    ensures item.cartId.None? ==> r == Rejected(CartIdMissing)
    ensures r == Rejected(MenuItemIdMissing) <==> item.cartId.Some? && item.menuItemId.None?
    ensures r == Rejected(BasePriceNotPositive) <==>
      item.cartId.Some? && item.menuItemId.Some? && item.quantity.Some? && item.quantity.value > 0
      && (item.basePrice.None? || item.basePrice.value <= 0.0)
  {
    if item.cartId.None? then Rejected(CartIdMissing)
    else if item.menuItemId.None? then Rejected(MenuItemIdMissing)
    else if item.quantity.None? || item.quantity.value <= 0 then Rejected(QuantityNotPositive)
    else if item.basePrice.None? || item.basePrice.value <= 0.0 then Rejected(BasePriceNotPositive)
    else Valid(item)
  }
}
