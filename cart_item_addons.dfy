/** `validate_cart_item_addon`: the ordered checks an add-on of a cart line
    passes before it is stored. A NULL column is `None`. */
module CartItemAddons {
  import opened Util
  import opened Validation

  /** The columns of a cart-item add-on row that the validator reads. */
  datatype CartItemAddon = CartItemAddon(cartItemId: Option<string>, addonId: Option<string>,
                                         quantity: Option<int>, addonPrice: Option<real>)

  const CartItemIdMissing: string := "Cart item ID must be provided"
  const AddonIdMissing: string := "Addon ID must be provided"
  const QuantityNotPositive: string := "Quantity must be greater than 0"
  const PriceNegative: string := "Addon price must be greater than or equal to 0"

  /** An add-on that can be stored: both ids, a positive quantity and a price
      that is not negative; a free add-on is allowed. */
  predicate Complete(addon: CartItemAddon) {
    addon.cartItemId.Some? && addon.addonId.Some?
    && addon.quantity.Some? && addon.quantity.value >= 1
    && addon.addonPrice.Some? && addon.addonPrice.value >= 0.0
  }

  /** The checks in their order; a valid add-on comes back unchanged. */
  function ValidateCartItemAddon(addon: CartItemAddon): (r: Checked<CartItemAddon>)
    ensures r.Valid? <==> Complete(addon)
    ensures r.Valid? ==> r.value == addon
    ensures addon.cartItemId.None? ==> r == Rejected(CartItemIdMissing)
    ensures r == Rejected(AddonIdMissing) <==> addon.cartItemId.Some? && addon.addonId.None?
    ensures r == Rejected(PriceNegative) <==>
      addon.cartItemId.Some? && addon.addonId.Some? && addon.quantity.Some? && addon.quantity.value > 0
      && (addon.addonPrice.None? || addon.addonPrice.value < 0.0)
  {
    if addon.cartItemId.None? then Rejected(CartItemIdMissing)
    else if addon.addonId.None? then Rejected(AddonIdMissing)
    else if addon.quantity.None? || addon.quantity.value <= 0 then Rejected(QuantityNotPositive)
    else if addon.addonPrice.None? || addon.addonPrice.value < 0.0 then Rejected(PriceNegative)
    else Valid(addon)
  }
}
