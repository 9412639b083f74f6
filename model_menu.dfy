/** `ValidateMenuItem`: a menu item needs its restaurant, a name and a price
    that is not negative. An error is the text it carries; `None` is `nil`. */
module ModelMenu {
  import opened Util

  /** The fields of a menu item that the validator reads. */
  datatype MenuItem = MenuItem(restaurantId: string, name: string, description: string, price: real,
                               imagePath: string, isActive: bool)

  /** An item that can be stored: a restaurant, a name and a price of at least
      zero; the description, image and flag are not checked. */
  predicate Complete(item: MenuItem) {
    item.restaurantId != "" && item.name != "" && item.price >= 0.0
  }

  function ValidateMenuItem(item: MenuItem): (err: Option<string>)
    ensures err.None? <==> Complete(item)
    ensures item.restaurantId == "" ==> err == Some("restaurant id is required")
    ensures err == Some("price must be non-negative") <==>
      item.restaurantId != "" && item.name != "" && item.price < 0.0
  {
    if item.restaurantId == "" then Some("restaurant id is required")
    else if item.name == "" then Some("name is required")
    else if item.price < 0.0 then Some("price must be non-negative")
    else None
  }
}
