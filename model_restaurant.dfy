/** `ValidateRestaurant`: a restaurant needs a name, an email, a phone number
    and a sign-in provider, each on its own. An error is the text it carries;
    `None` is `nil`. */
module ModelRestaurant {
  import opened Util
  import opened ModelPerson
  import ModelUser

  datatype Restaurant = Restaurant(person: Person, imagePath: string, menuPath: string)

  /** A restaurant that can be stored: all four person fields given. */
  predicate Complete(restaurant: Restaurant) {
    restaurant.person.name != "" && restaurant.person.email != "" && restaurant.person.phone != ""
    && restaurant.person.authProvider != ""
  }

  function ValidateRestaurant(restaurant: Restaurant): (err: Option<string>)
    ensures err.None? <==> Complete(restaurant)
    ensures restaurant.person.name == "" ==> err == Some("name is required")
    ensures err == Some("phone is required") <==>
      restaurant.person.name != "" && restaurant.person.email != "" && restaurant.person.phone == ""
  {
    if restaurant.person.name == "" then Some("name is required")
    else if restaurant.person.email == "" then Some("email is required")
    else if restaurant.person.phone == "" then Some("phone is required")
    else if restaurant.person.authProvider == "" then Some("auth provider is required")
    else None
  }

  /** The same person fields pass the user check whenever they pass the
      restaurant check, and a person with only an email passes the first and
      not the second. */
  lemma StricterThanUser(person: Person, id: string, imagePath: string, menuPath: string)
    ensures ValidateRestaurant(Restaurant(person, imagePath, menuPath)).None? ==>
            ModelUser.ValidateUser(ModelUser.User(id, person)).None?
    ensures person.name != "" && person.email != "" && person.phone == "" && person.authProvider != "" ==>
      ModelUser.ValidateUser(ModelUser.User(id, person)).None?
      && ValidateRestaurant(Restaurant(person, imagePath, menuPath)) == Some("phone is required")
  {
  }
}
