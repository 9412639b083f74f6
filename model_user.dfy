/** `ValidateUser`: a user needs a name, some way to be reached (an email or a
    phone number) and a sign-in provider. An error is the text it carries;
    `None` is `nil`. */
module ModelUser {
  import opened Util
  import opened ModelPerson

  datatype User = User(id: string, person: Person)

  /** A user that can be stored: a name, an email or a phone, and a provider. */
  predicate Complete(user: User) {
    user.person.name != "" && (user.person.email != "" || user.person.phone != "")
    && user.person.authProvider != ""
  }

  function ValidateUser(user: User): (err: Option<string>)
    ensures err.None? <==> Complete(user)
    ensures user.person.name == "" ==> err == Some("name is required")
    ensures err == Some("either email or phone is required") <==>
      user.person.name != "" && user.person.email == "" && user.person.phone == ""
  {
    if user.person.name == "" then Some("name is required")
    else if user.person.email == "" && user.person.phone == "" then Some("either email or phone is required")
    else if user.person.authProvider == "" then Some("auth provider is required")
    else None
  }
}
