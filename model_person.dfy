/** The person fields that users and restaurants share. */
module ModelPerson {

  datatype Person = Person(name: string, email: string, phone: string, authProvider: string)
}
