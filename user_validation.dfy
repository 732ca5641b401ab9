/** The user schemas. src/validation/user-validation.ts is not part of this
    model: these predicates use assumed bounds (non-blank fields of at most
    100 characters) and the lemmas pin them to what the tests assert. */
module UserValidation {
  import opened Common
  import opened UserModel

  /** REGISTER: username, password and name, each 1..100 characters. */
  predicate Register(r: CreateUserRequest) {
    Sized(r.username, 100) && Sized(r.password, 100) && Sized(r.name, 100)
  }

  /** LOGIN: username and password, each 1..100 characters. */
  predicate Login(r: LoginUserRequest) {
    Sized(r.username, 100) && Sized(r.password, 100)
  }

  /** UPDATE: name and password optional, each 1..100 characters when present. */
  predicate Update(r: UpdateUserRequest) {
    OptSized(r.name, 100) && OptSized(r.password, 100)
  }

  /** The tests: an all-blank registration or update is refused, the fixture's is accepted. */
  lemma SchemasMatchTests()
    ensures !Register(CreateUserRequest("", "", ""))
    ensures Register(CreateUserRequest("test", "test", "Muhmurtado"))
    ensures !Update(UpdateUserRequest(Some(""), Some("")))
    ensures Update(UpdateUserRequest(Some("cihuuuy"), None))
  {
  }
}
