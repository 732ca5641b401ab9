/** The contact schemas. src/validation/contact-validation.ts is not part of
    this model: these predicates use assumed bounds (a required first name,
    optional fields of bounded length, an email of the shape local@domain.tld)
    and the lemmas below pin them to what the tests assert. */
module ContactValidation {
  import opened Common
  import opened ContactModel

  /** A '.' with characters on both sides. */
  predicate HasInnerDot(s: string) {
    exists i | 0 < i < |s| - 1 :: s[i] == '.'
  }

  /** local@domain: a non-empty local part, an '@', a dotted domain after it. */
  predicate IsEmail(s: string) {
    exists i | 0 < i < |s| :: s[i] == '@' && HasInnerDot(s[i + 1..])
  }

  predicate OptEmail(o: Option<string>) {
    o.Some? ==> Sized(o.value, 100) && IsEmail(o.value)
  }

  /** CREATE: first name 1..100; last name, email and phone optional. */
  predicate Create(r: CreateContactRequest) {
    && Sized(r.first_name, 100)
    && OptSized(r.last_name, 100)
    && OptEmail(r.email)
    && OptSized(r.phone, 20)
  }

  /** UPDATE: the CREATE rules with every field optional. */
  predicate Update(r: UpdateContactRequest) {
    && OptSized(r.first_name, 100)
    && OptSized(r.last_name, 100)
    && OptEmail(r.email)
    && OptSized(r.phone, 20)
  }

  /** SEARCH: optional non-blank filters, page at least 1, size 1..100. */
  predicate Search(r: SearchContactRequest) {
    && OptSized(r.name, 100)
    && OptEmail(r.email)
    && OptSized(r.phone, 20)
    && r.page >= 1
    && 1 <= r.size <= 100
  }

  /** The create tests: a full request passes, a blank first name or an email
      without '@' is refused. */
  lemma CreateMatchesTests()
    ensures Create(CreateContactRequest("tado", Some("STI"), Some("muh.murtadlo23@gmail.com"), Some("082412842")))
    ensures !Create(CreateContactRequest("", Some("STI"), Some("muh.murtadlo23@gmail.com"), Some("082412842")))
    ensures !Create(CreateContactRequest("tado", Some("STI"), Some("muh.murtadlo23"), Some("082412842")))
  {
    var e := "muh.murtadlo23@gmail.com";
    assert e[14] == '@' && e[15..] == "gmail.com";
    assert "gmail.com"[5] == '.';
  }

  /** The update test: a body whose fields are all blank is refused. */
  lemma UpdateRejectsBlank()
    ensures !Update(UpdateContactRequest(Some(""), None, None, Some("")))
    ensures Update(UpdateContactRequest(Some("tado"), None, None, Some("082146796695")))
  {
  }

  /** The search tests: a blank name or a malformed email is refused. */
  lemma SearchRejectsTests()
    ensures !Search(SearchContactRequest(Some(""), None, None, 1, 10))
    ensures !Search(SearchContactRequest(None, Some("ewwefwef"), None, 1, 10))
  {
    var e := "ewwefwef";
    assert forall i | 0 <= i < |e| :: e[i] != '@';
  }

  /** The search tests: the defaults pass, and so does the paging test's email filter. */
  lemma SearchAcceptsTests()
    ensures Search(SearchContactRequest(None, None, None, 1, 10))
    ensures Search(SearchContactRequest(None, Some("tado.userfighter@gmail.com"), None, 1, 5))
  {
    var e := "tado.userfighter@gmail.com";
    assert e[16] == '@' && e[17..] == "gmail.com";
    assert "gmail.com"[5] == '.';
  }

  /** A validated UPDATE body overwrites a field exactly when it carries that field. */
  lemma UpdateGuardsArePresence(r: UpdateContactRequest)
    requires Update(r)
    ensures Filled(r.first_name) == r.first_name.Some? && Filled(r.last_name) == r.last_name.Some?
    ensures Filled(r.email) == r.email.Some? && Filled(r.phone) == r.phone.Some?
  {
    FilledIffPresent(r.first_name, 100);
    FilledIffPresent(r.last_name, 100);
    FilledIffPresent(r.phone, 20);
  }
}
