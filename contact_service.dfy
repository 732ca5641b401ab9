/** The operations of src/service/contact-service.ts over the contact table.
    Every lookup is by (id, owner) together, so another user's contact cannot
    be told apart from a missing one. */
module ContactService {
  import opened Common
  import opened Store
  import opened Page
  import opened ContactModel
  import ContactValidation

  /** One entry of the search's `AND` list. */
  datatype Filter =
    | NameFilter(name: string)
    | EmailFilter(email: string)
    | PhoneFilter(phone: string)

  /** Prisma's reading of one filter; a null column matches no `contains`. */
  predicate Satisfies(c: Contact, f: Filter) {
    match f
    case NameFilter(n) => Contains(c.first_name, n) || (c.last_name.Some? && Contains(c.last_name.value, n))
    case EmailFilter(e) => c.email.Some? && Contains(c.email.value, e)
    case PhoneFilter(p) => c.phone.Some? && Contains(c.phone.value, p)
  }

  /** `AND: filters`: every filter holds (the empty list holds of every row). */
  predicate SatisfiesAll(c: Contact, filters: seq<Filter>) {
    forall i | 0 <= i < |filters| :: Satisfies(c, filters[i])
  }

  /** What a search request asks of a contact: each filter it carries, none
      that it omits. */
  predicate Matches(c: Contact, request: SearchContactRequest) {
    && (Filled(request.name) ==> Satisfies(c, NameFilter(request.name.value)))
    && (Filled(request.email) ==> Satisfies(c, EmailFilter(request.email.value)))
    && (Filled(request.phone) ==> Satisfies(c, PhoneFilter(request.phone.value)))
  }

  /** The contacts of `username` with id below `bound` that match the request,
      in ascending id order (the order findMany returns without orderBy). */
  function SearchResults(contacts: map<(int, string), Contact>, username: string,
                         request: SearchContactRequest, bound: int): seq<Contact>
    decreases bound
  {
    if bound <= 1 then []
    else
      var k := (bound - 1, username);
      SearchResults(contacts, username, request, bound - 1)
        + if k in contacts && Matches(contacts[k], request) then [contacts[k]] else []
  }

  /** Every search result is a stored contact of the caller that matches the
      request, and results come in strictly ascending id order. */
  lemma {:induction false} SearchResultsSound(contacts: map<(int, string), Contact>, username: string,
                                              request: SearchContactRequest, bound: int, next: int)
    requires ContactsKeyed(contacts, next)
    ensures forall i | 0 <= i < |SearchResults(contacts, username, request, bound)| ::
      var c := SearchResults(contacts, username, request, bound)[i];
      && c.username == username && Matches(c, request) && 0 < c.id < bound
      && (c.id, username) in contacts && contacts[(c.id, username)] == c
    ensures forall i, j | 0 <= i < j < |SearchResults(contacts, username, request, bound)| ::
      SearchResults(contacts, username, request, bound)[i].id < SearchResults(contacts, username, request, bound)[j].id
    decreases bound
  {
    if bound > 1 {
      SearchResultsSound(contacts, username, request, bound - 1, next);
    }
  }

  /** Every stored contact of the caller below the bound that matches the
      request is among the results. */
  lemma {:induction false} SearchResultsComplete(contacts: map<(int, string), Contact>, username: string,
                                                 request: SearchContactRequest, bound: int, id: int)
    requires (id, username) in contacts && 0 < id < bound
    requires Matches(contacts[(id, username)], request)
    ensures contacts[(id, username)] in SearchResults(contacts, username, request, bound)
    decreases bound
  {
    if id < bound - 1 {
      SearchResultsComplete(contacts, username, request, bound - 1, id);
    }
  }

  /** Every contact on a search page belongs to the caller and matches every
      filter the request carries; the page holds at most `size` of them. */
  lemma SearchPageSound(contacts: map<(int, string), Contact>, next: int, username: string,
                        request: SearchContactRequest)
    requires ContactsKeyed(contacts, next)
    requires request.page >= 1 && request.size >= 1
    ensures var page := Window(SearchResults(contacts, username, request, next), Offset(request.page, request.size), request.size);
      && |page| <= request.size
      && forall i | 0 <= i < |page| ::
           page[i].username == username && Matches(page[i], request) && (page[i].id, username) in contacts
  {
    SearchResultsSound(contacts, username, request, next, next);
  }

  /** The search of the paging test: 20 matching contacts, size 5, page 1 gives
      a full first page of 5 and 4 pages in all. */
  lemma SearchPagingExample(matching: seq<Contact>)
    requires |matching| == 20
    ensures |Window(matching, Offset(1, 5), 5)| == 5
    ensures PagingOf(1, 5, |matching|) == Paging(5, 4, 1)
  {
  }

  method Create(db: Database, user: User, request: CreateContactRequest) returns (r: Result<ContactResponse>)
    requires db.Valid()
    modifies db
    ensures db.Valid()
    ensures db.users == old(db.users) && db.addresses == old(db.addresses)
    ensures db.nextAddressId == old(db.nextAddressId)
    ensures !ContactValidation.Create(request) ==>
      r == Err(ValidationFailed) && db.contacts == old(db.contacts) && db.nextContactId == old(db.nextContactId)
    ensures ContactValidation.Create(request) ==>
      var id := old(db.nextContactId);
      var c := Contact(id, request.first_name, request.last_name, request.email, request.phone, user.username);
      && (id, user.username) !in old(db.contacts)
      && db.contacts == old(db.contacts)[(id, user.username) := c]
      && db.nextContactId == id + 1
      && r == Ok(ContactResponse(id, request.first_name, request.last_name, request.email, request.phone))
  {
    if !ContactValidation.Create(request) {
      return Err(ValidationFailed);
    }
    var id := db.nextContactId;
    var record := Contact(id, request.first_name, request.last_name, request.email, request.phone, user.username);
    db.contacts := db.contacts[(id, user.username) := record];
    db.nextContactId := id + 1;
    r := Ok(ToContactResponse(record));
  }

  /** The lookup every contact and address operation starts with. */
  method CheckContactMustExist(db: Database, username: string, id: int) returns (r: Result<Contact>)
    requires db.Valid()
    ensures r.Ok? <==> (id, username) in db.contacts
    ensures r.Ok? ==> r.value == db.contacts[(id, username)] && r.value.id == id && r.value.username == username
    ensures r.Err? ==> r.error == ResponseError(404, "Contact not found")
  {
    var key := (id, username);
    if key !in db.contacts {
      return Err(ResponseError(404, "Contact not found"));
    }
    r := Ok(db.contacts[key]);
  }

  method GetById(db: Database, user: User, id: int) returns (r: Result<ContactResponse>)
    requires db.Valid()
    ensures r.Ok? <==> (id, user.username) in db.contacts
    ensures r.Ok? ==> r.value == ToContactResponse(db.contacts[(id, user.username)]) && r.value.id == id
    ensures r.Err? ==> r.error == ResponseError(404, "Contact not found")
  {
    var found := CheckContactMustExist(db, user.username, id);
    if found.Err? {
      return Err(found.error);
    }
    r := Ok(ToContactResponse(found.value));
  }

  /** Validates, looks the contact up, then overwrites only the fields the
      request carries non-blank; id and owner are kept. */
  method Update(db: Database, user: User, request: UpdateContactRequest, id: int) returns (r: Result<ContactResponse>)
    requires db.Valid()
    modifies db
    ensures db.Valid()
    ensures db.users == old(db.users) && db.addresses == old(db.addresses)
    ensures db.nextContactId == old(db.nextContactId) && db.nextAddressId == old(db.nextAddressId)
    ensures !ContactValidation.Update(request) ==> r == Err(ValidationFailed) && db.contacts == old(db.contacts)
    ensures ContactValidation.Update(request) && (id, user.username) !in old(db.contacts) ==>
      r == Err(ResponseError(404, "Contact not found")) && db.contacts == old(db.contacts)
    ensures ContactValidation.Update(request) && (id, user.username) in old(db.contacts) ==>
      var before := old(db.contacts)[(id, user.username)];
      var after := Contact(
        id,
        Overwrite(before.first_name, request.first_name),
        OverwriteOpt(before.last_name, request.last_name),
        OverwriteOpt(before.email, request.email),
        OverwriteOpt(before.phone, request.phone),
        user.username);
      && db.contacts == old(db.contacts)[(id, user.username) := after]
      && r == Ok(ToContactResponse(after))
  {
    if !ContactValidation.Update(request) {
      return Err(ValidationFailed);
    }
    var found := CheckContactMustExist(db, user.username, id);
    if found.Err? {
      return Err(found.error);
    }
    var contact := found.value;
    if Filled(request.first_name) { contact := contact.(first_name := request.first_name.value); }
    if Filled(request.last_name) { contact := contact.(last_name := request.last_name); }
    if Filled(request.email) { contact := contact.(email := request.email); }
    if Filled(request.phone) { contact := contact.(phone := request.phone); }
    db.contacts := db.contacts[(id, user.username) := contact];
    r := Ok(ToContactResponse(contact));
  }

  /** Removes exactly the caller's contact `id` and answers with its last state. */
  method Delete(db: Database, user: User, id: int) returns (r: Result<ContactResponse>)
    requires db.Valid()
    modifies db
    ensures db.Valid()
    ensures db.users == old(db.users) && db.addresses == old(db.addresses)
    ensures db.nextContactId == old(db.nextContactId) && db.nextAddressId == old(db.nextAddressId)
    ensures (id, user.username) !in old(db.contacts) ==>
      r == Err(ResponseError(404, "Contact not found")) && db.contacts == old(db.contacts)
    ensures (id, user.username) in old(db.contacts) ==>
      && db.contacts == old(db.contacts) - {(id, user.username)}
      && r == Ok(ToContactResponse(old(db.contacts)[(id, user.username)]))
  {
    var found := CheckContactMustExist(db, user.username, id);
    if found.Err? {
      return Err(found.error);
    }
    var contact := found.value;
    db.contacts := db.contacts - {(contact.id, contact.username)};
    r := Ok(ToContactResponse(contact));
  }

  /** Builds the filter list, collects the caller's matching contacts, and
      answers with the requested page and the page count rounded up. */
  method Search(db: Database, user: User, request: SearchContactRequest)
    returns (r: Result<PageableContacts<ContactResponse>>)
    requires db.Valid()
    ensures !ContactValidation.Search(request) ==> r == Err(ValidationFailed)
    ensures ContactValidation.Search(request) ==>
      var matching := SearchResults(db.contacts, user.username, request, db.nextContactId);
      r == Ok(PageableContacts(
        ToContactResponses(Window(matching, Offset(request.page, request.size), request.size)),
        PagingOf(request.page, request.size, |matching|)))
  {
    if !ContactValidation.Search(request) {
      return Err(ValidationFailed);
    }
    var skip := Offset(request.page, request.size);

    var filters: seq<Filter> := [];
    if Filled(request.name) {
      filters := filters + [NameFilter(request.name.value)];
    }
    if Filled(request.email) {
      filters := filters + [EmailFilter(request.email.value)];
    }
    if Filled(request.phone) {
      filters := filters + [PhoneFilter(request.phone.value)];
    }
    FiltersMeanRequest(request, filters);

    var matching: seq<Contact> := [];
    var id := 1;
    while id < db.nextContactId
      invariant 1 <= id <= db.nextContactId
      invariant matching == SearchResults(db.contacts, user.username, request, id)
    {
      var key := (id, user.username);
      if key in db.contacts && SatisfiesAll(db.contacts[key], filters) {
        matching := matching + [db.contacts[key]];
      }
      id := id + 1;
    }

    r := Ok(PageableContacts(
      ToContactResponses(Window(matching, skip, request.size)),
      PagingOf(request.page, request.size, |matching|)));
  }

  /** The filter list the search pushes holds of a contact exactly when the
      contact matches the request. */
  lemma FiltersMeanRequest(request: SearchContactRequest, filters: seq<Filter>)
    requires filters ==
      (if Filled(request.name) then [NameFilter(request.name.value)] else [])
      + (if Filled(request.email) then [EmailFilter(request.email.value)] else [])
      + (if Filled(request.phone) then [PhoneFilter(request.phone.value)] else [])
    ensures forall c :: SatisfiesAll(c, filters) <==> Matches(c, request)
  {
    var byName := if Filled(request.name) then [NameFilter(request.name.value)] else [];
    var byEmail := if Filled(request.email) then [EmailFilter(request.email.value)] else [];
    var byPhone := if Filled(request.phone) then [PhoneFilter(request.phone.value)] else [];
    assert filters == byName + byEmail + byPhone;
    forall c ensures SatisfiesAll(c, filters) <==> Matches(c, request) {
      SatisfiesAllAppend(c, byName + byEmail, byPhone);
      SatisfiesAllAppend(c, byName, byEmail);
      if Filled(request.name) { SatisfiesAllSingle(c, NameFilter(request.name.value)); }
      if Filled(request.email) { SatisfiesAllSingle(c, EmailFilter(request.email.value)); }
      if Filled(request.phone) { SatisfiesAllSingle(c, PhoneFilter(request.phone.value)); }
    }
  }

  lemma SatisfiesAllAppend(c: Contact, a: seq<Filter>, b: seq<Filter>)
    ensures SatisfiesAll(c, a + b) <==> SatisfiesAll(c, a) && SatisfiesAll(c, b)
  {
    if SatisfiesAll(c, a) && SatisfiesAll(c, b) {
      forall i | 0 <= i < |a + b| ensures Satisfies(c, (a + b)[i]) {
        if i >= |a| { assert (a + b)[i] == b[i - |a|]; }
      }
    }
    if SatisfiesAll(c, a + b) {
      forall i | 0 <= i < |a| ensures Satisfies(c, a[i]) {
        assert (a + b)[i] == a[i];
      }
      forall i | 0 <= i < |b| ensures Satisfies(c, b[i]) {
        assert (a + b)[|a| + i] == b[i];
      }
    }
  }

  lemma SatisfiesAllSingle(c: Contact, f: Filter)
    ensures SatisfiesAll(c, [f]) <==> Satisfies(c, f)
  {
    assert [f][0] == f;
  }
}
