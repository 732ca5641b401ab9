/** The request and response shapes of the contact endpoints. The source of
    src/model/contact-model.ts is not part of this model; its response is taken
    to be the stored row without its owner, as the tests read it. */
module ContactModel {
  import opened Common
  import opened Store

  datatype ContactResponse = ContactResponse(
    id: int,
    first_name: string,
    last_name: Option<string>,
    email: Option<string>,
    phone: Option<string>)

  datatype CreateContactRequest = CreateContactRequest(
    first_name: string,
    last_name: Option<string>,
    email: Option<string>,
    phone: Option<string>)

  /** Every field may be omitted (None). */
  datatype UpdateContactRequest = UpdateContactRequest(
    first_name: Option<string>,
    last_name: Option<string>,
    email: Option<string>,
    phone: Option<string>)

  /** Optional filters; the controller fills in page 1 and size 10 when the query omits them. */
  datatype SearchContactRequest = SearchContactRequest(
    name: Option<string>,
    email: Option<string>,
    phone: Option<string>,
    page: int,
    size: int)

  function ToContactResponse(c: Contact): (r: ContactResponse)
    ensures r.id == c.id && r.first_name == c.first_name
    ensures r.last_name == c.last_name && r.email == c.email && r.phone == c.phone
  {
    ContactResponse(c.id, c.first_name, c.last_name, c.email, c.phone)
  }

  /** `contacts.map(toContactResponse)`. */
  function ToContactResponses(rows: seq<Contact>): (rs: seq<ContactResponse>)
    ensures |rs| == |rows|
    ensures forall i | 0 <= i < |rows| :: rs[i] == ToContactResponse(rows[i])
  {
    seq(|rows|, i requires 0 <= i < |rows| => ToContactResponse(rows[i]))
  }
}
