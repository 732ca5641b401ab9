/** The zod schemas of src/validation/address-validation.ts as predicates on
    the request records. */
module AddressValidation {
  import opened Common
  import opened AddressModel

  /** CREATE: a positive contact id, optional street/city/provience of 1..100
      characters, a postal code of 1..20 and a country of 1..100. */
  predicate Create(r: CreateAddressRequest) {
    && r.contact_id > 0
    && OptSized(r.street, 100)
    && OptSized(r.city, 100)
    && OptSized(r.provience, 100)
    && Sized(r.postal_code, 20)
    && Sized(r.country, 100)
  }

  /** GET: both path ids positive. */
  predicate Get(r: GetAddressRequest) {
    r.contact_id > 0 && r.address_id > 0
  }

  /** UPDATE: every field optional, each present one bounded as in CREATE. */
  predicate Update(r: UpdateAddressRequest) {
    && OptSized(r.street, 100)
    && OptSized(r.city, 100)
    && OptSized(r.provience, 100)
    && OptSized(r.country, 100)
    && OptSized(r.postal_code, 20)
  }

  /** LIST: page at least 1, size between 10 and 100. */
  predicate List(r: ListAddressRequest) {
    r.page >= 1 && 10 <= r.size <= 100
  }

  /** The request of the blank-street test is refused, though every other field is fine. */
  lemma CreateRejectsBlankStreet(contactId: int)
    ensures !Create(CreateAddressRequest(contactId, Some(""), Some("Pasuruan"), Some("East Java"), "67184", "Indonesia"))
    ensures contactId > 0 ==>
      Create(CreateAddressRequest(contactId, Some("jl. buyut sateri"), Some("Pasuruan"), Some("East Java"), "67184", "Indonesia"))
  {
  }

  /** UPDATE is CREATE without the contact id and with every field optional:
      a CREATE body passes exactly when its contact id is positive and its
      fields, all carried, pass UPDATE. */
  lemma CreateIsUpdateWithRequiredFields(r: CreateAddressRequest)
    ensures Create(r) <==>
      r.contact_id > 0 && Update(UpdateAddressRequest(r.street, r.city, r.provience, Some(r.country), Some(r.postal_code)))
  {
  }

  /** An empty PATCH body passes UPDATE; a blank field in it does not. */
  lemma UpdateAcceptsEmptyBody()
    ensures Update(UpdateAddressRequest(None, None, None, None, None))
    ensures !Update(UpdateAddressRequest(Some(""), None, None, None, None))
  {
  }

  /** The controller's defaults (page 1, size 10) pass LIST; a size below 10 does not. */
  lemma ListDefaultsAccepted()
    ensures List(ListAddressRequest(10, 1))
    ensures !List(ListAddressRequest(5, 1))
  {
  }

  /** A validated UPDATE body overwrites a field exactly when it carries that field. */
  lemma UpdateGuardsArePresence(r: UpdateAddressRequest)
    requires Update(r)
    ensures Filled(r.street) == r.street.Some? && Filled(r.city) == r.city.Some?
    ensures Filled(r.provience) == r.provience.Some? && Filled(r.country) == r.country.Some?
    ensures Filled(r.postal_code) == r.postal_code.Some?
  {
    FilledIffPresent(r.street, 100);
    FilledIffPresent(r.city, 100);
    FilledIffPresent(r.provience, 100);
    FilledIffPresent(r.country, 100);
    FilledIffPresent(r.postal_code, 20);
  }
}
