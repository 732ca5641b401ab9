/** The request and response shapes of src/model/address-model.ts and the
    projection from a stored address row to the response. */
module AddressModel {
  import opened Common
  import opened Store

  /** What the API returns for an address: the row without its contact_id. */
  datatype AddressResponse = AddressResponse(
    id: int,
    street: Option<string>,
    city: Option<string>,
    provience: Option<string>,
    postal_code: string,
    country: string)

  /** The contact_id comes from the path, the other fields from the body. */
  datatype CreateAddressRequest = CreateAddressRequest(
    contact_id: int,
    street: Option<string>,
    city: Option<string>,
    provience: Option<string>,
    postal_code: string,
    country: string)

  datatype GetAddressRequest = GetAddressRequest(contact_id: int, address_id: int)

  /** Every field may be omitted (None). */
  datatype UpdateAddressRequest = UpdateAddressRequest(
    street: Option<string>,
    city: Option<string>,
    provience: Option<string>,
    country: Option<string>,
    postal_code: Option<string>)

  /** The controller fills in page 1 and size 10 when the query omits them. */
  datatype ListAddressRequest = ListAddressRequest(size: int, page: int)

  function ToAddressResponse(a: Address): (r: AddressResponse)
    ensures r.id == a.id
    ensures r.street == a.street && r.city == a.city && r.provience == a.provience
    ensures r.country == a.country && r.postal_code == a.postal_code
  {
    AddressResponse(a.id, a.street, a.city, a.provience, a.postal_code, a.country)
  }

  /** The response keeps every column except contact_id: two rows give the
      same response exactly when they differ at most in their contact. */
  lemma ResponseForgetsOnlyContact(a: Address, b: Address)
    ensures ToAddressResponse(a) == ToAddressResponse(b) <==> a.(contact_id := b.contact_id) == b
  {
  }

  /** `addresses.map(toAddressResponse)`. */
  function ToAddressResponses(rows: seq<Address>): (rs: seq<AddressResponse>)
    ensures |rs| == |rows|
    ensures forall i | 0 <= i < |rows| :: rs[i] == ToAddressResponse(rows[i])
  {
    seq(|rows|, i requires 0 <= i < |rows| => ToAddressResponse(rows[i]))
  }
}
