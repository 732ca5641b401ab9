/** The operations of src/service/address-service.ts over the address table.
    Each one validates first, then checks that the caller owns the parent
    contact, then (for get, update and delete) that the address is filed under
    that contact: an address is only reachable through its own contact. */
module AddressService {
  import opened Common
  import opened Store
  import opened Page
  import opened AddressModel
  import AddressValidation
  import ContactService

  /** The addresses of contact `contactId` with id below `bound`, in ascending
      id order (the order findMany returns without orderBy). */
  function AddressesOf(addresses: map<(int, int), Address>, contactId: int, bound: int): seq<Address>
    decreases bound
  {
    if bound <= 1 then []
    else
      var k := (contactId, bound - 1);
      AddressesOf(addresses, contactId, bound - 1) + if k in addresses then [addresses[k]] else []
  }

  /** Every listed address is a stored address of that contact, in strictly
      ascending id order. */
  lemma {:induction false} AddressesOfSound(addresses: map<(int, int), Address>, contactId: int, bound: int, next: int)
    requires AddressesKeyed(addresses, next)
    ensures forall i | 0 <= i < |AddressesOf(addresses, contactId, bound)| ::
      var a := AddressesOf(addresses, contactId, bound)[i];
      && a.contact_id == contactId && 0 < a.id < bound
      && (contactId, a.id) in addresses && addresses[(contactId, a.id)] == a
    ensures forall i, j | 0 <= i < j < |AddressesOf(addresses, contactId, bound)| ::
      AddressesOf(addresses, contactId, bound)[i].id < AddressesOf(addresses, contactId, bound)[j].id
    decreases bound
  {
    if bound > 1 {
      AddressesOfSound(addresses, contactId, bound - 1, next);
    }
  }

  /** Every stored address of the contact below the bound is listed. */
  lemma {:induction false} AddressesOfComplete(addresses: map<(int, int), Address>, contactId: int, bound: int, id: int)
    requires (contactId, id) in addresses && 0 < id < bound
    ensures addresses[(contactId, id)] in AddressesOf(addresses, contactId, bound)
    decreases bound
  {
    if id < bound - 1 {
      AddressesOfComplete(addresses, contactId, bound - 1, id);
    }
  }

  /** Every address on a list page is filed under the listed contact; the
      page holds at most `size` of them, taken from offset (page - 1) * size. */
  lemma ListPageSound(addresses: map<(int, int), Address>, next: int, contactId: int, request: ListAddressRequest)
    requires AddressesKeyed(addresses, next)
    requires request.page >= 1 && request.size >= 0
    ensures var all := AddressesOf(addresses, contactId, next);
      var page := Window(all, Offset(request.page, request.size), request.size);
      && |page| <= request.size
      && forall i | 0 <= i < |page| ::
           page[i].contact_id == contactId && (contactId, page[i].id) in addresses
           && page[i] == all[(request.page - 1) * request.size + i]
  {
    AddressesOfSound(addresses, contactId, next, next);
  }

  method Create(db: Database, user: User, request: CreateAddressRequest) returns (r: Result<AddressResponse>)
    requires db.Valid()
    modifies db
    ensures db.Valid()
    ensures db.users == old(db.users) && db.contacts == old(db.contacts)
    ensures db.nextContactId == old(db.nextContactId)
    ensures !AddressValidation.Create(request) ==>
      r == Err(ValidationFailed) && db.addresses == old(db.addresses) && db.nextAddressId == old(db.nextAddressId)
    ensures AddressValidation.Create(request) && (request.contact_id, user.username) !in db.contacts ==>
      r == Err(ResponseError(404, "Contact not found"))
      && db.addresses == old(db.addresses) && db.nextAddressId == old(db.nextAddressId)
    ensures AddressValidation.Create(request) && (request.contact_id, user.username) in db.contacts ==>
      var id := old(db.nextAddressId);
      var a := Address(id, request.contact_id, request.street, request.city, request.provience,
                       request.country, request.postal_code);
      && (request.contact_id, id) !in old(db.addresses)
      && db.addresses == old(db.addresses)[(request.contact_id, id) := a]
      && db.nextAddressId == id + 1
      && r == Ok(AddressResponse(id, request.street, request.city, request.provience,
                                 request.postal_code, request.country))
  {
    if !AddressValidation.Create(request) {
      return Err(ValidationFailed);
    }
    var owner := ContactService.CheckContactMustExist(db, user.username, request.contact_id);
    if owner.Err? {
      return Err(owner.error);
    }
    var id := db.nextAddressId;
    var address := Address(id, request.contact_id, request.street, request.city, request.provience,
                           request.country, request.postal_code);
    db.addresses := db.addresses[(request.contact_id, id) := address];
    db.nextAddressId := id + 1;
    r := Ok(ToAddressResponse(address));
  }

  /** The composite lookup by (contact_id, id). */
  method CheckAddressMustExist(db: Database, contactId: int, addressId: int) returns (r: Result<Address>)
    requires db.Valid()
    ensures r.Ok? <==> (contactId, addressId) in db.addresses
    ensures r.Ok? ==> r.value == db.addresses[(contactId, addressId)]
    ensures r.Ok? ==> r.value.contact_id == contactId && r.value.id == addressId
    ensures r.Err? ==> r.error == ResponseError(404, "Address not found")
  {
    var key := (contactId, addressId);
    if key !in db.addresses {
      return Err(ResponseError(404, "Address not found"));
    }
    r := Ok(db.addresses[key]);
  }

  method Get(db: Database, user: User, request: GetAddressRequest) returns (r: Result<AddressResponse>)
    requires db.Valid()
    ensures !AddressValidation.Get(request) ==> r == Err(ValidationFailed)
    ensures AddressValidation.Get(request) && (request.contact_id, user.username) !in db.contacts ==>
      r == Err(ResponseError(404, "Contact not found"))
    ensures (AddressValidation.Get(request) && (request.contact_id, user.username) in db.contacts
      && (request.contact_id, request.address_id) !in db.addresses) ==>
      r == Err(ResponseError(404, "Address not found"))
    ensures r.Ok? <==>
      AddressValidation.Get(request)
      && (request.contact_id, user.username) in db.contacts
      && (request.contact_id, request.address_id) in db.addresses
    ensures r.Ok? ==>
      r.value == ToAddressResponse(db.addresses[(request.contact_id, request.address_id)])
      && r.value.id == request.address_id
  {
    if !AddressValidation.Get(request) {
      return Err(ValidationFailed);
    }
    var owner := ContactService.CheckContactMustExist(db, user.username, request.contact_id);
    if owner.Err? {
      return Err(owner.error);
    }
    var found := CheckAddressMustExist(db, request.contact_id, request.address_id);
    if found.Err? {
      return Err(found.error);
    }
    r := Ok(ToAddressResponse(found.value));
  }

  /** Validates the path ids and the body, checks contact then address, and
      overwrites only the fields the body carries non-blank. */
  method Update(db: Database, user: User, request: UpdateAddressRequest, requestId: GetAddressRequest)
    returns (r: Result<AddressResponse>)
    requires db.Valid()
    modifies db
    ensures db.Valid()
    ensures db.users == old(db.users) && db.contacts == old(db.contacts)
    ensures db.nextContactId == old(db.nextContactId) && db.nextAddressId == old(db.nextAddressId)
    ensures !AddressValidation.Get(requestId) || !AddressValidation.Update(request) ==>
      r == Err(ValidationFailed) && db.addresses == old(db.addresses)
    ensures (AddressValidation.Get(requestId) && AddressValidation.Update(request)
      && (requestId.contact_id, user.username) !in db.contacts) ==>
      r == Err(ResponseError(404, "Contact not found")) && db.addresses == old(db.addresses)
    ensures (AddressValidation.Get(requestId) && AddressValidation.Update(request)
      && (requestId.contact_id, user.username) in db.contacts
      && (requestId.contact_id, requestId.address_id) !in old(db.addresses)) ==>
      r == Err(ResponseError(404, "Address not found")) && db.addresses == old(db.addresses)
    ensures (AddressValidation.Get(requestId) && AddressValidation.Update(request)
      && (requestId.contact_id, user.username) in db.contacts
      && (requestId.contact_id, requestId.address_id) in old(db.addresses)) ==>
      var key := (requestId.contact_id, requestId.address_id);
      var before := old(db.addresses)[key];
      var after := Address(
        requestId.address_id,
        requestId.contact_id,
        OverwriteOpt(before.street, request.street),
        OverwriteOpt(before.city, request.city),
        OverwriteOpt(before.provience, request.provience),
        Overwrite(before.country, request.country),
        Overwrite(before.postal_code, request.postal_code));
      && db.addresses == old(db.addresses)[key := after]
      && r == Ok(ToAddressResponse(after))
  {
    if !AddressValidation.Get(requestId) || !AddressValidation.Update(request) {
      return Err(ValidationFailed);
    }
    var owner := ContactService.CheckContactMustExist(db, user.username, requestId.contact_id);
    if owner.Err? {
      return Err(owner.error);
    }
    var found := CheckAddressMustExist(db, requestId.contact_id, requestId.address_id);
    if found.Err? {
      return Err(found.error);
    }
    var address := found.value;
    if Filled(request.street) { address := address.(street := request.street); }
    if Filled(request.city) { address := address.(city := request.city); }
    if Filled(request.provience) { address := address.(provience := request.provience); }
    if Filled(request.country) { address := address.(country := request.country.value); }
    if Filled(request.postal_code) { address := address.(postal_code := request.postal_code.value); }
    assert address == Address(
      requestId.address_id,
      requestId.contact_id,
      OverwriteOpt(found.value.street, request.street),
      OverwriteOpt(found.value.city, request.city),
      OverwriteOpt(found.value.provience, request.provience),
      Overwrite(found.value.country, request.country),
      Overwrite(found.value.postal_code, request.postal_code));
    db.addresses := db.addresses[(requestId.contact_id, requestId.address_id) := address];
    r := Ok(ToAddressResponse(address));
  }

  /** Removes exactly the (contact_id, id) row and answers with its last state. */
  method Delete(db: Database, user: User, request: GetAddressRequest) returns (r: Result<AddressResponse>)
    requires db.Valid()
    modifies db
    ensures db.Valid()
    ensures db.users == old(db.users) && db.contacts == old(db.contacts)
    ensures db.nextContactId == old(db.nextContactId) && db.nextAddressId == old(db.nextAddressId)
    ensures !AddressValidation.Get(request) ==> r == Err(ValidationFailed) && db.addresses == old(db.addresses)
    ensures AddressValidation.Get(request) && (request.contact_id, user.username) !in db.contacts ==>
      r == Err(ResponseError(404, "Contact not found")) && db.addresses == old(db.addresses)
    ensures (AddressValidation.Get(request) && (request.contact_id, user.username) in db.contacts
      && (request.contact_id, request.address_id) !in old(db.addresses)) ==>
      r == Err(ResponseError(404, "Address not found")) && db.addresses == old(db.addresses)
    ensures (AddressValidation.Get(request) && (request.contact_id, user.username) in db.contacts
      && (request.contact_id, request.address_id) in old(db.addresses)) ==>
      var key := (request.contact_id, request.address_id);
      && db.addresses == old(db.addresses) - {key}
      && r == Ok(ToAddressResponse(old(db.addresses)[key]))
  {
    if !AddressValidation.Get(request) {
      return Err(ValidationFailed);
    }
    var owner := ContactService.CheckContactMustExist(db, user.username, request.contact_id);
    if owner.Err? {
      return Err(owner.error);
    }
    var found := CheckAddressMustExist(db, request.contact_id, request.address_id);
    if found.Err? {
      return Err(found.error);
    }
    db.addresses := db.addresses - {(request.contact_id, request.address_id)};
    r := Ok(ToAddressResponse(found.value));
  }

  /** Validates the paging request, checks the contact, then answers with one
      page of its addresses. The paging record is built as the source writes
      it (see Page.AddressPagingAsWritten). */
  method List(db: Database, user: User, contactId: int, request: ListAddressRequest)
    returns (r: Result<PageableAddresses<AddressResponse>>)
    requires db.Valid()
    ensures !AddressValidation.List(request) ==> r == Err(ValidationFailed)
    ensures AddressValidation.List(request) && (contactId, user.username) !in db.contacts ==>
      r == Err(ResponseError(404, "Contact not found"))
    ensures AddressValidation.List(request) && (contactId, user.username) in db.contacts ==>
      var all := AddressesOf(db.addresses, contactId, db.nextAddressId);
      r == Ok(PageableAddresses(
        ToAddressResponses(Window(all, Offset(request.page, request.size), request.size)),
        AddressPagingAsWritten(request.page, request.size, |all|)))
  {
    if !AddressValidation.List(request) {
      return Err(ValidationFailed);
    }
    var owner := ContactService.CheckContactMustExist(db, user.username, contactId);
    if owner.Err? {
      return Err(owner.error);
    }
    var skip := Offset(request.page, request.size);

    var all: seq<Address> := [];
    var id := 1;
    while id < db.nextAddressId
      invariant 1 <= id <= db.nextAddressId
      invariant all == AddressesOf(db.addresses, contactId, id)
    {
      var key := (contactId, id);
      if key in db.addresses {
        all := all + [db.addresses[key]];
      }
      id := id + 1;
    }

    r := Ok(PageableAddresses(
      ToAddressResponses(Window(all, skip, request.size)),
      AddressPagingAsWritten(request.page, request.size, |all|)));
  }
}
