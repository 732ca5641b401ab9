/** An in-memory stand-in for the relational store behind the services: the
    three tables (User, Contact, Address) and the invariants their keys keep. */
module Store {
  import opened Common

  /** A row of the user table. `password` holds the bcrypt digest, `token` the
      session token (null until login, null again after logout). */
  datatype User = User(username: string, name: string, password: string, token: Option<string>)

  /** A row of the contact table, owned by the user named `username`. */
  datatype Contact = Contact(
    id: int,
    first_name: string,
    last_name: Option<string>,
    email: Option<string>,
    phone: Option<string>,
    username: string)

  /** A row of the address table, owned by the contact `contact_id`. */
  datatype Address = Address(
    id: int,
    contact_id: int,
    street: Option<string>,
    city: Option<string>,
    provience: Option<string>,
    country: string,
    postal_code: string)

  /** Every user row is filed under its own username. */
  ghost predicate UsersKeyed(users: map<string, User>) {
    forall u | u in users :: users[u].username == u
  }

  /** No two users hold the same session token. */
  ghost predicate TokensUnique(users: map<string, User>) {
    forall u, v | u in users && v in users && users[u].token.Some? && users[u].token == users[v].token :: u == v
  }

  /** Contact rows are filed under (id, owner), with autoincrement ids below `next`. */
  ghost predicate ContactsKeyed(contacts: map<(int, string), Contact>, next: int) {
    forall k | k in contacts :: contacts[k].id == k.0 && contacts[k].username == k.1 && 0 < k.0 < next
  }

  /** The contact id is the primary key: one row per id. */
  ghost predicate ContactIdsUnique(contacts: map<(int, string), Contact>) {
    forall k, j | k in contacts && j in contacts && k.0 == j.0 :: k == j
  }

  /** Address rows are filed under (contact_id, id), with autoincrement ids below `next`. */
  ghost predicate AddressesKeyed(addresses: map<(int, int), Address>, next: int) {
    forall k | k in addresses :: addresses[k].contact_id == k.0 && addresses[k].id == k.1 && 0 < k.1 < next
  }

  /** The address id is the primary key: one row per id. */
  ghost predicate AddressIdsUnique(addresses: map<(int, int), Address>) {
    forall k, j | k in addresses && j in addresses && k.1 == j.1 :: k == j
  }

  class Database {
    var users: map<string, User>
    var contacts: map<(int, string), Contact>
    var addresses: map<(int, int), Address>
    var nextContactId: int
    var nextAddressId: int

    ghost predicate Valid()
      reads this
    {
      && UsersKeyed(users)
      && TokensUnique(users)
      && ContactsKeyed(contacts, nextContactId)
      && ContactIdsUnique(contacts)
      && AddressesKeyed(addresses, nextAddressId)
      && AddressIdsUnique(addresses)
      && nextContactId >= 1
      && nextAddressId >= 1
    }

    /** An empty database whose autoincrement ids start at 1. */
    constructor ()
      ensures Valid()
      ensures users == map[] && contacts == map[] && addresses == map[]
      ensures nextContactId == 1 && nextAddressId == 1
    {
      users := map[];
      contacts := map[];
      addresses := map[];
      nextContactId := 1;
      nextAddressId := 1;
    }
  }

  /** Because ids are primary keys, a contact owned by `owner` is not filed
      under any other username: looking it up as someone else finds nothing. */
  lemma ForeignContactHidden(contacts: map<(int, string), Contact>, id: int, owner: string, other: string)
    requires ContactIdsUnique(contacts)
    requires (id, owner) in contacts
    requires other != owner
    ensures (id, other) !in contacts
  {
  }

  /** Likewise an address filed under one contact is not filed under another. */
  lemma ForeignAddressHidden(addresses: map<(int, int), Address>, contactId: int, id: int, other: int)
    requires AddressIdsUnique(addresses)
    requires (contactId, id) in addresses
    requires other != contactId
    ensures (other, id) !in addresses
  {
  }
}
