# Contact-book service layer, modelled in Dafny

This project models the request-validation and persistence layer of a
contact-book REST backend. Users register, log in and get a session token.
With that token they create, read, update, delete and search their own
contacts, and the addresses of those contacts.

The relational store is replaced by an in-memory class, `Store.Database`,
holding three tables:

- `users`, keyed by username;
- `contacts`, keyed by `(id, username)`;
- `addresses`, keyed by `(contact_id, id)`.

Ids are taken to be autoincrement counters. `Database.Valid()` says that every row is
filed under its own key, that ids are primary keys (one row per id), and that
no two users hold the same session token.

Each service operation is a method over that database. It validates its
input, checks existence and ownership, changes the tables, and returns a
`Result` whose error is either `ValidationFailed` (status 400) or a
`ResponseError(status, message)` with the source's status and message.
Its contract states the whole new state of the tables for each outcome.

Modules, one per source file:

| module | file | models |
|---|---|---|
| `Common` | common.dfy | optional values, `Result`, the falsy-guarded patch, Prisma `contains` |
| `Page` | page.dfy | src/model/page.ts, offset windows, `Math.ceil` page counts, the address paging defect |
| `Store` | store.dfy | the three tables and their key invariants |
| `AddressModel`, `ContactModel`, `UserModel` | *_model.dfy | request/response records and the response projections |
| `AddressValidation` | address_validation.dfy | the four zod schemas of src/validation/address-validation.ts |
| `ContactValidation`, `UserValidation` | contact_validation.dfy, user_validation.dfy | the contact and user schemas, with assumed bounds |
| `ContactService`, `AddressService`, `UserService` | *_service.dfy | the three services |
| `AuthMiddleware` | auth_middleware.dfy | the X-API-TOKEN gate |

How the properties are expressed:

- **Ownership scoping.** Contacts are looked up by `(id, username)` together. `Store.ForeignContactHidden` shows that another user's contact is simply absent under the caller's key, so the caller gets the same 404.
- **Containment.** Every address operation checks the parent contact first and the `(contact_id, id)` address second.
- **Partial patch.** `Common.Overwrite` and `Common.OverwriteOpt` overwrite a field only if the patch value is present and non-empty.
- **Search.** `ContactService.Matches` is the reference meaning of a search request. `ContactService.FiltersMeanRequest` proves that the pushed filter list means exactly that.
- **Paging.** `Page.Window` models Prisma's `skip`/`take`, and `Page.CeilDiv` models `Math.ceil`.
- **Hashing and tokens.** bcrypt is the parameter `hash` and `UserService.Compare` is bcrypt.compare. uuid() is the `token` parameter of `UserService.Login`.

## Model

| member | source | states |
|---|---|---|
| `Common.Filled` | src/service/contact-service.ts:70-73 | JavaScript truthiness `if (x)` of an optional string: present and not the empty string |
| `Common.Sized` | src/validation/address-validation.ts:9-10 | zod `z.string().min(1).max(n)`: between 1 and n characters |
| `Common.OptSized` | src/validation/address-validation.ts:17-21 | the `.optional()` form: absent, or present and between 1 and n characters |
| `Common.Overwrite` | src/service/contact-service.ts:70 | a present non-empty patch replaces a required field; an absent or empty one leaves it as it was |
| `Common.OverwriteOpt` | src/service/address-service.ts:69-71 | the same guarded assignment on a nullable column |
| `Common.FilledIffPresent` | src/validation/address-validation.ts:16-22 | once an optional field has passed `min(1)`, the falsy guard is exactly a presence test |
| `Common.Contains` | src/service/contact-service.ts:113-138 | Prisma `contains`: the filter occurs as a contiguous substring of the column |
| `Common.ContainsItself` | test/contact.test.ts:235-248 | a `contains` filter on a column's whole value finds that row |
| `Page.CeilDiv` | src/service/contact-service.ts:164 | `pages * size >= total`, and one page fewer would not hold all rows |
| `Page.CeilDivIsLeast` | src/service/contact-service.ts:164 | the page count is the least k with `k * size >= total` |
| `Page.Window` | src/service/contact-service.ts:142-149 | skip/take returns at most `take` rows, row i being row `skip + i` of the input; empty once skip passes the end |
| `Page.Offset` | src/service/contact-service.ts:105 | the skip `(page-1)*size`: 0 on page 1, at least one full page on any later page |
| `Page.PagingOf` | src/service/contact-service.ts:160-167 | search paging echoes page and size and reports the least page count that holds every match |
| `Page.AddressPagingAsWritten` | src/service/address-service.ts:129-136 | address paging as written: size is the page number, total_page is the raw row count |
| `Page.AddressPagingDefect` | src/service/address-service.ts:129-136 | page 1, size 10, 25 rows: as written {size 1, total 25}; corrected {size 10, total 3} |
| `Page.AddressPagingAgreesOnlyWhen` | src/service/address-service.ts:129-136 | as written and corrected agree exactly when page equals size and the count equals its own ceiling |
| `Page.AddressPagingOvercounts` | src/service/address-service.ts:133 | with at least 2 rows and size at least 2, the written page count exceeds the real one |
| `Store.Database.Valid` | src/service/contact-service.ts:37-50 | every row is filed under its own key, contact and address ids are primary keys below their autoincrement counters, and no two users hold the same token |
| `Store.Database.constructor` | src/service/contact-service.ts:30-32 | an empty store whose autoincrement ids start at 1, satisfying `Valid()` |
| `Store.ForeignContactHidden` | src/service/contact-service.ts:41-47 | a contact owned by one user is not found under any other username |
| `Store.ForeignAddressHidden` | src/service/address-service.ts:34-41 | an address filed under one contact is not found under any other contact id |
| `AddressModel.ToAddressResponse` | src/model/address-model.ts:37-46 | id, street, city, provience, country and postal_code are copied unchanged, nulls included |
| `AddressModel.ResponseForgetsOnlyContact` | src/model/address-model.ts:3-10 | two rows give the same response exactly when they differ at most in contact_id |
| `AddressModel.ToAddressResponses` | src/service/address-service.ts:127 | the mapped list has one response per row, in order |
| `ContactModel.ToContactResponse` | src/service/contact-service.ts:34 | id and every contact field are copied; the owner is not exposed |
| `ContactModel.ToContactResponses` | src/service/contact-service.ts:161 | the mapped list has one response per row, in order |
| `UserModel.ToUserResponse` | src/service/user-service.ts:45 | the profile carries username and name, never the digest, and no token |
| `AddressValidation.Create` | src/validation/address-validation.ts:4-11 | CREATE: a positive contact_id, optional street, city and provience of 1..100 characters, postal_code 1..20 and country 1..100 |
| `AddressValidation.Get` | src/validation/address-validation.ts:12-15 | GET: both path ids positive |
| `AddressValidation.Update` | src/validation/address-validation.ts:16-22 | UPDATE: every field optional, each present one bounded as in CREATE |
| `AddressValidation.List` | src/validation/address-validation.ts:23-26 | LIST: page at least 1, size 10..100 |
| `AddressValidation.CreateIsUpdateWithRequiredFields` | src/validation/address-validation.ts:4-22 | for every request, CREATE accepts it exactly when its contact_id is positive and UPDATE accepts its fields with country and postal_code carried |
| `AddressValidation.CreateRejectsBlankStreet` | src/validation/address-validation.ts:4-11 | an empty street is refused; the test's full request passes for any positive contact id |
| `AddressValidation.UpdateAcceptsEmptyBody` | src/validation/address-validation.ts:16-22 | an empty PATCH body passes UPDATE; a blank street does not |
| `AddressValidation.ListDefaultsAccepted` | src/validation/address-validation.ts:23-26 | page 1 and size 10 pass LIST; size 5 does not |
| `AddressValidation.UpdateGuardsArePresence` | src/service/address-service.ts:69-74 | for a validated UPDATE body, each `if (field)` guard is exactly "the field is present" |
| `ContactValidation.CreateMatchesTests` | test/contact.test.ts:16-67 | the test's contact passes CREATE; a blank first name or an email without '@' is refused |
| `ContactValidation.UpdateRejectsBlank` | test/contact.test.ts:119-146 | blank first_name and phone are refused; the test's patch passes |
| `ContactValidation.SearchRejectsTests` | test/contact.test.ts:224-280 | a blank name filter or a malformed email filter is refused |
| `ContactValidation.SearchAcceptsTests` | test/contact.test.ts:203-267 | the default query and the paging test's email query pass |
| `ContactValidation.UpdateGuardsArePresence` | src/service/contact-service.ts:70-73 | for a validated UPDATE body, each `if (field)` guard is exactly "the field is present" |
| `UserValidation.SchemasMatchTests` | test/user.test.ts:10-125 | blank registration and blank update are refused; the tests' valid requests pass |
| `ContactService.Create` | src/service/contact-service.ts:16-35 | invalid input gives 400 and no change; otherwise stores the request fields with username = caller under a fresh id, and answers with them |
| `ContactService.CheckContactMustExist` | src/service/contact-service.ts:37-50 | succeeds iff `(id, username)` is stored, returning a row with that id and owner; otherwise 404 "Contact not found" |
| `ContactService.GetById` | src/service/contact-service.ts:52-56 | answers with the caller's contact `id`, or 404 when the caller has none |
| `ContactService.Update` | src/service/contact-service.ts:58-84 | 400 and no change before any lookup; 404 and no change when missing; otherwise only present non-empty fields change, id and owner kept |
| `ContactService.Delete` | src/service/contact-service.ts:86-95 | 404 and no change when missing; otherwise removes exactly `(id, username)` and answers with its last state |
| `ContactService.Search` | src/service/contact-service.ts:97-168 | 400 on invalid input; otherwise the `(page-1)*size` window of the caller's matching contacts, and paging with the rounded-up page count |
| `ContactService.Satisfies` | src/service/contact-service.ts:109-140 | one pushed filter: the name filter holds when first_name or a non-null last_name contains it; email and phone hold only for a non-null column that contains them |
| `ContactService.SatisfiesAll` | src/service/contact-service.ts:142-146 | Prisma `AND: filters`: every pushed filter holds; an empty list imposes nothing |
| `ContactService.Matches` | src/service/contact-service.ts:107-145 | the reference meaning of a search request: each present non-empty filter holds; omitted filters impose nothing |
| `ContactService.SearchResults` | src/service/contact-service.ts:142-146 | the caller's contacts that match the request, in ascending id order, before skip and take |
| `ContactService.FiltersMeanRequest` | src/service/contact-service.ts:107-140 | the pushed `AND` list holds of a contact exactly when every filter the request carries holds; omitted filters impose nothing |
| `ContactService.SearchResultsSound` | src/service/contact-service.ts:142-149 | every match is a stored contact of the caller that satisfies the request, in strictly ascending id order |
| `ContactService.SearchResultsComplete` | src/service/contact-service.ts:142-149 | every stored contact of the caller that satisfies the request is a match |
| `ContactService.SearchPageSound` | src/service/contact-service.ts:105-149 | a search page has at most `size` contacts, each owned by the caller and satisfying every present filter |
| `ContactService.SearchPagingExample` | test/contact.test.ts:250-267 | 20 matches with size 5: a full first page of 5 and total_page 4 |
| `AddressService.Create` | src/service/address-service.ts:18-32 | 400 before the lookup; 404 and nothing inserted without the caller's contact; otherwise stores the fields under that contact_id and a fresh id |
| `AddressService.CheckAddressMustExist` | src/service/address-service.ts:33-43 | succeeds iff `(contact_id, id)` is stored; otherwise 404 "Address not found" |
| `AddressService.Get` | src/service/address-service.ts:44-55 | 400, then 404 "Contact not found" when the caller lacks the contact, then 404 "Address not found"; success iff all three checks pass |
| `AddressService.Update` | src/service/address-service.ts:56-85 | same checks in the same order, none changing the store; then only present non-empty fields change, id and contact_id kept |
| `AddressService.Delete` | src/service/address-service.ts:86-106 | same checks; then removes exactly `(contact_id, id)`, keeps every other address, answers with the row's last state |
| `AddressService.List` | src/service/address-service.ts:107-137 | 400, then 404; otherwise the `(page-1)*size` window of the contact's addresses, with the paging record as written |
| `AddressService.AddressesOf` | src/service/address-service.ts:112-126 | the contact's addresses in ascending id order; its length is the `count` used for paging |
| `AddressService.AddressesOfSound` | src/service/address-service.ts:112-119 | every listed address is a stored address of that contact, in ascending id order |
| `AddressService.AddressesOfComplete` | src/service/address-service.ts:112-119 | every stored address of the contact is listed |
| `AddressService.ListPageSound` | src/service/address-service.ts:111-119 | a list page has at most `size` addresses, all of that contact, starting at offset `(page-1)*size` |
| `UserService.Register` | src/service/user-service.ts:18-46 | 400 on invalid input; 400 "username already exists" and no change on a taken name; otherwise stores `hash(password)` and answers username and name |
| `UserService.Login` | src/service/user-service.ts:49-89 | an unknown username and a wrong password give the same 401 and no change; success stores the token on that user only and returns it |
| `UserService.Get` | src/service/user-service.ts:91-93 | the profile of the given user; the store is not read |
| `UserService.Update` | src/service/user-service.ts:95-112 | 400 and no change on invalid input; name and digest replaced only when present non-empty; username and token kept |
| `UserService.Logout` | src/service/user-service.ts:113-123 | the caller's token becomes null and nothing else changes |
| `UserService.Compare` | src/service/user-service.ts:65-68 | bcrypt.compare: the presented password is accepted exactly when its digest is the stored one |
| `UserService.RegisterThenLogin` | test/user.test.ts:10-125 | once registration succeeds (valid request, username free), logging in with the same username and password succeeds and returns that user's name and the new token |
| `AuthMiddleware.HoldsToken` | src/middleware/aut-middleware.ts:16-20 | the `findFirst` lookup: some stored user holds exactly this token |
| `AuthMiddleware.Authenticate` | src/middleware/aut-middleware.ts:5-36 | passes iff the header is present, non-empty and held by a stored user, yielding that stored user; otherwise 401 "unauthorized" |
| `AuthMiddleware.LoginGrants` | src/service/user-service.ts:75-83 | a fresh token stored by login authenticates that user and nobody else, and tokens stay unique |
| `AuthMiddleware.LogoutRevokes` | src/service/user-service.ts:113-122 | once logout clears a user's token, that token authenticates nobody |

## Findings

| source | as written | input that shows it | evidently intended | confidence | as-written member | corrected member |
|---|---|---|---|---|---|---|
| src/service/address-service.ts:129-136 | `size: requestValidate.page` and `total_page: total_address` | page 1, size 10, a contact with 25 addresses: paging {size 1, total_page 25, current_page 1} | {size 10, total_page ceil(25/10) = 3, current_page 1}, as contact search computes it | high; not executed | `Page.AddressPagingDefect` | `Page.PagingOf` |

`AddressService.List` returns the record as written (`Page.AddressPagingAsWritten`).
The corrected record is `Page.PagingOf`, which `ContactService.Search` already uses.
Replacing the one call in `List` applies the fix.

## Left out

- Prisma and the database. The tables are in-memory maps. `findMany` without `orderBy` is taken to return rows in ascending id order. Prisma's `contains` follows the database collation, which is not modelled: `contains` is a case-sensitive substring test.
- Database errors. The model has no Prisma failure path. Because of that, `UserService.Update` and `UserService.Logout` require that the user row exists, which the auth gate guarantees for its callers. `UserService.Update` also requires that row to equal the given user.
- Schema referential actions (src/prisma is not part of this model). Deleting a contact removes only the contact row. Its addresses stay stored but can no longer be reached, because every address operation checks the contact first.
- src/validation/contact-validation.ts, src/validation/user-validation.ts, src/model/contact-model.ts and src/model/user-model.ts are not part of this model. Their predicates and records use assumed rules, pinned only by what the tests expect. The assumed bounds are listed below.
- ContactValidation.Create: assumed bounds are first_name 1..100 characters, last_name 1..100, email at most 100 and of the shape below, and phone 1..20. The tests pin only that a blank first_name and an email without '@' are refused.
- ContactValidation.Update: assumed bounds are the CREATE bounds with every field optional. The tests pin only that the pair first_name "" and phone "" is refused.
- ContactValidation.Search: assumed bounds are name 1..100, email as in CREATE, phone 1..20, page at least 1 and size 1..100. The tests pin only that a blank name and a malformed email are refused.
- ContactValidation.UpdateGuardsArePresence: for last_name, email and phone it rests on the assumed minimum length 1, because the tests shown do not pin those minimums.
- UserValidation.Register: assumed bounds are username, password and name each 1..100 characters. The tests pin only that an all-blank request is refused.
- UserValidation.Login: the whole LOGIN schema is assumed, with username and password each 1..100 characters.
- UserValidation.Update: assumed bounds are name and password optional, each 1..100 characters. The tests pin only that an all-blank request is refused.
- Store.Database: the Prisma schema is not part of this model, so autoincrement ids are an assumption. `Valid()` requires every contact and address id to lie below its counter. The claim above that orphaned addresses become unreachable also depends on it.
- ContactValidation.IsEmail: zod's email check is simplified to "an '@' after a non-empty local part, and a dot inside the domain".
- The zod error middleware is not modelled. A schema failure is `ValidationFailed` (status 400) with no field messages.
- JavaScript numbers. Ids, page and size are integers. `NaN` from `Number(...)` on a bad path segment, fractional ids and explicit `null` body fields are not represented. zod's `.optional()` refuses `null`, and `Option` cannot express it.
- String lengths are counted in characters, not UTF-16 code units.
- bcrypt salting and its 72-byte truncation. `hash` is a fixed function, and comparison is equality with its output, so collisions remain possible.
- UserService.Login: the uuid is a parameter required to be non-empty and held by no user. uuid v4 gives that in practice.
- Express controllers, routing and bootstrap. Their only logic is the defaults page = 1 and size = 10, which are values of the request records (`AddressValidation.ListDefaultsAccepted`, `ContactValidation.SearchAcceptsTests`).
- The `if (!addresses)` and `if (!contacts)` checks after `findMany`. They cannot fail because `findMany` returns an array.
- Concurrency between requests (last write wins). Each method is one atomic step.
