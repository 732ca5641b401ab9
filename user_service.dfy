/** The operations of src/service/user-service.ts over the user table.
    bcrypt is the parameter `hash` (a fixed one-way function; `Compare` is
    bcrypt.compare) and uuid() is the parameter `token` of Login. */
module UserService {
  import opened Common
  import opened Store
  import opened UserModel
  import UserValidation

  /** The one message for an unknown username and for a wrong password. */
  const WrongCredentials: string := "username or password is wrong"

  /** bcrypt.compare: the stored digest is the digest of the presented password. */
  predicate Compare(hash: string -> string, password: string, digest: string) {
    hash(password) == digest
  }

  method Register(db: Database, hash: string -> string, request: CreateUserRequest) returns (r: Result<UserResponse>)
    requires db.Valid()
    modifies db
    ensures db.Valid()
    ensures db.contacts == old(db.contacts) && db.addresses == old(db.addresses)
    ensures db.nextContactId == old(db.nextContactId) && db.nextAddressId == old(db.nextAddressId)
    ensures !UserValidation.Register(request) ==> r == Err(ValidationFailed) && db.users == old(db.users)
    ensures UserValidation.Register(request) && request.username in old(db.users) ==>
      r == Err(ResponseError(400, "username already exists")) && db.users == old(db.users)
    ensures UserValidation.Register(request) && request.username !in old(db.users) ==>
      && db.users == old(db.users)[request.username := User(request.username, request.name, hash(request.password), None)]
      && r == Ok(UserResponse(request.username, request.name, None))
  {
    if !UserValidation.Register(request) {
      return Err(ValidationFailed);
    }
    if request.username in db.users {
      return Err(ResponseError(400, "username already exists"));
    }
    var user := User(request.username, request.name, hash(request.password), None);
    db.users := db.users[request.username := user];
    r := Ok(ToUserResponse(user));
  }

  /** Checks the credentials and stores the fresh token on that user only. */
  method Login(db: Database, hash: string -> string, request: LoginUserRequest, token: string)
    returns (r: Result<UserResponse>)
    requires db.Valid()
    requires token != ""
    requires forall u | u in db.users :: db.users[u].token != Some(token)
    modifies db
    ensures db.Valid()
    ensures db.contacts == old(db.contacts) && db.addresses == old(db.addresses)
    ensures db.nextContactId == old(db.nextContactId) && db.nextAddressId == old(db.nextAddressId)
    ensures !UserValidation.Login(request) ==> r == Err(ValidationFailed) && db.users == old(db.users)
    ensures (UserValidation.Login(request)
      && !(request.username in old(db.users) && Compare(hash, request.password, old(db.users)[request.username].password))) ==>
      r == Err(ResponseError(401, WrongCredentials)) && db.users == old(db.users)
    ensures (UserValidation.Login(request)
      && request.username in old(db.users) && Compare(hash, request.password, old(db.users)[request.username].password)) ==>
      var before := old(db.users)[request.username];
      && db.users == old(db.users)[request.username := before.(token := Some(token))]
      && r == Ok(UserResponse(before.username, before.name, Some(token)))
  {
    if !UserValidation.Login(request) {
      return Err(ValidationFailed);
    }
    if request.username !in db.users {
      return Err(ResponseError(401, WrongCredentials));
    }
    var user := db.users[request.username];
    if !Compare(hash, request.password, user.password) {
      return Err(ResponseError(401, WrongCredentials));
    }
    user := user.(token := Some(token));
    db.users := db.users[request.username := user];
    var response := ToUserResponse(user);
    r := Ok(response.(token := user.token));
  }

  /** The profile of the authenticated user; the store is not consulted. */
  function Get(user: User): (r: UserResponse)
    ensures r.username == user.username && r.name == user.name && r.token == None
  {
    ToUserResponse(user)
  }

  /** Overwrites the name and the digest only when the request carries them
      non-blank, then writes the whole row back under the same username. */
  method Update(db: Database, hash: string -> string, user: User, request: UpdateUserRequest)
    returns (r: Result<UserResponse>)
    requires db.Valid()
    requires user.username in db.users && db.users[user.username] == user
    modifies db
    ensures db.Valid()
    ensures db.contacts == old(db.contacts) && db.addresses == old(db.addresses)
    ensures db.nextContactId == old(db.nextContactId) && db.nextAddressId == old(db.nextAddressId)
    ensures !UserValidation.Update(request) ==> r == Err(ValidationFailed) && db.users == old(db.users)
    ensures UserValidation.Update(request) ==>
      var after := User(
        user.username,
        Overwrite(user.name, request.name),
        if Filled(request.password) then hash(request.password.value) else user.password,
        user.token);
      && db.users == old(db.users)[user.username := after]
      && r == Ok(UserResponse(user.username, after.name, None))
  {
    if !UserValidation.Update(request) {
      return Err(ValidationFailed);
    }
    var updated := user;
    if Filled(request.name) { updated := updated.(name := request.name.value); }
    if Filled(request.password) { updated := updated.(password := hash(request.password.value)); }
    db.users := db.users[user.username := updated];
    r := Ok(ToUserResponse(updated));
  }

  /** Clears the caller's token and nothing else. */
  method Logout(db: Database, user: User) returns (r: UserResponse)
    requires db.Valid()
    requires user.username in db.users
    modifies db
    ensures db.Valid()
    ensures db.contacts == old(db.contacts) && db.addresses == old(db.addresses)
    ensures db.nextContactId == old(db.nextContactId) && db.nextAddressId == old(db.nextAddressId)
    ensures db.users == old(db.users)[user.username := old(db.users)[user.username].(token := None)]
    ensures r == UserResponse(user.username, old(db.users)[user.username].name, None)
  {
    var result := db.users[user.username].(token := None);
    db.users := db.users[user.username := result];
    r := ToUserResponse(result);
  }

  /** The round trip the user tests rely on: once registration succeeds, logging
      in with the same username and password succeeds and hands out the token. */
  method RegisterThenLogin(db: Database, hash: string -> string, request: CreateUserRequest, token: string)
    returns (registered: Result<UserResponse>, loggedIn: Result<UserResponse>)
    requires db.Valid()
    requires token != ""
    requires forall u | u in db.users :: db.users[u].token != Some(token)
    modifies db
    ensures db.Valid()
    ensures registered.Ok? <==> UserValidation.Register(request) && request.username !in old(db.users)
    ensures registered.Ok? ==> loggedIn == Ok(UserResponse(request.username, request.name, Some(token)))
  {
    registered := Register(db, hash, request);
    loggedIn := Login(db, hash, LoginUserRequest(request.username, request.password), token);
  }
}
