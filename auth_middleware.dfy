/** authMiddleware of src/middleware/aut-middleware.ts: resolve the
    X-API-TOKEN header to a stored user, or answer 401 without calling next. */
module AuthMiddleware {
  import opened Common
  import opened Store

  /** Some stored user holds `token` as its session token. */
  ghost predicate HoldsToken(users: map<string, User>, token: string) {
    exists u | u in users :: users[u].token == Some(token)
  }

  /** `Ok(user)` is `request.user = user; next()`; `Err` is the 401 reply. */
  method Authenticate(db: Database, header: Option<string>) returns (r: Result<User>)
    requires db.Valid()
    ensures r.Ok? <==> Filled(header) && HoldsToken(db.users, header.value)
    ensures r.Ok? ==> r.value.username in db.users && db.users[r.value.username] == r.value
    ensures r.Ok? ==> r.value.token == header
    ensures r.Err? ==> r.error == ResponseError(401, "unauthorized")
  {
    if Filled(header) {
      var token := header.value;
      if u :| u in db.users && db.users[u].token == Some(token) {
        return Ok(db.users[u]);
      }
    }
    r := Err(ResponseError(401, "unauthorized"));
  }

  /** After login stores a fresh token on `name`, that token authenticates
      `name` and nobody else, and tokens stay unique. */
  lemma {:induction false} LoginGrants(users: map<string, User>, name: string, token: string)
    requires UsersKeyed(users) && TokensUnique(users)
    requires name in users
    requires forall u | u in users :: users[u].token != Some(token)
    ensures var after := users[name := users[name].(token := Some(token))];
      && TokensUnique(after)
      && HoldsToken(after, token)
      && forall u | u in after && after[u].token == Some(token) :: u == name
  {
    var after := users[name := users[name].(token := Some(token))];
    assert after[name].token == Some(token);
  }

  /** After logout clears the token of `name`, the token it held no longer
      authenticates anyone. */
  lemma {:induction false} LogoutRevokes(users: map<string, User>, name: string, token: string)
    requires TokensUnique(users)
    requires name in users && users[name].token == Some(token)
    ensures !HoldsToken(users[name := users[name].(token := None)], token)
  {
  }
}
