/** The request and response shapes of the user endpoints. The source of
    src/model/user-model.ts is not part of this model; its response is taken to
    be the public profile (username and name), with the token added by login. */
module UserModel {
  import opened Common
  import opened Store

  datatype UserResponse = UserResponse(username: string, name: string, token: Option<string>)

  datatype CreateUserRequest = CreateUserRequest(username: string, password: string, name: string)

  datatype LoginUserRequest = LoginUserRequest(username: string, password: string)

  /** Both fields may be omitted (None). */
  datatype UpdateUserRequest = UpdateUserRequest(name: Option<string>, password: Option<string>)

  /** The public profile of a stored user: never its digest, never its token. */
  function ToUserResponse(u: User): (r: UserResponse)
    ensures r.username == u.username && r.name == u.name
    ensures r.token == None
  {
    UserResponse(u.username, u.name, None)
  }
}
