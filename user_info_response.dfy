/** The bodies the authentication endpoints return. */
module Responses {
  import opened Wrappers

  /**
   * The user-facing account summary. Its five fields, in declaration order;
   * `email` and `jwtToken` are None where the Java object holds null.
   * Equality is value equality over all five fields.
   */
  datatype UserInfoResponse = UserInfoResponse(
    id: int,
    jwtToken: Option<string>,
    username: string,
    email: Option<string>,
    roles: seq<string>)

  /** A plain message body. */
  datatype MessageResponse = MessageResponse(message: string)

  /** The five-argument constructor; note its argument order differs from the field order. */
  function WithCredentials(id: int, username: string, roles: seq<string>, email: string, jwtToken: string): (r: UserInfoResponse)
    ensures r.id == id && r.username == username && r.roles == roles
    ensures r.email == Some(email) && r.jwtToken == Some(jwtToken)
  {
    UserInfoResponse(id, Some(jwtToken), username, Some(email), roles)
  }

  /** The three-argument constructor; email and token stay null. */
  function Summary(id: int, username: string, roles: seq<string>): (r: UserInfoResponse)
    ensures r.id == id && r.username == username && r.roles == roles
    ensures r.email.None? && r.jwtToken.None?
  {
    UserInfoResponse(id, None, username, None, roles)
  }

  /** Two full responses are equal exactly when they were built from the same arguments. */
  lemma WithCredentialsInjective(id: int, username: string, roles: seq<string>, email: string, jwtToken: string,
                                 id': int, username': string, roles': seq<string>, email': string, jwtToken': string)
    ensures WithCredentials(id, username, roles, email, jwtToken) == WithCredentials(id', username', roles', email', jwtToken')
        <==> id == id' && username == username' && roles == roles' && email == email' && jwtToken == jwtToken'
  {
  }

  /** A summary never equals a full response: they always differ in email and token. */
  lemma SummaryIsNotFull(id: int, username: string, roles: seq<string>, id': int, username': string, roles': seq<string>, email: string, jwtToken: string)
    ensures Summary(id, username, roles) != WithCredentials(id', username', roles', email, jwtToken)
  {
  }
}
