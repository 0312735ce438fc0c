/**
 * The authentication endpoints: sign-in, sign-up, the current username,
 * the current user's summary and sign-out. Each composes service results
 * and cookies into a response; a Set-Cookie header value is represented by
 * the cookie it serializes.
 */
module AuthController {
  import opened Wrappers
  import opened Exceptions
  import opened Http
  import opened Users
  import opened Responses
  import opened Jwt
  import opened AuthService

  datatype Body = InfoBody(info: UserInfoResponse) | MessageBody(message: MessageResponse)

  /** A response with its status, its Set-Cookie headers in order, and its body. */
  datatype HttpResponse = HttpResponse(status: HttpStatus, setCookies: seq<ResponseCookie>, body: Body)

  const SignedOut: string := "You've been signed out!"

  /** POST /api/auth/signin: the login response as body, its cookie as the single Set-Cookie header. */
  function AuthenticateUser(cfg: JwtConfig, lib: TokenLibrary, serialize: ResponseCookie -> string,
                            authenticate: LoginRequest -> Option<Authentication>, clock: ClockReadings,
                            req: LoginRequest): (r: Outcome<HttpResponse>)
    ensures var login := Login(cfg, lib, serialize, authenticate, clock, req);
      && (r.Threw? <==> login.Threw?)
      && (r.Threw? ==> r.exception == login.exception)
      && (r.Returned? ==> r.value == HttpResponse(Ok, [login.value.jwtCookie], InfoBody(login.value.response)))
  {
    match Login(cfg, lib, serialize, authenticate, clock, req)
    case Threw(e) => Threw(e)
    case Returned(result) => Returned(HttpResponse(Ok, [result.jwtCookie], InfoBody(result.response)))
  }

  /**
   * A sign-in whose authentication and signing succeed sets exactly one
   * cookie, the session cookie on "/api", and the token field of the body
   * is that cookie's serialization.
   */
  lemma SigninBodyCarriesHeaderCookie(cfg: JwtConfig, lib: TokenLibrary, serialize: ResponseCookie -> string,
                                      authenticate: LoginRequest -> Option<Authentication>, clock: ClockReadings,
                                      req: LoginRequest)
    requires authenticate(req).Some?
    requires lib.sign(cfg.jwtSecret, TokenClaims(cfg, authenticate(req).value.principal.username, clock)).Returned?
    ensures var r := AuthenticateUser(cfg, lib, serialize, authenticate, clock, req);
      && r.Returned? && |r.value.setCookies| == 1
      && r.value.setCookies[0].path == "/api" && r.value.setCookies[0].maxAge == 86400
      && r.value.body.InfoBody?
      && r.value.body.info.jwtToken == Some(serialize(r.value.setCookies[0]))
      && r.value.body.info.username == authenticate(req).value.principal.username
  {
  }

  /** POST /api/auth/signup: the service's response, unchanged. */
  method RegisterUser(repo: UserRepository, roleStore: map<AppRole, Role>, encode: string -> string, req: SignupRequest)
    returns (r: Outcome<MessageEntity>)
    requires repo.Valid()
    modifies repo
    ensures repo.Valid()
    ensures Registration(r, repo.users) == RegisterSpec(old(repo.users), old(repo.nextId), roleStore, encode, req)
    ensures repo.nextId == if |repo.users| == |old(repo.users)| then old(repo.nextId) else old(repo.nextId) + 1
    ensures AccountsUnique(old(repo.users)) ==> AccountsUnique(repo.users)
  {
    r := Register(repo, roleStore, encode, req);
  }

  /** GET /api/auth/username: the authenticated name, or "" when there is no authentication. */
  function CurrentUserName(authentication: Option<Authentication>): (r: string)
    ensures authentication.None? ==> r == ""
    ensures authentication.Some? ==> r == authentication.value.name
  {
    match authentication
    case None => ""
    case Some(auth) => auth.name
  }

  /** GET /api/auth/user: the current user's summary as body. */
  function GetUserDetails(authentication: Option<Authentication>): (r: Outcome<HttpResponse>)
    ensures r.Threw? <==> authentication.None?
    ensures r.Threw? ==> r.exception == NullPointerException
    ensures r.Returned? ==>
      && r.value.status == Ok && r.value.setCookies == []
      && r.value.body == InfoBody(GetCurrentUserDetails(authentication).value)
  {
    match GetCurrentUserDetails(authentication)
    case Threw(e) => Threw(e)
    case Returned(info) => Returned(HttpResponse(Ok, [], InfoBody(info)))
  }

  /** POST /api/auth/signout: expire the cookie on "/api" and then on "/". */
  function SignoutUser(cfg: JwtConfig): (r: HttpResponse)
    ensures r.status == Ok && r.setCookies == [GetCleanJwtCookie(cfg), GetCleanJwtCookieRoot(cfg)]
    ensures r.setCookies[0].path == "/api" && r.setCookies[1].path == "/"
    ensures forall i :: 0 <= i < 2 ==>
      r.setCookies[i].name == cfg.jwtCookie && r.setCookies[i].value == "" && r.setCookies[i].maxAge == 0
    ensures r.body == MessageBody(MessageResponse("You've been signed out!"))
  {
    var apiPathCookie := LogoutUser(cfg);
    var rootPathCookie := GetCleanJwtCookieRoot(cfg);
    HttpResponse(Ok, [apiPathCookie, rootPathCookie], MessageBody(MessageResponse(SignedOut)))
  }

  /**
   * Sign-out expires whatever session cookie the client holds: every
   * cookie sign-in can set is matched, in name, path, domain and
   * attributes, by one of the two sign-out cookies, which differs from it
   * only in its empty value and zero Max-Age.
   */
  lemma SignoutExpiresIssuedCookie(cfg: JwtConfig, lib: TokenLibrary, principal: UserDetails, clock: ClockReadings)
    ensures var issued := GenerateJwtCookie(cfg, lib, principal, clock);
      issued.Returned? ==>
        && SignoutUser(cfg).setCookies[0] == issued.value.(value := "", maxAge := 0)
        && SignoutUser(cfg).setCookies[1] == issued.value.(value := "", maxAge := 0, path := "/")
    ensures SignoutUser(cfg).setCookies[0] != SignoutUser(cfg).setCookies[1]
  {
  }

  /**
   * The token a sign-in issues names the user the current-username endpoint
   * reports for that authentication, provided the library signs with the
   * secret and accepts a token it has just signed.
   */
  lemma SigninTokenNamesCurrentUser(cfg: JwtConfig, lib: TokenLibrary, serialize: ResponseCookie -> string,
                                    authenticate: LoginRequest -> Option<Authentication>, clock: ClockReadings,
                                    req: LoginRequest)
    requires authenticate(req).Some? && NamesItsPrincipal(authenticate(req).value)
    requires AcceptsOwnToken(lib, cfg.jwtSecret, TokenClaims(cfg, authenticate(req).value.principal.username, clock))
    ensures var r := AuthenticateUser(cfg, lib, serialize, authenticate, clock, req);
      && r.Returned? && |r.value.setCookies| == 1
      && GetUserNameFromJwtToken(lib, r.value.setCookies[0].value) == Returned(CurrentUserName(authenticate(req)))
  {
    IssuedTokenRoundTrip(cfg, lib, authenticate(req).value.principal.username, clock);
  }
}
