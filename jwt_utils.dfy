/**
 * The session-token and session-cookie helpers: reading a token from a
 * request, building the issuance and invalidation cookies, laying out a
 * token's claims and classifying the signing library's failures.
 *
 * Signing and parsing are the signing library's business and appear here
 * only as a TokenLibrary value; the configuration is a JwtConfig value.
 */
module Jwt {
  import opened Wrappers
  import opened Exceptions
  import opened Http
  import opened Users

  /** Java's 32-bit `int`. */
  type Int32 = x: int | -0x8000_0000 <= x < 0x8000_0000

  /** The configured secret, token lifetime in milliseconds, cookie name and cookie domain (empty by default). */
  datatype JwtConfig = JwtConfig(jwtSecret: string, jwtExpirationMs: Int32, jwtCookie: string, cookieDomain: string)

  /**
   * The registered claims a token carries: subject (section 4.1.2 of RFC 7519),
   * issued-at (4.1.6) and expiration (4.1.4), as clock readings in milliseconds.
   */
  datatype Claims = Claims(sub: string, iat: int, exp: int)

  datatype ParseOutcome = Parsed(claims: Claims) | ParseFailed(kind: JwtFailureKind)

  /**
   * The signing library: `sign` derives the key from the secret and turns
   * claims into a compact signed token, or throws when no key can be built
   * from the secret; `parse` verifies a token (signature and expiry) and
   * yields its claims or the kind of failure.
   */
  datatype TokenLibrary = TokenLibrary(sign: (string, Claims) -> Outcome<string>, parse: string -> ParseOutcome)

  /**
   * The library signs `claims` under `secret` and accepts the resulting
   * token back with the same subject. The dates it reads back may differ
   * from the signed ones (the library writes them as whole seconds).
   */
  predicate AcceptsOwnToken(lib: TokenLibrary, secret: string, claims: Claims)
  {
    && lib.sign(secret, claims).Returned?
    && lib.parse(lib.sign(secret, claims).value).Parsed?
    && lib.parse(lib.sign(secret, claims).value).claims.sub == claims.sub
  }

  /** Token generation reads the clock twice: once for issued-at, once to compute the expiration. */
  datatype ClockReadings = ClockReadings(issuedAt: int, expiryBase: int)

  const BearerPrefix: string := "Bearer "
  const ApiPath: string := "/api"
  const RootPath: string := "/"
  /** One day, in seconds. */
  const SessionMaxAge: int := 24 * 60 * 60
  const SameSitePolicy: string := "Lax"

  // ---------------------------------------------------------------- extraction

  /** The first cookie of the request with the given name, if any. */
  function GetCookie(cookies: seq<RequestCookie>, name: string): (r: Option<RequestCookie>)
    ensures r.None? <==> forall i :: 0 <= i < |cookies| ==> cookies[i].name != name
    ensures r.Some? ==> exists i :: 0 <= i < |cookies| && cookies[i] == r.value && cookies[i].name == name
                                    && forall j :: 0 <= j < i ==> cookies[j].name != name
  {
    if cookies == [] then None
    else if cookies[0].name == name then Some(cookies[0])
    else
      var r := GetCookie(cookies[1..], name);
      assert r.Some? ==> exists i :: 0 <= i < |cookies| - 1 && cookies[1..][i] == r.value && cookies[1..][i].name == name
                                      && forall j :: 0 <= j < i ==> cookies[1..][j].name != name;
      r
  }

  /** The value of the first session cookie, or None when the request carries none. */
  function GetJwtFromCookies(cfg: JwtConfig, request: Request): (r: Option<string>)
    ensures r.None? <==> forall i :: 0 <= i < |request.cookies| ==> request.cookies[i].name != cfg.jwtCookie
    ensures r.Some? ==> exists i :: 0 <= i < |request.cookies| && request.cookies[i].name == cfg.jwtCookie
                                    && request.cookies[i].value == r.value
                                    && forall j :: 0 <= j < i ==> request.cookies[j].name != cfg.jwtCookie
  {
    match GetCookie(request.cookies, cfg.jwtCookie)
    case None => None
    case Some(cookie) => Some(cookie.value)
  }

  /**
   * The bearer token of the Authorization header (section 2.1 of RFC 6750):
   * present only when the header starts with exactly "Bearer " (case and
   * the space included), and then everything after those seven characters.
   */
  function GetJwtFromHeader(request: Request): (r: Option<string>)
    ensures r.Some? <==> request.authorization.Some? && BearerPrefix <= request.authorization.value
    ensures r.Some? ==> request.authorization.value == BearerPrefix + r.value
  {
    match request.authorization
    case None => None
    case Some(header) =>
      if !(BearerPrefix <= header) then None
      else
        assert header == header[..7] + header[7..];
        Some(header[7..])
  }

  /** Prefixing a token with "Bearer " and extracting it again gives the token back. */
  lemma BearerRoundTrip(cookies: seq<RequestCookie>, token: string)
    ensures GetJwtFromHeader(Request(cookies, Some(BearerPrefix + token))) == Some(token)
  {
  }

  /** The prefix match is case-sensitive: a lower-case scheme yields no token. */
  lemma BearerPrefixCaseSensitive(cookies: seq<RequestCookie>, token: string)
    ensures GetJwtFromHeader(Request(cookies, Some("bearer " + token))) == None
  {
  }

  // ---------------------------------------------------------------- cookies

  /** Java's Character.isWhitespace. */
  predicate IsJavaWhitespace(c: char)
  {
    || '\U{0009}' <= c <= '\U{000D}'
    || '\U{001C}' <= c <= '\U{001F}'
    || c == '\U{0020}' || c == '\U{1680}'
    || '\U{2000}' <= c <= '\U{2006}' || '\U{2008}' <= c <= '\U{200A}'
    || c == '\U{2028}' || c == '\U{2029}' || c == '\U{205F}' || c == '\U{3000}'
  }

  /** Spring's StringUtils.hasText: some character of `s` is not whitespace. */
  function HasText(s: string): (r: bool)
    ensures r <==> exists i :: 0 <= i < |s| && !IsJavaWhitespace(s[i])
  {
    if s == [] then false
    else if !IsJavaWhitespace(s[0]) then true
    else
      var r := HasText(s[1..]);
      assert r ==> exists i :: 0 <= i < |s| - 1 && !IsJavaWhitespace(s[1..][i]);
      r
  }

  /** The Domain attribute all three cookie builders set: the configured domain when it has text. */
  function CookieDomain(cfg: JwtConfig): (d: Option<string>)
    ensures d.Some? <==> exists i :: 0 <= i < |cfg.cookieDomain| && !IsJavaWhitespace(cfg.cookieDomain[i])
    ensures d.Some? ==> d.value == cfg.cookieDomain
  {
    if HasText(cfg.cookieDomain) then Some(cfg.cookieDomain) else None
  }

  /** The builder chain the three cookie builders share. */
  function BuildCookie(cfg: JwtConfig, value: string, path: string, maxAge: int): ResponseCookie
  {
    ResponseCookie(cfg.jwtCookie, value, path, maxAge, true, false, SameSitePolicy, CookieDomain(cfg))
  }

  /** The claims generateTokenFromUsername signs. */
  function TokenClaims(cfg: JwtConfig, username: string, clock: ClockReadings): (c: Claims)
    ensures c.sub == username && c.iat == clock.issuedAt
    ensures c.exp == clock.expiryBase + cfg.jwtExpirationMs
  {
    Claims(username, clock.issuedAt, clock.expiryBase + cfg.jwtExpirationMs)
  }

  /** The token lives jwtExpirationMs after issue, plus whatever passed between the two clock readings. */
  lemma TokenLifetime(cfg: JwtConfig, username: string, clock: ClockReadings)
    ensures TokenClaims(cfg, username, clock).exp - TokenClaims(cfg, username, clock).iat
         == cfg.jwtExpirationMs + (clock.expiryBase - clock.issuedAt)
    ensures clock.issuedAt == clock.expiryBase ==>
            TokenClaims(cfg, username, clock).exp == TokenClaims(cfg, username, clock).iat + cfg.jwtExpirationMs
  {
  }

  /**
   * generateTokenFromUsername: the token the library signs over subject
   * `username`, issued-at the first clock reading and expiration the second
   * reading plus the lifetime; a failure to build the key propagates.
   */
  function GenerateTokenFromUsername(cfg: JwtConfig, lib: TokenLibrary, username: string, clock: ClockReadings): (r: Outcome<string>)
    ensures r == lib.sign(cfg.jwtSecret, Claims(username, clock.issuedAt, clock.expiryBase + cfg.jwtExpirationMs))
  {
    lib.sign(cfg.jwtSecret, TokenClaims(cfg, username, clock))
  }

  /** The session cookie issued at login; it is not built when signing the token throws. */
  function GenerateJwtCookie(cfg: JwtConfig, lib: TokenLibrary, principal: UserDetails, clock: ClockReadings): (r: Outcome<ResponseCookie>)
    ensures var token := lib.sign(cfg.jwtSecret, Claims(principal.username, clock.issuedAt, clock.expiryBase + cfg.jwtExpirationMs));
      && (r.Returned? <==> token.Returned?)
      && (r.Threw? ==> r.exception == token.exception)
      && (r.Returned? ==>
            && r.value.name == cfg.jwtCookie && r.value.value == token.value
            && r.value.path == "/api" && r.value.maxAge == 86400
            && r.value.httpOnly && !r.value.secure && r.value.sameSite == "Lax"
            && r.value.domain == CookieDomain(cfg))
  {
    match GenerateTokenFromUsername(cfg, lib, principal.username, clock)
    case Threw(e) => Threw(e)
    case Returned(jwt) => Returned(BuildCookie(cfg, jwt, ApiPath, SessionMaxAge))
  }

  /** The invalidation cookie for the application path. */
  function GetCleanJwtCookie(cfg: JwtConfig): (c: ResponseCookie)
    ensures c.name == cfg.jwtCookie && c.value == "" && c.maxAge == 0 && c.path == "/api"
    ensures c.httpOnly && !c.secure && c.sameSite == "Lax" && c.domain == CookieDomain(cfg)
  {
    BuildCookie(cfg, "", ApiPath, 0)
  }

  /** The invalidation cookie for the root path, which clears cookies older deployments set at "/". */
  function GetCleanJwtCookieRoot(cfg: JwtConfig): (c: ResponseCookie)
    ensures c.name == cfg.jwtCookie && c.value == "" && c.maxAge == 0 && c.path == "/"
    ensures c.httpOnly && !c.secure && c.sameSite == "Lax" && c.domain == CookieDomain(cfg)
  {
    BuildCookie(cfg, "", RootPath, 0)
  }

  /**
   * Both invalidation cookies carry the issuance cookie's name, HttpOnly,
   * Secure, SameSite and Domain, so a client replaces the cookie it holds;
   * they differ from it only in value, Max-Age and (for the root one) Path.
   */
  lemma InvalidationMatchesIssuance(cfg: JwtConfig, lib: TokenLibrary, principal: UserDetails, clock: ClockReadings)
    ensures var issued := GenerateJwtCookie(cfg, lib, principal, clock);
      issued.Returned? ==>
        && GetCleanJwtCookie(cfg) == issued.value.(value := "", maxAge := 0)
        && GetCleanJwtCookieRoot(cfg) == issued.value.(value := "", maxAge := 0, path := "/")
  {
  }

  /** With the default configuration (empty cookie domain) no cookie carries a Domain attribute. */
  lemma NoDomainByDefault(cfg: JwtConfig, lib: TokenLibrary, principal: UserDetails, clock: ClockReadings)
    requires forall i :: 0 <= i < |cfg.cookieDomain| ==> IsJavaWhitespace(cfg.cookieDomain[i])
    ensures GenerateJwtCookie(cfg, lib, principal, clock).Returned? ==> GenerateJwtCookie(cfg, lib, principal, clock).value.domain.None?
    ensures GetCleanJwtCookie(cfg).domain.None? && GetCleanJwtCookieRoot(cfg).domain.None?
  {
  }

  // ---------------------------------------------------------------- verification

  /**
   * validateJwtToken: true when the library parses the token; false for the
   * four failure kinds it catches (malformed, expired, unsupported, empty);
   * any other failure propagates to the caller.
   */
  function ValidateJwtToken(lib: TokenLibrary, authToken: string): (r: Outcome<bool>)
    ensures r == Returned(true) <==> lib.parse(authToken).Parsed?
    ensures r == Returned(false) <==>
            lib.parse(authToken).ParseFailed? && lib.parse(authToken).kind in {Malformed, Expired, Unsupported, IllegalArgument}
    ensures r.Threw? <==>
            lib.parse(authToken).ParseFailed? && lib.parse(authToken).kind in {SignatureInvalid, OtherJwtFailure}
    ensures r.Threw? ==> r.exception == TokenLibraryException(lib.parse(authToken).kind)
  {
    match lib.parse(authToken)
    case Parsed(_) => Returned(true)
    case ParseFailed(kind) =>
      match kind
      case Malformed => Returned(false)
      case Expired => Returned(false)
      case Unsupported => Returned(false)
      case IllegalArgument => Returned(false)
      case _ => Threw(TokenLibraryException(kind))
  }

  /** getUserNameFromJwtToken: the subject of a token the library accepts; every failure propagates. */
  function GetUserNameFromJwtToken(lib: TokenLibrary, token: string): (r: Outcome<string>)
    ensures r.Returned? <==> lib.parse(token).Parsed?
    ensures r.Returned? ==> r.value == lib.parse(token).claims.sub
    ensures r.Threw? ==> r.exception == TokenLibraryException(lib.parse(token).kind)
  {
    match lib.parse(token)
    case Parsed(claims) => Returned(claims.sub)
    case ParseFailed(kind) => Threw(TokenLibraryException(kind))
  }

  /** A token validates exactly when its username can be read from it. */
  lemma ValidExactlyWhenReadable(lib: TokenLibrary, token: string)
    ensures ValidateJwtToken(lib, token) == Returned(true) <==> GetUserNameFromJwtToken(lib, token).Returned?
  {
  }

  /**
   * Round trip: if the library can sign with the secret and accepts the
   * token it has just signed (the token has not yet expired), the token
   * validates and yields the username it was generated for.
   */
  lemma IssuedTokenRoundTrip(cfg: JwtConfig, lib: TokenLibrary, username: string, clock: ClockReadings)
    requires AcceptsOwnToken(lib, cfg.jwtSecret, TokenClaims(cfg, username, clock))
    ensures GenerateTokenFromUsername(cfg, lib, username, clock).Returned?
    ensures ValidateJwtToken(lib, GenerateTokenFromUsername(cfg, lib, username, clock).value) == Returned(true)
    ensures GetUserNameFromJwtToken(lib, GenerateTokenFromUsername(cfg, lib, username, clock).value) == Returned(username)
  {
  }
}
