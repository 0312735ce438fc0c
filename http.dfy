/** The HTTP-level values the authentication core reads and produces. */
module Http {
  import opened Wrappers

  datatype HttpStatus = Ok | BadRequest

  /**
   * A cookie to be sent in a Set-Cookie header, with the attributes of
   * section 5.2 of RFC 6265: Max-Age (5.2.2, in seconds), Domain (5.2.3),
   * Path (5.2.4), Secure (5.2.5) and HttpOnly (5.2.6), plus SameSite.
   */
  datatype ResponseCookie = ResponseCookie(
    name: string,
    value: string,
    path: string,
    maxAge: int,
    httpOnly: bool,
    secure: bool,
    sameSite: string,
    domain: Option<string>)

  /** A cookie as the client sent it in the request's Cookie header. */
  datatype RequestCookie = RequestCookie(name: string, value: string)

  /** The part of an incoming request the core looks at. */
  datatype Request = Request(cookies: seq<RequestCookie>, authorization: Option<string>)
}
