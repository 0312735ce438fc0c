/**
 * Java exceptions that the authentication core throws or lets propagate,
 * made explicit: an operation either returns a value or throws one of these.
 */
module Exceptions {

  /** The failure kinds the token parser can report. */
  datatype JwtFailureKind =
    | Malformed          // MalformedJwtException
    | Expired            // ExpiredJwtException
    | Unsupported        // UnsupportedJwtException
    | IllegalArgument    // IllegalArgumentException (null or empty token)
    | SignatureInvalid   // SignatureException
    | OtherJwtFailure    // any other failure, e.g. a secret that is not Base64 or decodes to too short a key

  datatype Exception =
    | RuntimeException(message: string)
    | UsernameNotFoundException(message: string)
    | TokenLibraryException(kind: JwtFailureKind)   // thrown by the signing library, of the given kind
    | AuthenticationException          // the authentication manager rejected the credentials
    | NullPointerException

  /** The result of a Java call: a returned value or a thrown exception. */
  datatype Outcome<+T> = Returned(value: T) | Threw(exception: Exception)
}
