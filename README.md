# Session credentials of an e-commerce backend, in Dafny

This project models the authentication and session-credential core of a
Spring Boot e-commerce backend:

- **JwtUtils**: reading the session token from the session cookie or from an
  `Authorization: Bearer` header (section 2.1 of RFC 6750), building the issuance
  cookie and the two invalidation cookies (attributes as in section 5.2 of
  RFC 6265), the claims a token carries (`sub`, `iat`, `exp` of RFC 7519),
  and how `validateJwtToken` turns the signing library's failures into
  `false` or lets them propagate.
- **AuthServiceImpl**: login result assembly, registration (duplicate-username
  and duplicate-email checks, role resolution, one save), the current user's
  summary and the logout cookie.
- **AuthController**: sign-in, sign-up, current username, current user and
  two-cookie sign-out.
- **AuthUtil**: the signed-in user's record, email and id, looked up by the
  authenticated name.
- **UserInfoResponse**: the response record and its two constructors.

Modules: `Wrappers` (Option), `Exceptions` (a Java call's result as
`Returned` or `Threw`), `Http` (cookies and requests), `Users` (accounts,
roles, principals and the `UserRepository` class, the store registration
writes to), `Responses`, `Jwt`, `AuthUtil`, `AuthService` and
`AuthController`.

Code the model cannot see is passed in as parameters:

- the signing library (`TokenLibrary`: `sign` and `parse`, where `sign`
  may throw when no key can be built from the secret and `parse` reports a
  failure kind);
- the two clock readings token generation takes;
- the authentication manager, as `authenticate`;
- the password encoder, as `encode`;
- `ResponseCookie.toString()`, as `serialize`.

The security context is an explicit `Option<Authentication>` argument, and a
missing authentication leads to the `NullPointerException` the code would
raise. A `Set-Cookie` header value is represented by the cookie record it
serializes. Registration is a method over `UserRepository` with a loop over
the requested role names. It is proved against `RegisterSpec`, and the
lemmas beside it state the properties of `RegisterSpec`.

Behaviours worth noting, as the code has them:

- A non-null but empty requested-role set gives an account with no roles. Only
  an absent role set defaults to `ROLE_USER`.
- `validateJwtToken` catches only the malformed, expired, unsupported and
  illegal-argument failures. A signature failure, or a key that cannot be
  built, propagates as an exception and does not yield `false`.
- A missing role record throws a `RuntimeException` ("Error: Role is not
  found.") rather than returning a typed error.
- Signing derives its key from the secret on every call. A secret that is
  not Base64, or that decodes to a key too short for HMAC, makes token
  generation, and with it login, throw that exception after authentication
  has succeeded.
- The expiry is computed from a second clock reading, so `exp - iat` is the
  configured lifetime plus the time between the two readings.

## Model

| member | source | states |
|---|---|---|
| `Jwt.GetCookie` | sb-ecom/src/main/java/cz/ivosahlik/ecommerce/security/jwt/JwtUtils.java:41 | the first request cookie with the given name, or None exactly when no cookie has that name |
| `Jwt.GetJwtFromCookies` | sb-ecom/src/main/java/cz/ivosahlik/ecommerce/security/jwt/JwtUtils.java:40-46 | None exactly when no cookie is named `jwtCookie`; otherwise the value of the first cookie with that name |
| `Jwt.GetJwtFromHeader` | sb-ecom/src/main/java/cz/ivosahlik/ecommerce/security/jwt/JwtUtils.java:48-54 | a token exactly when the header is present and starts with "Bearer ", and then the header is "Bearer " followed by the token |
| `Jwt.BearerRoundTrip` | sb-ecom/src/main/java/cz/ivosahlik/ecommerce/security/jwt/JwtUtils.java:53 | the header "Bearer " + t yields exactly t |
| `Jwt.BearerPrefixCaseSensitive` | sb-ecom/src/main/java/cz/ivosahlik/ecommerce/security/jwt/JwtUtils.java:50 | "bearer " + t yields no token: the prefix match is case-sensitive |
| `Jwt.HasText` | sb-ecom/src/main/java/cz/ivosahlik/ecommerce/security/jwt/JwtUtils.java:64 | true exactly when some character is not Java whitespace |
| `Jwt.CookieDomain` | sb-ecom/src/main/java/cz/ivosahlik/ecommerce/security/jwt/JwtUtils.java:64-66 | the Domain attribute is set, to the configured domain, exactly when the domain has a non-whitespace character |
| `Jwt.NoDomainByDefault` | sb-ecom/src/main/java/cz/ivosahlik/ecommerce/security/jwt/JwtUtils.java:37-38 | with the default empty (or blank) domain none of the three cookies has a Domain attribute |
| `Jwt.GenerateTokenFromUsername` | sb-ecom/src/main/java/cz/ivosahlik/ecommerce/security/jwt/JwtUtils.java:98-116 | the library's signature, or its failure to build a key from the secret, over subject the username, issued-at the first clock reading and expiration the second reading plus `jwtExpirationMs` |
| `Jwt.TokenClaims` | sb-ecom/src/main/java/cz/ivosahlik/ecommerce/security/jwt/JwtUtils.java:98-105 | subject is the username, issued-at is the first clock reading, expiration is the second reading plus `jwtExpirationMs` |
| `Jwt.TokenLifetime` | sb-ecom/src/main/java/cz/ivosahlik/ecommerce/security/jwt/JwtUtils.java:101-102 | exp - iat is the lifetime plus the gap between the two clock readings, and exactly the lifetime when they coincide |
| `Jwt.GenerateJwtCookie` | sb-ecom/src/main/java/cz/ivosahlik/ecommerce/security/jwt/JwtUtils.java:56-68 | throws exactly when signing the principal's token throws, with that exception; otherwise name `jwtCookie`, value the signed token, path "/api", Max-Age 86400, HttpOnly, not Secure, SameSite "Lax", the configured Domain |
| `Jwt.GetCleanJwtCookie` | sb-ecom/src/main/java/cz/ivosahlik/ecommerce/security/jwt/JwtUtils.java:70-82 | same name and attributes, empty value, Max-Age 0, path "/api" |
| `Jwt.GetCleanJwtCookieRoot` | sb-ecom/src/main/java/cz/ivosahlik/ecommerce/security/jwt/JwtUtils.java:84-96 | same name and attributes, empty value, Max-Age 0, path "/" |
| `Jwt.InvalidationMatchesIssuance` | sb-ecom/src/main/java/cz/ivosahlik/ecommerce/security/jwt/JwtUtils.java:56-96 | each invalidation cookie equals any issued session cookie with value "" and Max-Age 0, the root one also with path "/" |
| `Jwt.ValidateJwtToken` | sb-ecom/src/main/java/cz/ivosahlik/ecommerce/security/jwt/JwtUtils.java:118-132 | true exactly when the token parses; false exactly for the malformed, expired, unsupported and illegal-argument failures; throws the library's failure exactly for the other kinds |
| `Jwt.GetUserNameFromJwtToken` | sb-ecom/src/main/java/cz/ivosahlik/ecommerce/security/jwt/JwtUtils.java:107-112 | the subject exactly when the token parses, otherwise the library's failure is thrown |
| `Jwt.ValidExactlyWhenReadable` | sb-ecom/src/main/java/cz/ivosahlik/ecommerce/security/jwt/JwtUtils.java:107-132 | a token validates exactly when its username can be read |
| `Jwt.IssuedTokenRoundTrip` | sb-ecom/src/main/java/cz/ivosahlik/ecommerce/security/jwt/JwtUtils.java:98-112 | if the library signs with the secret and accepts its own token with the same subject (its dates may be rounded), generation succeeds and that token validates and yields the username it was generated for |
| `Responses.WithCredentials` | sb-ecom/src/main/java/cz/ivosahlik/ecommerce/security/response/UserInfoResponse.java:15-21 | the five-argument constructor puts id, username, roles, email and token into the fields of the same name, despite the different order |
| `Responses.Summary` | sb-ecom/src/main/java/cz/ivosahlik/ecommerce/security/response/UserInfoResponse.java:23-27 | the three-argument constructor sets id, username and roles and leaves email and token null |
| `Responses.WithCredentialsInjective` | sb-ecom/src/main/java/cz/ivosahlik/ecommerce/security/response/UserInfoResponse.java:7-21 | two full responses are equal exactly when all five arguments are equal (field-wise value equality) |
| `Responses.SummaryIsNotFull` | sb-ecom/src/main/java/cz/ivosahlik/ecommerce/security/response/UserInfoResponse.java:15-27 | a summary never equals a full response |
| `Users.FindByUserName` | sb-ecom/src/main/java/cz/ivosahlik/ecommerce/util/AuthUtil.java:20 | None exactly when no stored user has the name; otherwise a stored user with that name |
| `Users.FindAppended` | sb-ecom/src/main/java/cz/ivosahlik/ecommerce/service/impl/AuthServiceImpl.java:115 | after saving a user with a fresh name, that user is the one found under its name |
| `Users.FindUnaffectedByAppend` | sb-ecom/src/main/java/cz/ivosahlik/ecommerce/service/impl/AuthServiceImpl.java:115 | saving a user changes no lookup under any other name |
| `Users.UserRepository.Save` | sb-ecom/src/main/java/cz/ivosahlik/ecommerce/service/impl/AuthServiceImpl.java:115 | the store gains exactly the saved user, with the next identity, which no stored user has |
| `AuthUtil.LoggedInUser` | sb-ecom/src/main/java/cz/ivosahlik/ecommerce/util/AuthUtil.java:34-40 | the stored user with the authenticated name; fails with "User Not Found with username: " + name exactly when there is none |
| `AuthUtil.LoggedInEmail` | sb-ecom/src/main/java/cz/ivosahlik/ecommerce/util/AuthUtil.java:18-24 | the email of a stored user with the authenticated name; the same failure exactly when there is none |
| `AuthUtil.LoggedInUserId` | sb-ecom/src/main/java/cz/ivosahlik/ecommerce/util/AuthUtil.java:26-32 | the id of a stored user with the authenticated name; the same failure exactly when there is none |
| `AuthUtil.LookupsAgree` | sb-ecom/src/main/java/cz/ivosahlik/ecommerce/util/AuthUtil.java:18-40 | loggedInEmail and loggedInUserId are the email and id of loggedInUser's result, and all three fail together |
| `AuthUtil.LoggedInUserIsTheAccount` | sb-ecom/src/main/java/cz/ivosahlik/ecommerce/util/AuthUtil.java:34-40 | with unique usernames, loggedInUser returns the one account holding the name |
| `AuthService.Login` | sb-ecom/src/main/java/cz/ivosahlik/ecommerce/service/impl/AuthServiceImpl.java:49-67 | throws `AuthenticationException` when authentication fails; after it succeeds, throws exactly when signing the principal's token throws, with that exception; otherwise the issuance cookie for the principal, and a response with its id, username, email, authorities in order, and the serialized cookie (not the bare token) as token |
| `AuthService.LoginIssuesSessionForPrincipal` | sb-ecom/src/main/java/cz/ivosahlik/ecommerce/service/impl/AuthServiceImpl.java:57-64 | when authentication succeeds and the library signs with the secret and accepts its own token with the same subject, login succeeds with a one-day HttpOnly "/api" cookie whose token validates and names the principal |
| `AuthService.RequestedKinds` | sb-ecom/src/main/java/cz/ivosahlik/ecommerce/service/impl/AuthServiceImpl.java:84-112 | no role set gives exactly {ROLE_USER}; otherwise ROLE_ADMIN iff "admin" is asked for, ROLE_SELLER iff "seller" is, ROLE_USER iff some other name is |
| `AuthService.Register` | sb-ecom/src/main/java/cz/ivosahlik/ecommerce/service/impl/AuthServiceImpl.java:70-117 | answer and new store contents are those of RegisterSpec; the identity counter moves only when a user is saved; unique usernames and emails stay unique |
| `AuthService.DuplicateUsernameRejected` | sb-ecom/src/main/java/cz/ivosahlik/ecommerce/service/impl/AuthServiceImpl.java:71-73 | a taken username gives bad-request "Error: Username is already taken!", whatever the email, and no write |
| `AuthService.DuplicateEmailRejected` | sb-ecom/src/main/java/cz/ivosahlik/ecommerce/service/impl/AuthServiceImpl.java:75-77 | a free username with a taken email gives bad-request "Error: Email is already in use!" and no write |
| `AuthService.MissingRoleRejected` | sb-ecom/src/main/java/cz/ivosahlik/ecommerce/service/impl/AuthServiceImpl.java:87-112 | a missing needed role record (ROLE_USER when no role set is given, or the kind of a requested name) throws "Error: Role is not found." and nothing is saved |
| `AuthService.RegisterSuccess` | sb-ecom/src/main/java/cz/ivosahlik/ecommerce/service/impl/AuthServiceImpl.java:80-116 | success appends exactly one account: given username and email, encoded password, the records of the requested role kinds; body "User registered successfully!" |
| `AuthService.RegisterKeepsAccountsUnique` | sb-ecom/src/main/java/cz/ivosahlik/ecommerce/service/impl/AuthServiceImpl.java:71-77 | registration keeps usernames and emails unique in the store |
| `AuthService.RegisteredAccountIsFound` | sb-ecom/src/main/java/cz/ivosahlik/ecommerce/service/impl/AuthServiceImpl.java:114-116 | after success the new account is found under its username, and other names find what they found before |
| `AuthService.SavedRoleNames` | sb-ecom/src/main/java/cz/ivosahlik/ecommerce/service/impl/AuthServiceImpl.java:84-114 | the saved role names are exactly the requested kinds: {"admin"} gives {ROLE_ADMIN}, no set gives {ROLE_USER}, an empty set gives no roles |
| `AuthService.GetCurrentUserDetails` | sb-ecom/src/main/java/cz/ivosahlik/ecommerce/service/impl/AuthServiceImpl.java:120-131 | id, username and authorities of the principal, with no email and no token |
| `AuthService.LogoutUser` | sb-ecom/src/main/java/cz/ivosahlik/ecommerce/service/impl/AuthServiceImpl.java:134-136 | exactly the "/api" invalidation cookie |
| `AuthController.AuthenticateUser` | sb-ecom/src/main/java/cz/ivosahlik/ecommerce/controller/AuthController.java:34-40 | the login's failure propagates; otherwise status OK, the login cookie as the single Set-Cookie header, the login response as body |
| `AuthController.SigninBodyCarriesHeaderCookie` | sb-ecom/src/main/java/cz/ivosahlik/ecommerce/controller/AuthController.java:34-40 | a sign-in whose authentication and signing succeed sets one "/api" cookie with Max-Age 86400, and the body's token is that cookie's serialization |
| `AuthController.RegisterUser` | sb-ecom/src/main/java/cz/ivosahlik/ecommerce/controller/AuthController.java:42-45 | the service's registration answer, store effect and identity counter, unchanged; uniqueness of accounts is kept |
| `AuthController.CurrentUserName` | sb-ecom/src/main/java/cz/ivosahlik/ecommerce/controller/AuthController.java:47-54 | "" without authentication, otherwise the authentication's name |
| `AuthController.GetUserDetails` | sb-ecom/src/main/java/cz/ivosahlik/ecommerce/controller/AuthController.java:56-59 | status OK with the current user's summary as body; a NullPointerException exactly when there is no authentication |
| `AuthController.SignoutUser` | sb-ecom/src/main/java/cz/ivosahlik/ecommerce/controller/AuthController.java:61-69 | the Set-Cookie headers are exactly the "/api" invalidation cookie and then the "/" one, both with the cookie name, empty value and Max-Age 0; body "You've been signed out!" |
| `AuthController.SignoutExpiresIssuedCookie` | sb-ecom/src/main/java/cz/ivosahlik/ecommerce/controller/AuthController.java:61-67 | each sign-out cookie is any issued session cookie with empty value and Max-Age 0, the second also with path "/", and the two are distinct |
| `AuthController.SigninTokenNamesCurrentUser` | sb-ecom/src/main/java/cz/ivosahlik/ecommerce/controller/AuthController.java:34-54 | when the authentication names its principal and the library signs with the secret and accepts its own fresh token with the same subject, the sign-in cookie's token yields the name the current-username endpoint reports |

## Left out

- JWT signing, parsing and key derivation (HMAC per section 3.2 of RFC 7518, Base64 decoding of the secret): foreign cryptographic code, passed in as `TokenLibrary`. The library turns dates into whole seconds when it writes claims; the claims here keep the milliseconds of the clock readings.
- `ResponseCookie.toString()` and the rest of the HTTP framework: library code, passed in as `serialize`. Headers hold the cookie records.
- The authentication manager and the password encoder: Spring Security internals, passed in as `authenticate` and `encode`. All authentication failures are one `AuthenticationException`.
- The security context: passed explicitly. The `setAuthentication` side effect of login is not modelled.
- The request filter that validates the token on every request (`AuthTokenFilter`) and `UserDetailsImpl.build` are not part of this model. The principal is given as a `UserDetails` value.
- `getAllSellers` in the service and the controller: pagination and object-mapping glue.
- `@Transactional` rollback, logging, and bean validation of the sign-up request: framework behaviour.
- Jwt.TokenClaims: the sum of the clock reading and the lifetime is unbounded here. A 64-bit overflow would need a clock reading near 2^63 ms.
- Users.FindByUserName: with duplicate usernames it returns the first stored match. The store's own choice is not visible, so AuthUtil's lemmas about the returned account assume unique usernames.
- Users.UserRepository.Save: the database's generated identity is a counter in the store.
- AuthService.Register: a null element inside the requested role set (which would throw in the `switch`) is not modelled. The order in which the role set is visited is a nondeterministic choice; the outcome does not depend on it.
- A failed cast of the principal to `UserDetailsImpl` is not modelled.
