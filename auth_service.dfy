/**
 * The authentication service: login result assembly, registration of a
 * new account, the current user's summary and the logout cookie.
 *
 * The authentication manager, the password encoder, the clock, the signing
 * library and cookie serialization are parameters.
 */
module AuthService {
  import opened Wrappers
  import opened Exceptions
  import opened Http
  import opened Users
  import opened Responses
  import opened Jwt

  datatype LoginRequest = LoginRequest(username: string, password: string)

  /** A sign-up request; `role` is None when the request carries no role set. */
  datatype SignupRequest = SignupRequest(username: string, email: string, password: string, role: Option<set<string>>)

  /** A response entity carrying a message body. */
  datatype MessageEntity = MessageEntity(status: HttpStatus, body: MessageResponse)

  /** What login hands back: the user-facing response and the cookie to set. */
  datatype AuthenticationResult = AuthenticationResult(response: UserInfoResponse, jwtCookie: ResponseCookie)

  const UsernameTaken: string := "Error: Username is already taken!"
  const EmailInUse: string := "Error: Email is already in use!"
  const RoleNotFound: string := "Error: Role is not found."
  const RegisteredSuccessfully: string := "User registered successfully!"

  // ---------------------------------------------------------------- login

  /**
   * login: authenticate the credentials (failure propagates), issue the
   * session cookie for the principal (a failure to sign propagates) and
   * report its id, username, email, authorities in order and the
   * serialized cookie.
   */
  function Login(cfg: JwtConfig, lib: TokenLibrary, serialize: ResponseCookie -> string,
                 authenticate: LoginRequest -> Option<Authentication>, clock: ClockReadings,
                 req: LoginRequest): (r: Outcome<AuthenticationResult>)
    ensures authenticate(req).None? ==> r == Threw(AuthenticationException)
    ensures authenticate(req).Some? ==>
      var details := authenticate(req).value.principal;
      var token := lib.sign(cfg.jwtSecret, TokenClaims(cfg, details.username, clock));
      && (r.Returned? <==> token.Returned?)
      && (r.Threw? ==> r.exception == token.exception)
      && (r.Returned? ==>
            && r.value.jwtCookie == GenerateJwtCookie(cfg, lib, details, clock).value
            && r.value.response.id == details.id && r.value.response.username == details.username
            && r.value.response.email == Some(details.email) && r.value.response.roles == details.authorities
            && r.value.response.jwtToken == Some(serialize(r.value.jwtCookie)))
  {
    match authenticate(req)
    case None => Threw(AuthenticationException)
    case Some(authentication) =>
      var details := authentication.principal;
      match GenerateJwtCookie(cfg, lib, details, clock)
      case Threw(e) => Threw(e)
      case Returned(jwtCookie) =>
        var response := WithCredentials(details.id, details.username, details.authorities, details.email, serialize(jwtCookie));
        Returned(AuthenticationResult(response, jwtCookie))
  }

  /**
   * When authentication succeeds and the library signs with the secret and
   * accepts the token it has just signed, login succeeds and issues a
   * one-day HttpOnly cookie on "/api" whose token validates and names the
   * authenticated principal.
   */
  lemma LoginIssuesSessionForPrincipal(cfg: JwtConfig, lib: TokenLibrary, serialize: ResponseCookie -> string,
                                       authenticate: LoginRequest -> Option<Authentication>, clock: ClockReadings,
                                       req: LoginRequest)
    requires authenticate(req).Some?
    requires AcceptsOwnToken(lib, cfg.jwtSecret, TokenClaims(cfg, authenticate(req).value.principal.username, clock))
    ensures var r := Login(cfg, lib, serialize, authenticate, clock, req);
      && r.Returned?
      && r.value.jwtCookie.maxAge == 86400 && r.value.jwtCookie.path == "/api" && r.value.jwtCookie.httpOnly
      && ValidateJwtToken(lib, r.value.jwtCookie.value) == Returned(true)
      && GetUserNameFromJwtToken(lib, r.value.jwtCookie.value) == Returned(authenticate(req).value.principal.username)
  {
  }

  // ---------------------------------------------------------------- registration

  /** The role kind a requested role name selects. */
  function RoleKind(name: string): AppRole
  {
    if name == "admin" then ROLE_ADMIN
    else if name == "seller" then ROLE_SELLER
    else ROLE_USER
  }

  /**
   * The role kinds a sign-up request asks for: exactly the base role when
   * the request has no role set, otherwise the image of the requested
   * names (so an empty set asks for no role at all).
   */
  function RequestedKinds(strRoles: Option<set<string>>): (kinds: set<AppRole>)
    ensures strRoles.None? ==> kinds == {ROLE_USER}
    ensures strRoles.Some? ==>
      && (ROLE_ADMIN in kinds <==> "admin" in strRoles.value)
      && (ROLE_SELLER in kinds <==> "seller" in strRoles.value)
      && (ROLE_USER in kinds <==> exists r :: r in strRoles.value && r != "admin" && r != "seller")
  {
    match strRoles
    case None => {ROLE_USER}
    case Some(names) =>
      var kinds := set r | r in names :: RoleKind(r);
      assert "admin" in names ==> RoleKind("admin") in kinds;
      assert "seller" in names ==> RoleKind("seller") in kinds;
      kinds
  }

  /** The role records of the given kinds. */
  function RolesOf(kinds: set<AppRole>, roleStore: map<AppRole, Role>): set<Role>
    requires kinds <= roleStore.Keys
  {
    set k | k in kinds :: roleStore[k]
  }

  /** The account a successful registration stores (its id is assigned on save). */
  function NewAccount(id: int, req: SignupRequest, encode: string -> string, roles: set<Role>): User
  {
    User(id, req.username, req.email, encode(req.password), roles)
  }

  /** The response of a registration together with the store contents after it. */
  datatype Registration = Registration(response: Outcome<MessageEntity>, users: seq<User>)

  /** What register answers and stores, given the store before the call. */
  function RegisterSpec(users: seq<User>, nextId: int, roleStore: map<AppRole, Role>,
                        encode: string -> string, req: SignupRequest): Registration
  {
    if UserNameTaken(users, req.username) then
      Registration(Returned(MessageEntity(BadRequest, MessageResponse(UsernameTaken))), users)
    else if EmailTaken(users, req.email) then
      Registration(Returned(MessageEntity(BadRequest, MessageResponse(EmailInUse))), users)
    else
      var kinds := RequestedKinds(req.role);
      if !(kinds <= roleStore.Keys) then
        Registration(Threw(RuntimeException(RoleNotFound)), users)
      else
        Registration(Returned(MessageEntity(Ok, MessageResponse(RegisteredSuccessfully))),
                     users + [NewAccount(nextId, req, encode, RolesOf(kinds, roleStore))])
  }

  /**
   * register: reject a taken username, then a taken email, before any
   * write; resolve the requested role names to role records (a missing
   * record throws); then save the account with the encoded password.
   */
  method Register(repo: UserRepository, roleStore: map<AppRole, Role>, encode: string -> string, req: SignupRequest)
    returns (r: Outcome<MessageEntity>)
    requires repo.Valid()
    modifies repo
    ensures repo.Valid()
    ensures Registration(r, repo.users) == RegisterSpec(old(repo.users), old(repo.nextId), roleStore, encode, req)
    ensures repo.nextId == if |repo.users| == |old(repo.users)| then old(repo.nextId) else old(repo.nextId) + 1
    ensures AccountsUnique(old(repo.users)) ==> AccountsUnique(repo.users)
  {
    if repo.ExistsByUserName(req.username) {
      return Returned(MessageEntity(BadRequest, MessageResponse(UsernameTaken)));
    }
    if repo.ExistsByEmail(req.email) {
      return Returned(MessageEntity(BadRequest, MessageResponse(EmailInUse)));
    }

    var user := User(0, req.username, req.email, encode(req.password), {});
    var roles: set<Role> := {};
    match req.role {
      case None =>
        if ROLE_USER !in roleStore {
          return Threw(RuntimeException(RoleNotFound));
        }
        roles := roles + {roleStore[ROLE_USER]};
        assert roles == RolesOf(RequestedKinds(req.role), roleStore);
      case Some(strRoles) =>
        var remaining := strRoles;
        ghost var kinds: set<AppRole> := {};
        while remaining != {}
          invariant remaining <= strRoles
          invariant kinds <= roleStore.Keys
          invariant kinds + (set s | s in remaining :: RoleKind(s)) == RequestedKinds(req.role)
          invariant roles == RolesOf(kinds, roleStore)
          decreases remaining
        {
          var name :| name in remaining;
          var kind := RoleKind(name);
          if kind !in roleStore {
            assert kind in RequestedKinds(req.role);
            return Threw(RuntimeException(RoleNotFound));
          }
          roles := roles + {roleStore[kind]};
          ghost var before := set s | s in remaining :: RoleKind(s);
          remaining := remaining - {name};
          assert before == (set s | s in remaining :: RoleKind(s)) + {kind};
          kinds := kinds + {kind};
        }
        assert (set s | s in remaining :: RoleKind(s)) == {};
        assert roles == RolesOf(RequestedKinds(req.role), roleStore);
    }

    user := user.(roles := roles);
    var saved := repo.Save(user);
    if AccountsUnique(old(repo.users)) {
      RegisterKeepsAccountsUnique(old(repo.users), old(repo.nextId), roleStore, encode, req);
    }
    return Returned(MessageEntity(Ok, MessageResponse(RegisteredSuccessfully)));
  }

  /** A taken username is rejected first (even when the email is taken too) and nothing is written. */
  lemma DuplicateUsernameRejected(users: seq<User>, nextId: int, roleStore: map<AppRole, Role>,
                                  encode: string -> string, req: SignupRequest, k: nat)
    requires k < |users| && users[k].userName == req.username
    ensures RegisterSpec(users, nextId, roleStore, encode, req)
         == Registration(Returned(MessageEntity(BadRequest, MessageResponse("Error: Username is already taken!"))), users)
  {
  }

  /** With a free username, a taken email is rejected and nothing is written. */
  lemma DuplicateEmailRejected(users: seq<User>, nextId: int, roleStore: map<AppRole, Role>,
                               encode: string -> string, req: SignupRequest, k: nat)
    requires forall i :: 0 <= i < |users| ==> users[i].userName != req.username
    requires k < |users| && users[k].email == req.email
    ensures RegisterSpec(users, nextId, roleStore, encode, req)
         == Registration(Returned(MessageEntity(BadRequest, MessageResponse("Error: Email is already in use!"))), users)
  {
  }

  /**
   * A needed role record that is missing throws before the save, so nothing
   * is written: ROLE_USER when no role set is given, or the kind of some
   * requested name.
   */
  lemma MissingRoleRejected(users: seq<User>, nextId: int, roleStore: map<AppRole, Role>,
                            encode: string -> string, req: SignupRequest)
    requires forall i :: 0 <= i < |users| ==> users[i].userName != req.username && users[i].email != req.email
    requires || (req.role.None? && ROLE_USER !in roleStore)
             || (req.role.Some? && exists name :: name in req.role.value && RoleKind(name) !in roleStore)
    ensures RegisterSpec(users, nextId, roleStore, encode, req)
         == Registration(Threw(RuntimeException("Error: Role is not found.")), users)
  {
  }

  /**
   * A registration that succeeds appends exactly one account: the requested
   * username and email, the encoded password, and the record of every
   * requested role kind.
   */
  lemma RegisterSuccess(users: seq<User>, nextId: int, roleStore: map<AppRole, Role>,
                        encode: string -> string, req: SignupRequest)
    requires RegisterSpec(users, nextId, roleStore, encode, req).response.Returned?
    requires RegisterSpec(users, nextId, roleStore, encode, req).response.value.status == Ok
    ensures var after := RegisterSpec(users, nextId, roleStore, encode, req);
      && after.response.value.body == MessageResponse("User registered successfully!")
      && |after.users| == |users| + 1 && after.users[..|users|] == users
      && var saved := after.users[|users|];
         && saved.userId == nextId && saved.userName == req.username && saved.email == req.email
         && saved.password == encode(req.password)
         && forall role :: role in saved.roles <==> exists k :: k in RequestedKinds(req.role) && k in roleStore && roleStore[k] == role
  {
  }

  /** Registration keeps usernames and emails unique across the store. */
  lemma RegisterKeepsAccountsUnique(users: seq<User>, nextId: int, roleStore: map<AppRole, Role>,
                                    encode: string -> string, req: SignupRequest)
    requires AccountsUnique(users)
    ensures AccountsUnique(RegisterSpec(users, nextId, roleStore, encode, req).users)
  {
  }

  /**
   * After a successful registration the new account is the one found under
   * its username, and every other username finds what it found before.
   */
  lemma RegisteredAccountIsFound(users: seq<User>, nextId: int, roleStore: map<AppRole, Role>,
                                 encode: string -> string, req: SignupRequest, other: string)
    requires RegisterSpec(users, nextId, roleStore, encode, req).response == Returned(MessageEntity(Ok, MessageResponse(RegisteredSuccessfully)))
    requires other != req.username
    ensures var after := RegisterSpec(users, nextId, roleStore, encode, req).users;
      && FindByUserName(after, req.username) == Some(after[|after| - 1])
      && FindByUserName(after, other) == FindByUserName(users, other)
  {
    var kinds := RequestedKinds(req.role);
    var account := NewAccount(nextId, req, encode, RolesOf(kinds, roleStore));
    FindAppended(users, account);
    FindUnaffectedByAppend(users, account, other);
  }

  /**
   * When each role record carries its own kind, the saved account's role
   * names are exactly the requested kinds: {"admin"} gives only ROLE_ADMIN,
   * no role set gives only ROLE_USER, an empty set gives none.
   */
  lemma SavedRoleNames(users: seq<User>, nextId: int, roleStore: map<AppRole, Role>,
                       encode: string -> string, req: SignupRequest)
    requires forall k :: k in roleStore ==> roleStore[k].roleName == k
    requires RegisterSpec(users, nextId, roleStore, encode, req).users != users
    ensures var saved := RegisterSpec(users, nextId, roleStore, encode, req).users[|users|];
      && (set role | role in saved.roles :: role.roleName) == RequestedKinds(req.role)
      && (req.role == Some({"admin"}) ==> (set role | role in saved.roles :: role.roleName) == {ROLE_ADMIN})
      && (req.role == None ==> (set role | role in saved.roles :: role.roleName) == {ROLE_USER})
      && (req.role == Some({}) ==> saved.roles == {})
  {
  }

  // ---------------------------------------------------------------- current user, logout

  /** getCurrentUserDetails: id, username and authorities of the principal, without email or token. */
  function GetCurrentUserDetails(authentication: Option<Authentication>): (r: Outcome<UserInfoResponse>)
    ensures authentication.None? <==> r == Threw(NullPointerException)
    ensures r.Returned? ==>
      var details := authentication.value.principal;
      && r.value.id == details.id && r.value.username == details.username && r.value.roles == details.authorities
      && r.value.email.None? && r.value.jwtToken.None?
  {
    match authentication
    case None => Threw(NullPointerException)
    case Some(auth) =>
      var details := auth.principal;
      Returned(Summary(details.id, details.username, details.authorities))
  }

  /** logoutUser: the invalidation cookie for the application path. */
  function LogoutUser(cfg: JwtConfig): (c: ResponseCookie)
    ensures c == GetCleanJwtCookie(cfg)
    ensures c.name == cfg.jwtCookie && c.value == "" && c.maxAge == 0 && c.path == "/api"
  {
    GetCleanJwtCookie(cfg)
  }
}
