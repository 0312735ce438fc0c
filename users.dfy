/**
 * Accounts and roles as the authentication core sees them, and the user
 * store that registration writes to.
 */
module Users {
  import opened Wrappers

  /** The three role kinds; each names one record of the role store. */
  datatype AppRole = ROLE_USER | ROLE_SELLER | ROLE_ADMIN

  /** A role record of the role store. */
  datatype Role = Role(roleId: int, roleName: AppRole)

  /** A stored account; `password` holds the encoded password, never the plaintext. */
  datatype User = User(userId: int, userName: string, email: string, password: string, roles: set<Role>)

  /** The authenticated principal: its id, username, email, encoded password and authority strings in order. */
  datatype UserDetails = UserDetails(id: int, username: string, email: string, password: string, authorities: seq<string>)

  /** The result of a successful authentication: the name it was made for and the principal. */
  datatype Authentication = Authentication(name: string, principal: UserDetails)

  /** An authentication whose principal is a UserDetails reports that principal's username as its name. */
  predicate NamesItsPrincipal(authentication: Authentication)
  {
    authentication.name == authentication.principal.username
  }

  /** The first stored user with the given username, if there is one. */
  function FindByUserName(users: seq<User>, name: string): (r: Option<User>)
    ensures r.None? <==> forall i :: 0 <= i < |users| ==> users[i].userName != name
    ensures r.Some? ==> r.value in users && r.value.userName == name
  {
    if users == [] then None
    else if users[0].userName == name then Some(users[0])
    else FindByUserName(users[1..], name)
  }

  /** Appending a user whose name is new makes that user the one found under its name. */
  lemma {:induction false} FindAppended(users: seq<User>, user: User)
    requires !UserNameTaken(users, user.userName)
    ensures FindByUserName(users + [user], user.userName) == Some(user)
  {
    if users != [] {
      assert (users + [user])[1..] == users[1..] + [user];
      FindAppended(users[1..], user);
    }
  }

  /** Appending a user does not change what is found under any other name. */
  lemma {:induction false} FindUnaffectedByAppend(users: seq<User>, user: User, name: string)
    requires name != user.userName
    ensures FindByUserName(users + [user], name) == FindByUserName(users, name)
  {
    if users != [] {
      assert (users + [user])[1..] == users[1..] + [user];
      FindUnaffectedByAppend(users[1..], user, name);
    }
  }

  predicate UserNameTaken(users: seq<User>, name: string)
  {
    exists i :: 0 <= i < |users| && users[i].userName == name
  }

  predicate EmailTaken(users: seq<User>, email: string)
  {
    exists i :: 0 <= i < |users| && users[i].email == email
  }

  /** Usernames and emails are each held by at most one stored user. */
  ghost predicate AccountsUnique(users: seq<User>)
  {
    forall i, j :: 0 <= i < j < |users| ==>
      users[i].userName != users[j].userName && users[i].email != users[j].email
  }

  /**
   * The user store. `save` appends the user and assigns it the next
   * identity, as the database's generated key does.
   */
  class UserRepository {
    var users: seq<User>
    var nextId: int

    /** Every stored id was handed out before `nextId`. */
    ghost predicate Valid()
      reads this
    {
      forall i :: 0 <= i < |users| ==> users[i].userId < nextId
    }

    constructor ()
      ensures Valid() && users == [] && nextId == 1
    {
      users := [];
      nextId := 1;
    }

    predicate ExistsByUserName(name: string)
      reads this
    {
      UserNameTaken(users, name)
    }

    predicate ExistsByEmail(email: string)
      reads this
    {
      EmailTaken(users, email)
    }

    /** Stores `user` under a fresh id and returns the stored record. */
    method Save(user: User) returns (saved: User)
      requires Valid()
      modifies this
      ensures Valid()
      ensures saved == user.(userId := old(nextId))
      ensures forall i :: 0 <= i < |old(users)| ==> old(users)[i].userId != saved.userId
      ensures users == old(users) + [saved] && nextId == old(nextId) + 1
    {
      saved := user.(userId := nextId);
      users := users + [saved];
      nextId := nextId + 1;
    }
  }
}
