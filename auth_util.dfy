/**
 * Lookups of the signed-in user by the authenticated name. The security
 * context is passed in explicitly; the lookups only read the user store.
 */
module AuthUtil {
  import opened Wrappers
  import opened Exceptions
  import opened Users

  const USER_NOT_FOUND_WITH_USERNAME: string := "User Not Found with username: "

  /** The stored user the authentication names; a missing context fails as a null dereference. */
  function LoggedInUser(repo: UserRepository, authentication: Option<Authentication>): (r: Outcome<User>)
    reads repo
    ensures authentication.None? ==> r == Threw(NullPointerException)
    ensures authentication.Some? ==>
      var name := authentication.value.name;
      && (r.Returned? <==> exists i :: 0 <= i < |repo.users| && repo.users[i].userName == name)
      && (r.Returned? ==> r.value in repo.users && r.value.userName == name)
      && (r.Threw? ==> r.exception == UsernameNotFoundException(USER_NOT_FOUND_WITH_USERNAME + name))
  {
    match authentication
    case None => Threw(NullPointerException)
    case Some(auth) =>
      match FindByUserName(repo.users, auth.name)
      case Some(user) => Returned(user)
      case None => Threw(UsernameNotFoundException(USER_NOT_FOUND_WITH_USERNAME + auth.name))
  }

  /** The email of the stored user the authentication names. */
  function LoggedInEmail(repo: UserRepository, authentication: Option<Authentication>): (r: Outcome<string>)
    reads repo
    ensures authentication.None? ==> r == Threw(NullPointerException)
    ensures authentication.Some? ==>
      var name := authentication.value.name;
      && (r.Returned? <==> exists i :: 0 <= i < |repo.users| && repo.users[i].userName == name)
      && (r.Returned? ==> exists u :: u in repo.users && u.userName == name && u.email == r.value)
      && (r.Threw? ==> r.exception == UsernameNotFoundException(USER_NOT_FOUND_WITH_USERNAME + name))
  {
    match authentication
    case None => Threw(NullPointerException)
    case Some(auth) =>
      match FindByUserName(repo.users, auth.name)
      case Some(user) => Returned(user.email)
      case None => Threw(UsernameNotFoundException(USER_NOT_FOUND_WITH_USERNAME + auth.name))
  }

  /** The id of the stored user the authentication names. */
  function LoggedInUserId(repo: UserRepository, authentication: Option<Authentication>): (r: Outcome<int>)
    reads repo
    ensures authentication.None? ==> r == Threw(NullPointerException)
    ensures authentication.Some? ==>
      var name := authentication.value.name;
      && (r.Returned? <==> exists i :: 0 <= i < |repo.users| && repo.users[i].userName == name)
      && (r.Returned? ==> exists u :: u in repo.users && u.userName == name && u.userId == r.value)
      && (r.Threw? ==> r.exception == UsernameNotFoundException(USER_NOT_FOUND_WITH_USERNAME + name))
  {
    match authentication
    case None => Threw(NullPointerException)
    case Some(auth) =>
      match FindByUserName(repo.users, auth.name)
      case Some(user) => Returned(user.userId)
      case None => Threw(UsernameNotFoundException(USER_NOT_FOUND_WITH_USERNAME + auth.name))
  }

  /**
   * The three lookups agree: the email and id are those of the user
   * loggedInUser returns, and all three fail together with the same exception.
   */
  lemma LookupsAgree(repo: UserRepository, authentication: Option<Authentication>)
    ensures match LoggedInUser(repo, authentication)
      case Returned(user) =>
        LoggedInEmail(repo, authentication) == Returned(user.email)
        && LoggedInUserId(repo, authentication) == Returned(user.userId)
      case Threw(e) =>
        LoggedInEmail(repo, authentication) == Threw(e) && LoggedInUserId(repo, authentication) == Threw(e)
  {
  }

  /** When usernames are unique, loggedInUser returns the one user holding the authenticated name. */
  lemma LoggedInUserIsTheAccount(repo: UserRepository, authentication: Authentication, k: nat)
    requires AccountsUnique(repo.users)
    requires k < |repo.users| && repo.users[k].userName == authentication.name
    ensures LoggedInUser(repo, Some(authentication)) == Returned(repo.users[k])
  {
  }
}
