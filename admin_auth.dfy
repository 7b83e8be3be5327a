/**
 * backend/dependencies/admin_auth.py: a second admin guard that decodes the
 * token itself. Its settings module is not part of this model, so its
 * `jwt.decode` is a parameter like the one of `Auth`.
 */
module AdminAuth {
  import opened Common
  import opened Models
  import opened Auth

  const InvalidToken := HttpError(401, "Invalid token")

  const UserNotFound := HttpError(401, "User not found")

  /** `get_current_admin_user`: decode, look up, check the role; the status is never read. */
  function GetCurrentAdminUser(token: string, decode: string -> Option<Claims>,
                               users: map<int, User>, next: int): (r: Result<User, HttpError>)
    ensures r.Ok? ==> r.value in users.Values && r.value.role == Admin
    ensures r.Ok? ==> decode(token).Some? && Subject(decode(token).value) == Some(r.value.username)
    ensures r.Err? ==> r.error == InvalidToken || r.error == UserNotFound || r.error == AdminRequired
  {
    match decode(token)
    case None => Err(InvalidToken)
    case Some(c) =>
      match Subject(c)
      case None => Err(InvalidToken)
      case Some(name) =>
        match UserByName(users, next, name)
        case None => Err(UserNotFound)
        case Some(id) =>
          if users[id].role != Admin then Err(AdminRequired) else Ok(users[id])
  }

  /**
   * The outcomes of `get_current_admin_user`: 401 "Invalid token" when the
   * token does not decode or has no usable `sub`, 401 "User not found" when
   * nobody has that name, 403 for a stored user that is not an admin, and the
   * stored admin otherwise, whatever its status.
   */
  lemma AdminUserOutcome(token: string, decode: string -> Option<Claims>,
                         users: map<int, User>, next: int)
    requires UsersValid(users, next) && UsernamesUnique(users)
    ensures var r := GetCurrentAdminUser(token, decode, users, next);
            && (decode(token).None? ==> r == Err(InvalidToken))
            && (decode(token).Some? && Subject(decode(token).value).None? ==> r == Err(InvalidToken))
            && (decode(token).Some? && Subject(decode(token).value).Some? ==>
                  var name := Subject(decode(token).value).value;
                  && ((forall k :: k in users ==> users[k].username != name) ==> r == Err(UserNotFound))
                  && (forall k :: k in users && users[k].username == name ==>
                        r == (if users[k].role != Admin then Err(AdminRequired) else Ok(users[k]))))
  {
    match decode(token)
    case None =>
    case Some(c) =>
      match Subject(c)
      case None =>
      case Some(name) =>
        forall k | k in users && users[k].username == name
          ensures GetCurrentAdminUser(token, decode, users, next)
                  == (if users[k].role != Admin then Err(AdminRequired) else Ok(users[k]))
        {
          UserByNameFindsUnique(users, next, k);
        }
  }

  /**
   * The two admin guards differ exactly on disabled admins: this one lets them
   * in, the chain of `Auth` answers 403 "Account disabled". On every other
   * token both accept the same user or both refuse.
   */
  lemma GuardsDifferOnlyOnDisabledAdmins(token: string, decode: string -> Option<Claims>,
                                         users: map<int, User>, next: int)
    ensures var mine := GetCurrentAdminUser(token, decode, users, next);
            var chain := AdminChain(token, decode, users, next);
            && (mine.Ok? && chain.Err? <==> mine.Ok? && mine.value.status == Disabled)
            && (mine.Ok? && chain.Err? ==> chain.error == AccountDisabled)
            && (chain.Ok? ==> mine == chain)
            && (mine.Err? ==> chain.Err?)
  {
  }
}
