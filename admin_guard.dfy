/**
 * backend/core/admin.py: the role-only guard layered on `get_current_user`.
 * It reads the role with `getattr(user, "role", "admin")`, so an object
 * without a role attribute counts as an admin; the status check is commented
 * out in the source.
 */
module AdminGuard {
  import opened Common
  import opened Models
  import opened Auth

  /**
   * `require_admin` of backend/core/admin.py over any object, given the text of
   * its `role` attribute (`None` when it has none). The object itself is returned.
   */
  function RequireAdmin<T>(subject: T, role: Option<string>): (r: Result<T, HttpError>)
    ensures r.Ok? <==> role.None? || role.value == "admin"
    ensures r.Ok? ==> r.value == subject
    ensures r.Err? ==> r.error == AdminRequired
  {
    var effective := if role.Some? then role.value else "admin";
    if effective != "admin" then Err(AdminRequired) else Ok(subject)
  }

  /** The role attribute of a stored user is its role's value. */
  function RoleOf(u: User): Option<string>
  {
    Some(RoleName(u.role))
  }

  /**
   * On a stored user this guard agrees with `Auth.RequireAdmin`: both read
   * only the role, so a disabled admin passes both.
   */
  lemma AgreesWithAuthGuard(u: User)
    ensures RequireAdmin(u, RoleOf(u)) == Auth.RequireAdmin(u)
    ensures u.role == Admin ==> RequireAdmin(u, RoleOf(u)) == Ok(u)
  {
    assert RoleName(u.role) == "admin" <==> u.role == Admin;
  }
}
