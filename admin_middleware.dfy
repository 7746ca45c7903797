/** `Backend/middleware/adminMiddleware.js`: the `adminOnly` gate. */
module AdminMiddleware {
  import opened Common
  import opened Models
  import opened AuthMiddleware

  const AdminOnlyMessage := "Access denied.Can Be Accessed By Admins only."

  /** `adminOnly(req, res, next)`: `next()` when `req.user` exists and its
      `user_role` is exactly `Admin`, with a capital A; a 403 otherwise. */
  function AdminOnly(user: Option<Claims>): (g: Gate)
    ensures g == Next <==> user.Some? && user.value.userRole == "Admin"
    ensures g != Next ==> g == Deny(403, AdminOnlyMessage)
  {
    if user.Some? && user.value.userRole == "Admin" then Next
    else Deny(403, AdminOnlyMessage)
  }

  /** The comparison is case-sensitive while the schema's roles are lower
      case, so a user whose role the schema accepts never passes the gate;
      the `admin` role included. */
  lemma NoSchemaRolePassesAdminOnly(c: Claims, r: Role)
    requires c.userRole == RoleName(r)
    ensures AdminOnly(Some(c)) == Deny(403, AdminOnlyMessage)
  {
    assert RoleName(r) != "Admin";
  }
}
