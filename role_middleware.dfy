/**
 * The role gate placed in front of a route: a request without a user is
 * refused with 401, a user whose role id is not in the allowed list with 403,
 * and every other request passes on to the handler.
 */
module RoleMiddleware {
  import opened Common
  import opened Models

  datatype Decision = Refused(code: int) | Next

  /** requireRole(allowedRoles) applied to a request carrying `user`. */
  function RequireRole(allowedRoles: seq<int>, user: Option<AuthUser>): (d: Decision)
    ensures d == Next <==> user.Some? && user.value.roleId in allowedRoles
    ensures user.None? ==> d == Refused(Unauthorized)
    ensures user.Some? && user.value.roleId !in allowedRoles ==> d == Refused(Forbidden)
  {
    if user.None? then Refused(Unauthorized)
    else if user.value.roleId !in allowedRoles then Refused(Forbidden)
    else Next
  }

  const AdminRoles: seq<int> := [RoleAdmin]
  const StaffRoles: seq<int> := [RoleStaff, RoleAdmin]
  const AllRoles: seq<int> := [RoleUser, RoleStaff, RoleAdmin]

  function RequireAdmin(user: Option<AuthUser>): Decision { RequireRole(AdminRoles, user) }
  function RequireStaff(user: Option<AuthUser>): Decision { RequireRole(StaffRoles, user) }
  function RequireStaffOrAdmin(user: Option<AuthUser>): Decision { RequireRole(StaffRoles, user) }
  function RequireUser(user: Option<AuthUser>): Decision { RequireRole(AllRoles, user) }

  /** Which callers each preset lets through, by role id. */
  lemma PresetsAdmit(u: AuthUser)
    ensures RequireAdmin(Some(u)) == Next <==> u.roleId == RoleAdmin
    ensures RequireStaff(Some(u)) == Next <==> u.roleId == RoleStaff || u.roleId == RoleAdmin
    ensures RequireStaffOrAdmin(Some(u)) == RequireStaff(Some(u))
    ensures RequireUser(Some(u)) == Next <==> 1 <= u.roleId <= 3
  {
  }

  /** The default `allowedRoles = []` refuses everyone, with 401 or 403. */
  lemma EmptyAllowListRefusesAll(user: Option<AuthUser>)
    ensures RequireRole([], user).Refused?
  {
  }

  /** Widening the allowed list never refuses a caller that the narrower list admits. */
  lemma {:induction false} RequireRoleMonotone(narrow: seq<int>, wide: seq<int>, user: Option<AuthUser>)
    requires forall r :: r in narrow ==> r in wide
    requires RequireRole(narrow, user) == Next
    ensures RequireRole(wide, user) == Next
  {
    assert user.value.roleId in narrow;
  }
}
