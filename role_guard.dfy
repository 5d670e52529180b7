/**
 * `roleGuard(...allowedRoles)` (backend/src/interfaces/http/middlewares/role.guard.ts):
 * the pre-handler that admits or rejects a request by the role in its token.
 */
module RoleGuard {
  import opened Wrappers
  import opened Store

  datatype Decision = Pass | Reject(status: int, message: string)

  /**
   * No authenticated user is a 401; SUPERADMIN and ADMIN always pass; any
   * other role passes exactly when it is one of the allowed roles, else 403.
   */
  function Guard(user: Option<Role>, allowed: seq<Role>): (d: Decision)
    ensures d == Pass <==> user.Some? && (user.value == SUPERADMIN || user.value == ADMIN || user.value in allowed)
    ensures d.Reject? ==> (d.status == 401 <==> user.None?) && d.status in {401, 403}
    ensures d.Reject? ==> d.message == (if user.None? then "Unauthorized" else "Forbidden")
  {
    if user.None? then Reject(401, "Unauthorized")
    else if user.value == SUPERADMIN || user.value == ADMIN then Pass
    else if user.value !in allowed then Reject(403, "Forbidden")
    else Pass
  }

  /** A guard for USER alone turns a regional administrator away but admits the two bypass roles. */
  lemma UserOnlyGuard()
    ensures Guard(Some(ADMIN_REGIONAL), [USER]) == Reject(403, "Forbidden")
    ensures Guard(Some(SUPERADMIN), [USER]) == Pass && Guard(Some(ADMIN), [USER]) == Pass
    ensures Guard(Some(USER), [USER]) == Pass
  {
  }

  /** Adding roles to the allowed list never turns away a request the shorter list admitted. */
  lemma GuardMonotone(user: Option<Role>, allowed: seq<Role>, more: seq<Role>)
    requires Guard(user, allowed) == Pass
    ensures Guard(user, allowed + more) == Pass
  {
    if user.Some? && user.value in allowed {
      assert user.value in allowed + more;
    }
  }
}
