/**
 * The two authorisation middlewares. Each either answers 403 or hands the request on
 * to the next handler, never both and never neither.
 */
module Middleware {
  import opened Common
  import opened UserModel

  /** What a middleware does with a request: call `next()`, or answer with an error. */
  datatype Decision = Next | Deny(status: int, message: string)

  /** `adminVerified`: only an organiser whose account is not yet verified is stopped. */
  function AdminVerified(caller: Caller): (d: Decision)
    ensures d.Next? <==> caller.role != Admin || caller.isVerified
    ensures d.Deny? <==> caller.role == Admin && !caller.isVerified
    ensures d.Deny? ==> d == Deny(403, "Admin verification pending")
  {
    if caller.role == Admin && !caller.isVerified then Deny(403, "Admin verification pending") else Next
  }

  /** `superAdminOnly`: a request with no authenticated user, or any role but `superadmin`, is stopped. */
  function SuperAdminOnly(caller: Option<Caller>): (d: Decision)
    ensures d.Next? <==> caller.Some? && caller.value.role == SuperAdmin
    ensures d.Deny? ==> d == Deny(403, "SuperAdmin access only")
  {
    if caller.None? || caller.value.role != SuperAdmin then Deny(403, "SuperAdmin access only") else Next
  }
}
