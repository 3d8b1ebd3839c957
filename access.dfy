/**
 * Role gating: each router declares the roles it lets through once the
 * authentication middleware has turned the bearer token into an identity.
 */
module Access {
  import opened Schema

  datatype Router =
    | AdminRouter    // server/routes/admin.js: requireRole('ADMIN')
    | StoreRouter    // server/routes/stores.js: requireRole('USER', 'ADMIN', 'OWNER')
    | OwnerRouter    // server/routes/owner.js: requireRole('OWNER')
    | PasswordRoute  // PUT /auth/password: authMiddleware only, every role

  /** The role allow-list a router declares. */
  function AllowedRoles(router: Router): set<Role> {
    match router
    case AdminRouter => {AdminRole}
    case StoreRouter => {UserRole, AdminRole, OwnerRole}
    case OwnerRouter => {OwnerRole}
    case PasswordRoute => {AdminRole, UserRole, OwnerRole}
  }

  datatype Gate = Admitted | Forbidden

  /** The role check after authentication: 403 unless the caller's role is on the list. */
  function RequireRole(router: Router, caller: Identity): (g: Gate)
    ensures g == Admitted <==> caller.role in AllowedRoles(router)
  {
    if caller.role in AllowedRoles(router) then Admitted else Forbidden
  }

  function GateStatus(g: Gate): nat {
    match g
    case Admitted => 200
    case Forbidden => 403
  }

  /** Only administrators pass the admin router; a USER token gets 403. */
  lemma AdminRouterAdmitsOnlyAdmins(caller: Identity)
    ensures RequireRole(AdminRouter, caller) == Admitted <==> caller.role == AdminRole
    ensures caller.role == UserRole ==> GateStatus(RequireRole(AdminRouter, caller)) == 403
  {
  }

  /** Only owners pass the owner router. */
  lemma OwnerRouterAdmitsOnlyOwners(caller: Identity)
    ensures RequireRole(OwnerRouter, caller) == Admitted <==> caller.role == OwnerRole
  {
  }

  /** Every role may list and rate stores. */
  lemma StoreRouterAdmitsEveryRole(caller: Identity)
    ensures RequireRole(StoreRouter, caller) == Admitted
  {
    match caller.role
    case UserRole =>
    case AdminRole =>
    case OwnerRole =>
  }
}
