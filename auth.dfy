/** Callers as the authentication middleware presents them: a user id and a role. */
module Auth {

  type UserId = nat

  datatype Role = PatientRole | DoctorRole | AdminRole

  /** `req.user`: the authenticated caller. */
  datatype Actor = Actor(id: UserId, role: Role)

  /** `authorize(roles)`: the route lets the caller through only when its role is listed. */
  predicate Authorized(caller: Actor, roles: set<Role>) {
    caller.role in roles
  }
}
