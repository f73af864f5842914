/**
 * The isAdmin middleware of middlewares/auth.js. A caller whose resolved role is
 * admin goes on to the route; any other caller is looked up again with
 * `User.findByPk`, which Mongoose models do not define, so in the code as written
 * that call throws and the answer is 500. `findByPkThrows` keeps both readings.
 */
module AuthMiddleware {
  import opened Wrappers
  import opened Models
  import opened Store
  import opened Passport

  /** next() or a response that ends the request. */
  datatype Gate = Next | Deny(response: Response)

  function IsAdmin(caller: Option<Profile>, users: map<Id, User>, findByPkThrows: bool): (g: Gate)
    ensures caller.Some? && caller.value.role == Admin ==> g == Next
    ensures g.Next? <==>
              caller.Some? &&
              (caller.value.role == Admin ||
               (!findByPkThrows && caller.value.id in users && users[caller.value.id].role == Admin))
    ensures g.Deny? ==> g.response.code == 403 || g.response.code == 500
    ensures g.Deny? ==> (g.response.code == 500 <==> caller.None? || findByPkThrows)
  {
    if caller.Some? && caller.value.role == Admin then Next
    // without req.user, reading req.user.id throws as well
    else if caller.None? || findByPkThrows then Deny(Response(500, Msg(PermissionCheckFailed)))
    else if caller.value.id !in users || users[caller.value.id].role != Admin then
      Deny(Response(403, Msg(AdminOnly)))
    else Next
  }

  /** An admin passes without the store being consulted: the outcome depends on nothing else. */
  lemma AdminPassesWithoutLookup(admin: Profile, users1: map<Id, User>, users2: map<Id, User>, throws1: bool, throws2: bool)
    requires admin.role == Admin
    ensures IsAdmin(Some(admin), users1, throws1) == IsAdmin(Some(admin), users2, throws2) == Next
  {
  }

  /**
   * A caller that passport has just resolved from the store, and that is not an
   * admin, never reaches next(), however findByPk behaves.
   */
  lemma ResolvedNonAdminDenied(users: map<Id, User>, token: Option<Payload>, caller: Profile, findByPkThrows: bool)
    requires Authenticate(users, token, false) == Authenticated(caller)
    requires caller.role != Admin
    ensures IsAdmin(Some(caller), users, findByPkThrows).Deny?
    ensures IsAdmin(Some(caller), users, findByPkThrows).response.code in {403, 500}
  {
  }
}
