/**
 * The JWT strategy of auth/passport.js: the token's payload id is looked up again
 * on every request, and the identity handed to the route is the stored user with
 * the password deselected.
 */
module Passport {
  import opened Wrappers
  import opened Models
  import opened Store

  /** done(null, user), done(null, false) and done(error, false). */
  datatype AuthResult = Authenticated(caller: Profile) | Rejected | Failed

  /**
   * `token` is None when the request carries no bearer token whose signature checks
   * out (signature verification itself is not modelled); `lookupFails` says whether
   * User.findById raised.
   */
  function Authenticate(users: map<Id, User>, token: Option<Payload>, lookupFails: bool): (a: AuthResult)
    ensures a.Authenticated? <==> token.Some? && !lookupFails && token.value.id in users
    ensures a.Failed? <==> token.Some? && lookupFails
    ensures a.Authenticated? ==>
              && a.caller.id == token.value.id
              && a.caller.username == users[token.value.id].username
              && a.caller.role == users[token.value.id].role
  {
    match token
    case None => Rejected
    case Some(p) =>
      if lookupFails then Failed
      else if p.id in users then Authenticated(ProfileOf(p.id, users[p.id]))
      else Rejected
  }

  /** The answer when authentication does not reach the route: 401 from passport, 500 from Express's error handler. */
  function Refusal(a: AuthResult): (r: Response)
    requires !a.Authenticated?
    ensures a.Rejected? ==> r.code == 401
    ensures a.Failed? ==> r.code == 500
  {
    if a.Rejected? then Response(401, Msg(Unauthorized)) else Response(500, Msg(AuthenticationError))
  }

  /**
   * The role a route sees is the one stored now, not the one signed into the token:
   * two tokens for the same id that differ only in their role authenticate alike.
   */
  lemma RoleIsReadFromStore(users: map<Id, User>, id: Id, signed1: Role, signed2: Role, lookupFails: bool)
    ensures Authenticate(users, Some(Payload(id, signed1)), lookupFails)
         == Authenticate(users, Some(Payload(id, signed2)), lookupFails)
    ensures id in users && !lookupFails ==>
              Authenticate(users, Some(Payload(id, signed1)), lookupFails).caller.role == users[id].role
  {
  }
}
