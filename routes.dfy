/**
 * The route table: for every endpoint, the middleware chain the application
 * declares (passport.authenticate, then isAdmin where it is listed) in front of
 * the handler, run as one atomic step on the store; and runs of such requests.
 */
module Routes {
  import opened Wrappers
  import opened Models
  import opened Store
  import opened Passport
  import opened AuthMiddleware
  import App
  import DebtRoutes

  /** An HTTP request with the fields its handler reads; `token` is the bearer token's payload, if it verifies. */
  datatype Request =
    | PostRegister(username: string, password: string, confirmPassword: string, role: string)
    | PostLogin(username: string, password: string)
    | GetUser(token: Option<Payload>, id: Id)
    | PutUser(token: Option<Payload>, id: Id, username: string, password: string, role: string)
    | GetUsers(token: Option<Payload>)
    | DeleteUser(token: Option<Payload>, id: Id)
    | PostDebt(token: Option<Payload>, userId: Id, name: string, value: int, dueDate: string)
    | GetDebts(token: Option<Payload>, userId: Id)
    | PutDebtStatus(token: Option<Payload>, debtId: Id, status: string)
    | PutDebtEdit(token: Option<Payload>, debtId: Id, userId: Id, name: string, value: int,
                  dueDate: string, status: string)
    | DeleteDebt(token: Option<Payload>, debtId: Id)

  /**
   * What the environment contributes to one request: a bcrypt salt, the ObjectId a
   * new document gets, whether passport's User.findById raises, and whether
   * `User.findByPk` throws in isAdmin.
   */
  datatype Env = Env(salt: nat, newId: Id, lookupFails: bool, findByPkThrows: bool)

  predicate IsPublic(r: Request) {
    r.PostRegister? || r.PostLogin?
  }

  /** The routes declared with isAdmin after passport.authenticate. */
  predicate IsAdminRoute(r: Request) {
    r.GetUser? || r.GetUsers? || r.PostDebt? || r.DeleteDebt?
  }

  /** The handler itself, once the middleware has let the request through. */
  function Handle(s: State, r: Request, caller: Profile, e: Env): Outcome
    requires !IsPublic(r)
  {
    match r
    case GetUser(_, id) => Outcome(App.GetUser(s, id), s)
    case PutUser(_, id, username, password, role) => App.UpdateUser(s, caller, id, username, password, role, e.salt)
    case GetUsers(_) => Outcome(App.ListUsers(s), s)
    case DeleteUser(_, id) => App.DeleteUser(s, caller, id)
    case PostDebt(_, userId, name, value, dueDate) => DebtRoutes.AddDebt(s, userId, name, value, dueDate, e.newId)
    case GetDebts(_, userId) => Outcome(DebtRoutes.ListDebts(s, caller, userId), s)
    case PutDebtStatus(_, debtId, status) => DebtRoutes.UpdateStatus(s, caller, debtId, status)
    case PutDebtEdit(_, debtId, userId, name, value, dueDate, status) =>
      DebtRoutes.EditDebt(s, caller, debtId, userId, name, value, dueDate, status)
    case DeleteDebt(_, debtId) => DebtRoutes.DeleteDebt(s, debtId)
  }

  /** A protected route: passport first, then isAdmin where the route lists it, then the handler. */
  function Protected(s: State, r: Request, e: Env): Outcome
    requires !IsPublic(r)
  {
    var a := Authenticate(s.users, r.token, e.lookupFails);
    if !a.Authenticated? then Outcome(Refusal(a), s)
    else if !IsAdminRoute(r) then Handle(s, r, a.caller, e)
    else
      match IsAdmin(Some(a.caller), s.users, e.findByPkThrows)
      case Deny(response) => Outcome(response, s)
      case Next => Handle(s, r, a.caller, e)
  }

  /** One request, from its arrival to its answer. */
  function Step(s: State, r: Request, e: Env): Outcome
    requires Valid(s)
  {
    if r.PostRegister? then
      App.Register(s, r.username, r.password, r.confirmPassword, r.role, e.salt, e.newId)
    else if r.PostLogin? then Outcome(App.Login(s, r.username, r.password), s)
    else Protected(s, r, e)
  }

  lemma StepKeepsValid(s: State, r: Request, e: Env)
    requires Valid(s)
    ensures Valid(Step(s, r, e).state)
  {
    match r
    case PostRegister(username, password, confirmPassword, role) =>
      App.RegisterKeepsValid(s, username, password, confirmPassword, role, e.salt, e.newId);
    case PutUser(_, id, username, password, role) =>
      var a := Authenticate(s.users, r.token, e.lookupFails);
      if a.Authenticated? {
        App.UpdateKeepsValid(s, a.caller, id, username, password, role, e.salt);
      }
    case DeleteUser(_, id) =>
      var a := Authenticate(s.users, r.token, e.lookupFails);
      if a.Authenticated? {
        App.DeleteUserKeepsValid(s, a.caller, id);
      }
    case PostDebt(_, userId, name, value, dueDate) =>
      DebtRoutes.DebtHandlersKeepValid(s, Profile("", "", Cliente), e.newId, userId, name, value, dueDate, "");
    case PutDebtStatus(_, debtId, status) =>
      var a := Authenticate(s.users, r.token, e.lookupFails);
      if a.Authenticated? {
        DebtRoutes.DebtHandlersKeepValid(s, a.caller, debtId, "", "", 0, "", status);
      }
    case PutDebtEdit(_, debtId, userId, name, value, dueDate, status) =>
      var a := Authenticate(s.users, r.token, e.lookupFails);
      if a.Authenticated? {
        DebtRoutes.DebtHandlersKeepValid(s, a.caller, debtId, userId, name, value, dueDate, status);
      }
    case DeleteDebt(_, debtId) =>
      DebtRoutes.DebtHandlersKeepValid(s, Profile("", "", Cliente), debtId, "", "", 0, "", "");
    case _ =>
  }

  /** The store after a run of requests, each with its environment, on a store that starts valid. */
  function Run(s: State, trace: seq<(Request, Env)>): (t: State)
    requires Valid(s)
    ensures Valid(t)
    decreases |trace|
  {
    if trace == [] then s
    else
      StepKeepsValid(s, trace[0].0, trace[0].1);
      Run(Step(s, trace[0].0, trace[0].1).state, trace[1..])
  }
}

module RouteProperties {
  import opened Wrappers
  import opened Models
  import opened Store
  import opened Passport
  import opened AuthMiddleware
  import opened Routes
  import App
  import DebtRoutes

  /**
   * Who may change the store, route by route, written independently of the
   * handlers: registration is public; a user may be updated or deleted by its owner
   * or an admin, and only an admin may change a role; debts are created, edited and
   * deleted by admins, and their status changed by an admin or the debt's owner;
   * login and the GET routes change nothing. The caller is the one passport
   * resolves from the store.
   */
  predicate MayChange(s: State, r: Request, e: Env) {
    if r.PostRegister? then true
    else if r.PostLogin? then false
    else
      var a := Authenticate(s.users, r.token, e.lookupFails);
      a.Authenticated? &&
      var c := a.caller;
      match r
      case PutUser(_, id, _, _, role) => (c.id == id || c.role == Admin) && (role != "" ==> c.role == Admin)
      case DeleteUser(_, id) => c.id == id || c.role == Admin
      case PostDebt(_, _, _, _, _) => c.role == Admin
      case PutDebtStatus(_, debtId, _) => c.role == Admin || (debtId in s.debts && s.debts[debtId].userId == c.id)
      case PutDebtEdit(_, _, _, _, _, _, _) => c.role == Admin
      case DeleteDebt(_, _) => c.role == Admin
      case GetUser(_, _) => false
      case GetUsers(_) => false
      case GetDebts(_, _) => false
      case PostRegister(_, _, _, _) => true
      case PostLogin(_, _) => false
  }

  /** Every request that changes the store is one the policy allows. */
  lemma StepRespectsPolicy(s: State, r: Request, e: Env)
    requires Valid(s)
    ensures Step(s, r, e).state != s ==> MayChange(s, r, e)
  {
    if !IsPublic(r) {
      var a := Authenticate(s.users, r.token, e.lookupFails);
      if a.Authenticated? && IsAdminRoute(r) && a.caller.role != Admin {
        ResolvedNonAdminDenied(s.users, r.token, a.caller, e.findByPkThrows);
      }
    }
  }

  /** A refusal (any answer outside 2xx), at any stage of any route, leaves both collections as they were. */
  lemma StepRejectedUnchanged(s: State, r: Request, e: Env)
    requires Valid(s)
    ensures !Success(Step(s, r, e).response) ==> Step(s, r, e).state == s
  {
    match r
    case PutUser(_, id, username, password, role) =>
      var a := Authenticate(s.users, r.token, e.lookupFails);
      if a.Authenticated? {
        App.UpdateRejectedUnchanged(s, a.caller, id, username, password, role, e.salt);
      }
    case _ =>
  }

  /**
   * A token whose id passport cannot resolve (no token, or a user deleted since
   * login) gets 401 on every protected route, and nothing changes.
   */
  lemma UnresolvedTokenRefused(s: State, r: Request, e: Env)
    requires Valid(s) && !IsPublic(r) && !e.lookupFails
    requires r.token.None? || r.token.value.id !in s.users
    ensures Step(s, r, e) == Outcome(Response(401, Msg(Unauthorized)), s)
  {
  }

  /** A failing lookup in passport is an error (500), never an authenticated request. */
  lemma LookupErrorRefused(s: State, r: Request, e: Env)
    requires Valid(s) && !IsPublic(r) && e.lookupFails && r.token.Some?
    ensures Step(s, r, e) == Outcome(Response(500, Msg(AuthenticationError)), s)
  {
  }

  /**
   * On the four isAdmin routes, a token that resolves to a stored non-admin is
   * refused with 403 or 500 and the store is unchanged, whatever role the token was
   * signed with: a demotion applies to tokens issued before it.
   */
  lemma AdminRouteRefusesNonAdmin(s: State, r: Request, e: Env)
    requires Valid(s) && IsAdminRoute(r) && !e.lookupFails
    requires r.token.Some? && r.token.value.id in s.users && s.users[r.token.value.id].role != Admin
    ensures Step(s, r, e).response.code in {403, 500}
    ensures Step(s, r, e).state == s
  {
    var a := Authenticate(s.users, r.token, e.lookupFails);
    ResolvedNonAdminDenied(s.users, r.token, a.caller, e.findByPkThrows);
  }

  /** The ids of the stored admins. */
  function Admins(users: map<Id, User>): (r: set<Id>)
    ensures forall k :: k in r <==> k in users && users[k].role == Admin
  {
    set k | k in users && users[k].role == Admin
  }

  /** Public registration as "admin" is the only way a store without admins gets one. */
  predicate RegistersAdmin(r: Request) {
    r.PostRegister? && r.role == "admin"
  }

  lemma StepCreatesNoAdmin(s: State, r: Request, e: Env)
    requires Valid(s) && Admins(s.users) == {} && !RegistersAdmin(r)
    ensures Admins(Step(s, r, e).state.users) == {}
  {
    if r.PutUser? {
      PutUserByNonAdminKeepsRoles(s, r, e);
    } else if r.PostRegister? {
      RegisterOtherRoleAddsNoAdmin(s, r, e);
    } else {
      StepKeepsStoredUsers(s, r, e);
    }
  }

  /** In a store without admins, a PUT /user/:id that succeeds cannot have sent a role. */
  lemma PutUserByNonAdminKeepsRoles(s: State, r: Request, e: Env)
    requires Valid(s) && Admins(s.users) == {} && r.PutUser?
    ensures Admins(Step(s, r, e).state.users) == {}
  {
    var t := Step(s, r, e).state;
    var a := Authenticate(s.users, r.token, e.lookupFails);
    if a.Authenticated? {
      assert a.caller.role != Admin;
      App.UpdateChangesOnlySentFields(s, a.caller, r.id, r.username, r.password, r.role, e.salt);
      if Step(s, r, e).response.code == 200 {
        assert r.role == "";
        assert t.users[r.id].role == s.users[r.id].role;
      }
    }
  }

  /** Registering with a role other than "admin" adds no admin. */
  lemma RegisterOtherRoleAddsNoAdmin(s: State, r: Request, e: Env)
    requires Valid(s) && Admins(s.users) == {} && r.PostRegister? && r.role != "admin"
    ensures Admins(Step(s, r, e).state.users) == {}
  {
    var t := Step(s, r, e).state;
    App.RegisterCreatesOneUser(s, r.username, r.password, r.confirmPassword, r.role, e.salt, e.newId);
    forall k | k in t.users ensures t.users[k].role != Admin {
      if k !in s.users {
        assert RoleName(t.users[k].role) == r.role;
      }
    }
  }

  /** Every route but registration and PUT /user/:id leaves each remaining user document as it was. */
  lemma StepKeepsStoredUsers(s: State, r: Request, e: Env)
    requires Valid(s) && !r.PostRegister? && !r.PutUser?
    ensures forall k :: k in Step(s, r, e).state.users ==> k in s.users && Step(s, r, e).state.users[k] == s.users[k]
  {
  }

  /**
   * Over any run: while nobody registers as "admin", a store without admins stays
   * without admins (no request by a non-admin can promote anyone).
   */
  lemma {:induction false} NoAdminWithoutAdminRegistration(s: State, trace: seq<(Request, Env)>)
    requires Valid(s) && Admins(s.users) == {}
    requires forall i :: 0 <= i < |trace| ==> !RegistersAdmin(trace[i].0)
    ensures Admins(Run(s, trace).users) == {}
    decreases |trace|
  {
    if trace != [] {
      var (r, e) := trace[0];
      StepCreatesNoAdmin(s, r, e);
      StepKeepsValid(s, r, e);
      var s' := Step(s, r, e).state;
      var rest := trace[1..];
      assert forall i :: 0 <= i < |rest| ==> !RegistersAdmin(rest[i].0) by {
        forall i | 0 <= i < |rest| ensures !RegistersAdmin(rest[i].0) {
          assert rest[i] == trace[i + 1];
        }
      }
      NoAdminWithoutAdminRegistration(s', rest);
      assert Run(s, trace) == Run(s', rest);
    }
  }

  /** ... and one anonymous request is enough to get one: registration accepts role "admin". */
  lemma AnyoneMayRegisterAsAdmin(e: Env)
    ensures var s := State(map[], map[]);
            var o := Step(s, PostRegister("mallory", "pw", "pw", "admin"), e);
            o.response.code == 201 && Admins(o.state.users) == {e.newId}
  {
    var s := State(map[], map[]);
    var o := Step(s, PostRegister("mallory", "pw", "pw", "admin"), e);
    assert !UsernameTaken(s.users, "mallory");
    assert o.state.users == map[e.newId := User("mallory", Hash("pw", e.salt), Admin)];
  }

  predicate Registers(r: Request) {
    r.PostRegister?
  }

  /** No route but registration adds a user. */
  lemma StepAddsNoUser(s: State, r: Request, e: Env)
    requires Valid(s) && !Registers(r)
    ensures Step(s, r, e).state.users.Keys <= s.users.Keys
  {
  }

  /** Only registration adds users: over a run without it, the set of user ids can only shrink. */
  lemma {:induction false} OnlyRegistrationAddsUsers(s: State, trace: seq<(Request, Env)>)
    requires Valid(s)
    requires forall i :: 0 <= i < |trace| ==> !Registers(trace[i].0)
    ensures Run(s, trace).users.Keys <= s.users.Keys
    decreases |trace|
  {
    if trace != [] {
      var (r, e) := trace[0];
      StepAddsNoUser(s, r, e);
      StepKeepsValid(s, r, e);
      var s' := Step(s, r, e).state;
      var rest := trace[1..];
      assert forall i :: 0 <= i < |rest| ==> !Registers(rest[i].0) by {
        forall i | 0 <= i < |rest| ensures !Registers(rest[i].0) {
          assert rest[i] == trace[i + 1];
        }
      }
      OnlyRegistrationAddsUsers(s', rest);
      assert Run(s, trace) == Run(s', rest);
    }
  }
}
