/**
 * The handlers of app.js, each as the response it sends and the store it leaves,
 * given the caller passport resolved (for the protected routes), the request
 * fields, and what the environment supplies (a bcrypt salt, a fresh ObjectId).
 * A request field that is absent is passed as "": the handlers only test the
 * truthiness of their fields, and absent and empty strings are both falsy.
 */
module App {
  import opened Wrappers
  import opened Models
  import opened Store

  /** POST /auth/register. */
  function Register(s: State, username: string, password: string, confirmPassword: string,
                    role: string, salt: nat, newId: Id): Outcome
  {
    if username == "" || password == "" || confirmPassword == "" || role == "" then
      Reject(422, AllFieldsRequired, s)
    else if password != confirmPassword then
      Reject(442, PasswordsDiffer, s)
    else if UsernameTaken(s.users, username) then
      Reject(442, UseAnotherUsername, s)
    else
      match CastRole(Some(role))
      // user.save() fails schema validation (role outside the enum) or on a duplicate _id
      case None => Reject(500, ServerError, s)
      case Some(r) =>
        if newId in s.users then Reject(500, ServerError, s)
        else Outcome(Response(201, Msg(UserCreated)),
                     s.(users := s.users[newId := User(username, Hash(password, salt), r)]))
  }

  /** POST /auth/login. Stateless: only a response. */
  function Login(s: State, username: string, password: string): Response
    requires UsernamesUnique(s.users)
  {
    if username == "" then Response(442, Msg(UsernameRequired))
    else if password == "" then Response(442, Msg(PasswordRequired))
    else if !UsernameTaken(s.users, username) then Response(442, Msg(InvalidCredentials))
    else
      var id :| id in s.users && s.users[id].username == username;
      var u := s.users[id];
      if !Matches(password, u.password) then Response(442, Msg(InvalidCredentials))
      else Response(200, LoggedIn(Payload(id, u.role), u.role, id, u.username))
  }

  /** GET /user/:id, past isAdmin. An unknown id is answered with login's 442. */
  function GetUser(s: State, id: Id): (r: Response)
    ensures r.code == 200 <==> id in s.users
    ensures r.code != 200 ==> r == Response(442, Msg(InvalidCredentials))
    ensures r.code == 200 ==> r.body == ProfileBody(ProfileOf(id, s.users[id]))
  {
    if id !in s.users then Response(442, Msg(InvalidCredentials))
    else Response(200, ProfileBody(ProfileOf(id, s.users[id])))
  }

  /** GET /users, past isAdmin: every user, password deselected. */
  function ListUsers(s: State): (r: Response)
    ensures r.code == 200 && r.body.Profiles?
    ensures forall p :: p in r.body.profiles <==> p.id in s.users && p == ProfileOf(p.id, s.users[p.id])
  {
    Response(200, Profiles(set k | k in s.users :: ProfileOf(k, s.users[k])))
  }

  /** The document after the handler's field-by-field assignments, as far as the role. */
  function Edited(u: User, username: string, password: string, salt: nat): User {
    var named := if username != "" then u.(username := username) else u;
    if password != "" then named.(password := Hash(password, salt)) else named
  }

  /** PUT /user/:id. */
  function UpdateUser(s: State, caller: Profile, id: Id, username: string, password: string,
                      role: string, salt: nat): Outcome
  {
    if id !in s.users then Reject(404, UserNotFound, s)
    else if caller.id != id && caller.role != Admin then Reject(403, AccessDenied, s)
    else if username != "" && UsernameTakenByOther(s.users, username, id) then
      Reject(422, UsernameAlreadyUsed, s)
    else if role != "" && caller.role != Admin then Reject(403, OnlyAdminsChangeRole, s)
    else
      var u := Edited(s.users[id], username, password, salt);
      if role == "" then
        Outcome(Response(200, UserDocument(id, u)), s.(users := s.users[id := u]))
      else
        match ParseRole(role)
        // user.save() fails enum validation and the catch answers 500
        case None => Reject(500, UserUpdateFailed, s)
        case Some(r) =>
          Outcome(Response(200, UserDocument(id, u.(role := r))), s.(users := s.users[id := u.(role := r)]))
  }

  /** DELETE /user/:id: the user's debts go first, then the user. */
  function DeleteUser(s: State, caller: Profile, id: Id): Outcome {
    if id !in s.users then Reject(404, UserToDeleteNotFound, s)
    else if caller.id != id && caller.role != Admin then Reject(403, AccessDenied, s)
    else Outcome(Response(200, Msg(UserAndDebtsDeleted)),
                 State(s.users - {id}, DebtsNotOf(s.debts, id)))
  }

  // ---------------------------------------------------------------------------
  // Registration

  /** Any of the four fields missing: 422, and no user is created. */
  lemma RegisterMissingField(s: State, username: string, password: string, confirmPassword: string,
                             role: string, salt: nat, newId: Id)
    requires username == "" || password == "" || confirmPassword == "" || role == ""
    ensures Register(s, username, password, confirmPassword, role, salt, newId)
         == Outcome(Response(422, Msg(AllFieldsRequired)), s)
  {
  }

  /** Mismatching confirmation: 442 (not 422), and no user is created. */
  lemma RegisterPasswordMismatch(s: State, username: string, password: string, confirmPassword: string,
                                 role: string, salt: nat, newId: Id)
    requires username != "" && password != "" && confirmPassword != "" && role != ""
    requires password != confirmPassword
    ensures Register(s, username, password, confirmPassword, role, salt, newId)
         == Outcome(Response(442, Msg(PasswordsDiffer)), s)
  {
  }

  /**
   * A username already in use: 442 and no user is created, so the one user that
   * holds the name stays the only one.
   */
  lemma RegisterDuplicateUsername(s: State, holder: Id, username: string, password: string,
                                  role: string, salt: nat, newId: Id)
    requires UsernamesUnique(s.users)
    requires username != "" && password != "" && role != ""
    requires holder in s.users && s.users[holder].username == username
    ensures var o := Register(s, username, password, password, role, salt, newId);
            && o == Outcome(Response(442, Msg(UseAnotherUsername)), s)
            && forall k :: k in o.state.users && o.state.users[k].username == username ==> k == holder
  {
  }

  /**
   * Registration succeeds exactly when the fields are present, the passwords agree,
   * the name is free, the role is in the enum and the new id is unused; it then adds
   * exactly one user, whose password is the hash of the plaintext and whose role is
   * the one requested (admin included), and touches nothing else.
   */
  lemma RegisterCreatesOneUser(s: State, username: string, password: string, confirmPassword: string,
                               role: string, salt: nat, newId: Id)
    ensures var o := Register(s, username, password, confirmPassword, role, salt, newId);
            o.response.code == 201 <==>
              && username != "" && password != "" && password == confirmPassword
              && ParseRole(role).Some? && !UsernameTaken(s.users, username) && newId !in s.users
    ensures var o := Register(s, username, password, confirmPassword, role, salt, newId);
            o.response.code == 201 ==>
              && o.state.debts == s.debts
              && o.state.users.Keys == s.users.Keys + {newId}
              && |o.state.users| == |s.users| + 1
              && (forall k :: k in s.users ==> o.state.users[k] == s.users[k])
              && o.state.users[newId].username == username
              && RoleName(o.state.users[newId].role) == role
              && o.state.users[newId].password == Hash(password, salt)
              && Matches(password, o.state.users[newId].password)
  {
    var o := Register(s, username, password, confirmPassword, role, salt, newId);
    if o.response.code == 201 {
      assert newId !in s.users;
      assert o.state.users.Keys == s.users.Keys + {newId};
    }
  }

  /** A role outside the enum passes the handler's checks but fails at save(): 500, nothing created. */
  lemma RegisterInvalidRole(s: State, username: string, password: string, role: string, salt: nat, newId: Id)
    requires username != "" && password != "" && role != ""
    requires !UsernameTaken(s.users, username)
    requires role != "admin" && role != "cliente"
    ensures Register(s, username, password, password, role, salt, newId)
         == Outcome(Response(500, Msg(ServerError)), s)
  {
  }

  /** Registration keeps the store invariant: in particular usernames stay unique. */
  lemma RegisterKeepsValid(s: State, username: string, password: string, confirmPassword: string,
                           role: string, salt: nat, newId: Id)
    requires Valid(s)
    ensures Valid(Register(s, username, password, confirmPassword, role, salt, newId).state)
  {
  }

  // ---------------------------------------------------------------------------
  // Login

  /**
   * An unknown username and a wrong password are answered alike: the same 442 with
   * the same message, so the answer does not tell which check failed.
   */
  lemma LoginFailuresAlike(s: State, username: string, password: string)
    requires UsernamesUnique(s.users)
    requires username != "" && password != ""
    requires !UsernameTaken(s.users, username) ||
             exists k :: k in s.users && s.users[k].username == username && !Matches(password, s.users[k].password)
    ensures Login(s, username, password) == Response(442, Msg(InvalidCredentials))
  {
  }

  /**
   * Login succeeds exactly for the stored user with that name whose hash matches
   * the password; the token then carries that user's id and stored role.
   */
  lemma LoginSucceeds(s: State, id: Id, username: string, password: string)
    requires UsernamesUnique(s.users)
    requires id in s.users && s.users[id].username == username
    ensures Login(s, username, password).code == 200 <==>
              username != "" && password != "" && Matches(password, s.users[id].password)
    ensures Login(s, username, password).code == 200 ==>
              Login(s, username, password).body
                == LoggedIn(Payload(id, s.users[id].role), s.users[id].role, id, username)
  {
  }

  /** Without a user of that name there is no 200. */
  lemma LoginNeedsAccount(s: State, username: string, password: string)
    requires UsernamesUnique(s.users)
    requires !UsernameTaken(s.users, username)
    ensures Login(s, username, password).code == 442
  {
  }

  // ---------------------------------------------------------------------------
  // PUT /user/:id, in the order the checks are made

  /** A missing target is 404 whoever asks, before ownership is looked at. */
  lemma UpdateMissingUser(s: State, caller: Profile, id: Id, username: string, password: string,
                          role: string, salt: nat)
    requires id !in s.users
    ensures UpdateUser(s, caller, id, username, password, role, salt)
         == Outcome(Response(404, Msg(UserNotFound)), s)
  {
  }

  /** Neither the owner nor an admin: 403 and nothing saved. */
  lemma UpdateNotOwner(s: State, caller: Profile, id: Id, username: string, password: string,
                       role: string, salt: nat)
    requires id in s.users && caller.id != id && caller.role != Admin
    ensures UpdateUser(s, caller, id, username, password, role, salt)
         == Outcome(Response(403, Msg(AccessDenied)), s)
  {
  }

  /**
   * A username held by another id: 422 and nothing saved, even when a non-admin
   * also sends a role (the 422 comes before that 403).
   */
  lemma UpdateUsernameTaken(s: State, caller: Profile, id: Id, other: Id, username: string,
                            password: string, role: string, salt: nat)
    requires id in s.users && (caller.id == id || caller.role == Admin)
    requires other in s.users && other != id && s.users[other].username == username && username != ""
    ensures UpdateUser(s, caller, id, username, password, role, salt)
         == Outcome(Response(422, Msg(UsernameAlreadyUsed)), s)
  {
  }

  /** The owner, not an admin, sending a role: 403 and nothing saved (not even a new password). */
  lemma UpdateRoleByNonAdmin(s: State, caller: Profile, id: Id, username: string, password: string,
                             role: string, salt: nat)
    requires id in s.users && caller.id == id && caller.role != Admin && role != ""
    requires username == "" || !UsernameTakenByOther(s.users, username, id)
    ensures UpdateUser(s, caller, id, username, password, role, salt)
         == Outcome(Response(403, Msg(OnlyAdminsChangeRole)), s)
  {
  }

  /**
   * On 200 only the target user changed, and in it only the fields sent: a sent
   * username replaces the old one, a sent password is stored hashed, a sent role
   * (by an admin) replaces the old one; the debts are untouched. The answer is the
   * whole saved document, password hash included.
   */
  lemma UpdateChangesOnlySentFields(s: State, caller: Profile, id: Id, username: string,
                                    password: string, role: string, salt: nat)
    ensures var o := UpdateUser(s, caller, id, username, password, role, salt);
            o.response.code == 200 <==>
              && id in s.users && (caller.id == id || caller.role == Admin)
              && (username == "" || !UsernameTakenByOther(s.users, username, id))
              && (role == "" || (caller.role == Admin && ParseRole(role).Some?))
    ensures var o := UpdateUser(s, caller, id, username, password, role, salt);
            o.response.code == 200 ==>
              && o.state.debts == s.debts
              && o.state.users.Keys == s.users.Keys
              && (forall k :: k in s.users && k != id ==> o.state.users[k] == s.users[k])
              && o.state.users[id].username == (if username != "" then username else s.users[id].username)
              && o.state.users[id].password == (if password != "" then Hash(password, salt) else s.users[id].password)
              && RoleName(o.state.users[id].role) == (if role != "" then role else RoleName(s.users[id].role))
              && o.response.body == UserDocument(id, o.state.users[id])
  {
    var o := UpdateUser(s, caller, id, username, password, role, salt);
    if o.response.code == 200 && role == "" {
      assert o.state.users[id].role == s.users[id].role;
    }
  }

  /** Every answer but 200 leaves the store as it was. */
  lemma UpdateRejectedUnchanged(s: State, caller: Profile, id: Id, username: string, password: string,
                                role: string, salt: nat)
    ensures var o := UpdateUser(s, caller, id, username, password, role, salt);
            o.response.code != 200 ==> o.state == s
  {
  }

  /** Updating keeps the store invariant: usernames stay unique and non-empty. */
  lemma UpdateKeepsValid(s: State, caller: Profile, id: Id, username: string, password: string,
                         role: string, salt: nat)
    requires Valid(s)
    ensures Valid(UpdateUser(s, caller, id, username, password, role, salt).state)
  {
  }

  // ---------------------------------------------------------------------------
  // DELETE /user/:id

  /**
   * Deleting by the owner or an admin removes the user and every debt that names
   * it, and nothing else; afterwards no debt refers to the id.
   */
  lemma DeleteUserCascades(s: State, caller: Profile, id: Id)
    requires id in s.users && (caller.id == id || caller.role == Admin)
    ensures var o := DeleteUser(s, caller, id);
            && o.response.code == 200
            && o.state.users == s.users - {id}
            && (forall k :: k in o.state.debts ==> o.state.debts[k].userId != id)
            && (forall k :: k in s.debts && s.debts[k].userId != id ==> k in o.state.debts && o.state.debts[k] == s.debts[k])
            && DebtsOf(o.state.debts, id) == map[]
  {
  }

  /** Anyone else gets 403 (or 404 for a missing id) and both collections stay as they were. */
  lemma DeleteUserRejected(s: State, caller: Profile, id: Id)
    requires id !in s.users || (caller.id != id && caller.role != Admin)
    ensures var o := DeleteUser(s, caller, id);
            && o.response.code == (if id !in s.users then 404 else 403)
            && o.response.body == Msg(if id !in s.users then UserToDeleteNotFound else AccessDenied)
            && o.state == s
  {
  }

  lemma DeleteUserKeepsValid(s: State, caller: Profile, id: Id)
    requires Valid(s)
    ensures Valid(DeleteUser(s, caller, id).state)
  {
  }
}
