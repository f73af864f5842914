/**
 * The handlers as the code runs them: on one store object holding the two
 * collections, each handler loads a document, checks, assigns its fields one by
 * one and saves. Every method is proved to answer and to leave the store exactly
 * as the corresponding function of App or DebtRoutes says, and to keep the store
 * invariant.
 */
module Server {
  import opened Wrappers
  import opened Models
  import opened Store
  import App
  import DebtRoutes

  class Db {
    var users: map<Id, User>
    var debts: map<Id, Debt>

    /** The two collections as a value. */
    function Snapshot(): State
      reads this
    {
      State(users, debts)
    }

    ghost predicate Valid()
      reads this
    {
      Store.Valid(Snapshot())
    }

    constructor ()
      ensures Valid()
      ensures users == map[] && debts == map[]
    {
      users := map[];
      debts := map[];
    }

    /** User.findOne({ username }): the id of a user with that name, if there is one. */
    method FindOneByUsername(username: string) returns (found: Option<Id>)
      ensures found.None? <==> !UsernameTaken(users, username)
      ensures found.Some? ==> found.value in users && users[found.value].username == username
    {
      if exists k :: k in users && users[k].username == username {
        var k :| k in users && users[k].username == username;
        found := Some(k);
      } else {
        found := None;
      }
    }

    // -------------------------------------------------------------------------
    // app.js

    /** POST /auth/register. */
    method Register(username: string, password: string, confirmPassword: string, role: string,
                    salt: nat, newId: Id) returns (r: Response)
      requires Valid()
      modifies this
      ensures Valid()
      ensures Outcome(r, Snapshot())
           == App.Register(old(Snapshot()), username, password, confirmPassword, role, salt, newId)
    {
      ghost var before := Snapshot();
      App.RegisterKeepsValid(before, username, password, confirmPassword, role, salt, newId);
      if username == "" || password == "" || confirmPassword == "" || role == "" {
        return Response(422, Msg(AllFieldsRequired));
      }
      if password != confirmPassword {
        return Response(442, Msg(PasswordsDiffer));
      }
      var userExists := FindOneByUsername(username);
      if userExists.Some? {
        return Response(442, Msg(UseAnotherUsername));
      }
      var passwordHash := Hash(password, salt);
      var savedRole := CastRole(Some(role));
      // user.save(): schema validation of the role, then the insert under a fresh _id
      if savedRole.None? || newId in users {
        return Response(500, Msg(ServerError));
      }
      users := users[newId := User(username, passwordHash, savedRole.value)];
      r := Response(201, Msg(UserCreated));
    }

    /** POST /auth/login. */
    method Login(username: string, password: string) returns (r: Response)
      requires Valid()
      ensures r == App.Login(Snapshot(), username, password)
    {
      if username == "" {
        return Response(442, Msg(UsernameRequired));
      }
      if password == "" {
        return Response(442, Msg(PasswordRequired));
      }
      var found := FindOneByUsername(username);
      if found.None? {
        return Response(442, Msg(InvalidCredentials));
      }
      var id := found.value;
      var user := users[id];
      var checkPassword := Matches(password, user.password);
      if !checkPassword {
        return Response(442, Msg(InvalidCredentials));
      }
      var token := Payload(id, user.role);
      r := Response(200, LoggedIn(token, user.role, id, user.username));
    }

    /** GET /user/:id, past isAdmin: User.findById(id, '-password'). */
    method GetUser(id: Id) returns (r: Response)
      ensures r == App.GetUser(Snapshot(), id)
    {
      if id !in users {
        return Response(442, Msg(InvalidCredentials));
      }
      r := Response(200, ProfileBody(ProfileOf(id, users[id])));
    }

    /** PUT /user/:id. */
    method UpdateUser(caller: Profile, id: Id, username: string, password: string, role: string,
                      salt: nat) returns (r: Response)
      requires Valid()
      modifies this
      ensures Valid()
      ensures Outcome(r, Snapshot())
           == App.UpdateUser(old(Snapshot()), caller, id, username, password, role, salt)
    {
      ghost var before := Snapshot();
      App.UpdateKeepsValid(before, caller, id, username, password, role, salt);
      if id !in users {
        return Response(404, Msg(UserNotFound));
      }
      var user := users[id];
      if caller.id != id && caller.role != Admin {
        return Response(403, Msg(AccessDenied));
      }
      if username != "" {
        var usernameExists := FindOneByUsername(username);
        if usernameExists.Some? && usernameExists.value != id {
          return Response(422, Msg(UsernameAlreadyUsed));
        }
        user := user.(username := username);
      }
      if password != "" {
        user := user.(password := Hash(password, salt));
      }
      if role != "" && caller.role == Admin {
        var savedRole := ParseRole(role);
        // user.save() rejects a role outside the enum
        if savedRole.None? {
          return Response(500, Msg(UserUpdateFailed));
        }
        user := user.(role := savedRole.value);
      } else if role != "" && caller.role != Admin {
        return Response(403, Msg(OnlyAdminsChangeRole));
      }
      users := users[id := user];
      r := Response(200, UserDocument(id, user));
    }

    /** GET /users, past isAdmin: User.find().select('-password'). */
    method ListUsers() returns (r: Response)
      ensures r == App.ListUsers(Snapshot())
    {
      r := Response(200, Profiles(set k | k in users :: ProfileOf(k, users[k])));
    }

    /** DELETE /user/:id: Debt.deleteMany({ userId: id }), then User.findByIdAndDelete(id). */
    method DeleteUser(caller: Profile, id: Id) returns (r: Response)
      requires Valid()
      modifies this
      ensures Valid()
      ensures Outcome(r, Snapshot()) == App.DeleteUser(old(Snapshot()), caller, id)
    {
      if id !in users {
        return Response(404, Msg(UserToDeleteNotFound));
      }
      if caller.id != id && caller.role != Admin {
        return Response(403, Msg(AccessDenied));
      }
      debts := DebtsNotOf(debts, id);
      users := users - {id};
      r := Response(200, Msg(UserAndDebtsDeleted));
    }

    // -------------------------------------------------------------------------
    // routes/debts.js

    /** POST /debts/add, past isAdmin. */
    method AddDebt(userId: Id, name: string, value: int, dueDate: string, newId: Id) returns (r: Response)
      requires Valid()
      modifies this
      ensures Valid()
      ensures Outcome(r, Snapshot()) == DebtRoutes.AddDebt(old(Snapshot()), userId, name, value, dueDate, newId)
    {
      if name == "" || userId == "" || value == 0 || dueDate == "" {
        return Response(422, Msg(AllFieldsRequired));
      }
      var debt := Debt(userId, name, value, dueDate, CastStatus(None).value);
      if newId in debts {
        return Response(500, Msg(DebtCreateFailed));
      }
      debts := debts[newId := debt];
      r := Response(201, DebtDocument(newId, debt));
    }

    /** GET /debts/:userId. */
    method ListDebts(caller: Profile, userId: Id) returns (r: Response)
      ensures r == DebtRoutes.ListDebts(Snapshot(), caller, userId)
    {
      var found: map<Id, Debt>;
      if caller.role == Admin {
        found := debts;
      } else if caller.id == userId {
        found := DebtsOf(debts, userId);
      } else {
        return Response(403, Msg(AccessDenied));
      }
      r := Response(200, DebtList(found));
    }

    /** PUT /debts/:debtId. */
    method UpdateStatus(caller: Profile, debtId: Id, status: string) returns (r: Response)
      requires Valid()
      modifies this
      ensures Valid()
      ensures Outcome(r, Snapshot()) == DebtRoutes.UpdateStatus(old(Snapshot()), caller, debtId, status)
    {
      ghost var before := Snapshot();
      DebtRoutes.DebtHandlersKeepValid(before, caller, debtId, "", "", 0, "", status);
      var newStatus := ParseStatus(status);
      if newStatus.None? {
        return Response(422, Msg(InvalidStatus));
      }
      if debtId !in debts {
        return Response(404, Msg(DebtNotFound));
      }
      var debt := debts[debtId];
      if caller.role != Admin && debt.userId != caller.id {
        return Response(403, Msg(AccessDenied));
      }
      debt := debt.(status := newStatus.value);
      debts := debts[debtId := debt];
      r := Response(200, DebtDocument(debtId, debt));
    }

    /** PUT /debts/:debtId/edit. */
    method EditDebt(caller: Profile, debtId: Id, userId: Id, name: string, value: int, dueDate: string,
                    status: string) returns (r: Response)
      requires Valid()
      modifies this
      ensures Valid()
      ensures Outcome(r, Snapshot())
           == DebtRoutes.EditDebt(old(Snapshot()), caller, debtId, userId, name, value, dueDate, status)
    {
      ghost var before := Snapshot();
      DebtRoutes.DebtHandlersKeepValid(before, caller, debtId, userId, name, value, dueDate, status);
      if caller.role != Admin {
        return Response(403, Msg(OnlyAdminsEditDebts));
      }
      if userId == "" || name == "" || value == 0 || dueDate == "" || status == "" {
        return Response(422, Msg(AllFieldsRequired));
      }
      if debtId !in debts {
        return Response(404, Msg(DebtNotFound));
      }
      var debt := debts[debtId];
      debt := debt.(userId := userId);
      debt := debt.(name := name);
      debt := debt.(value := value);
      debt := debt.(dueDate := dueDate);
      var savedStatus := CastStatus(Some(status));
      // debt.save() rejects a status outside the enum
      if savedStatus.None? {
        return Response(500, Msg(DebtEditFailed));
      }
      debt := debt.(status := savedStatus.value);
      debts := debts[debtId := debt];
      r := Response(200, DebtDocument(debtId, debt));
    }

    /** DELETE /debts/:debtId, past isAdmin: Debt.findByIdAndDelete(debtId). */
    method DeleteDebt(debtId: Id) returns (r: Response)
      requires Valid()
      modifies this
      ensures Valid()
      ensures Outcome(r, Snapshot()) == DebtRoutes.DeleteDebt(old(Snapshot()), debtId)
    {
      debts := debts - {debtId};
      r := Response(200, Msg(DebtDeleted));
    }
  }
}
