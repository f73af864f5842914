/**
 * The handlers of routes/debts.js, each as the response it sends and the store it
 * leaves. `value` is a number that the handlers only test for truthiness: 0 (or an
 * absent value, passed as 0) is rejected like a missing field.
 */
module DebtRoutes {
  import opened Wrappers
  import opened Models
  import opened Store

  /** POST /debts/add, past isAdmin. The status is left to the schema default. */
  function AddDebt(s: State, userId: Id, name: string, value: int, dueDate: string, newId: Id): Outcome {
    if name == "" || userId == "" || value == 0 || dueDate == "" then
      Reject(422, AllFieldsRequired, s)
    else if newId in s.debts then
      // debt.save() fails on a duplicate _id
      Reject(500, DebtCreateFailed, s)
    else
      var d := Debt(userId, name, value, dueDate, CastStatus(None).value);
      Outcome(Response(201, DebtDocument(newId, d)), s.(debts := s.debts[newId := d]))
  }

  /** GET /debts/:userId: an admin sees every debt, whatever :userId is; a user sees their own. */
  function ListDebts(s: State, caller: Profile, userId: Id): (r: Response)
    ensures caller.role == Admin ==> r == Response(200, DebtList(s.debts))
    ensures caller.role != Admin && caller.id == userId ==>
              r.code == 200 && r.body.DebtList? &&
              forall k :: k in r.body.debts <==> k in s.debts && s.debts[k].userId == caller.id
    ensures r.code == 200 ==> r.body.DebtList? && forall k :: k in r.body.debts ==> k in s.debts && r.body.debts[k] == s.debts[k]
    ensures r.code != 200 <==> caller.role != Admin && caller.id != userId
    ensures r.code != 200 ==> r == Response(403, Msg(AccessDenied))
  {
    if caller.role == Admin then Response(200, DebtList(s.debts))
    else if caller.id == userId then Response(200, DebtList(DebtsOf(s.debts, userId)))
    else Response(403, Msg(AccessDenied))
  }

  /** PUT /debts/:debtId: the status is checked against the enum before the debt is looked up. */
  function UpdateStatus(s: State, caller: Profile, debtId: Id, status: string): Outcome {
    match ParseStatus(status)
    case None => Reject(422, InvalidStatus, s)
    case Some(st) =>
      if debtId !in s.debts then Reject(404, DebtNotFound, s)
      else if caller.role != Admin && s.debts[debtId].userId != caller.id then Reject(403, AccessDenied, s)
      else
        var d := s.debts[debtId].(status := st);
        Outcome(Response(200, DebtDocument(debtId, d)), s.(debts := s.debts[debtId := d]))
  }

  /** PUT /debts/:debtId/edit: admin check, then the five fields, then the lookup. */
  function EditDebt(s: State, caller: Profile, debtId: Id, userId: Id, name: string, value: int,
                    dueDate: string, status: string): Outcome {
    if caller.role != Admin then Reject(403, OnlyAdminsEditDebts, s)
    else if userId == "" || name == "" || value == 0 || dueDate == "" || status == "" then
      Reject(422, AllFieldsRequired, s)
    else if debtId !in s.debts then Reject(404, DebtNotFound, s)
    else
      match CastStatus(Some(status))
      // debt.save() fails enum validation and the catch answers 500
      case None => Reject(500, DebtEditFailed, s)
      case Some(st) =>
        var d := Debt(userId, name, value, dueDate, st);
        Outcome(Response(200, DebtDocument(debtId, d)), s.(debts := s.debts[debtId := d]))
  }

  /** DELETE /debts/:debtId, past isAdmin: 200 whether or not the debt existed. */
  function DeleteDebt(s: State, debtId: Id): Outcome {
    Outcome(Response(200, Msg(DebtDeleted)), s.(debts := s.debts - {debtId}))
  }

  // ---------------------------------------------------------------------------
  // Adding

  /** A missing or falsy field, a value of 0 included: 422 and no debt is added. */
  lemma AddDebtMissingField(s: State, userId: Id, name: string, value: int, dueDate: string, newId: Id)
    requires name == "" || userId == "" || value == 0 || dueDate == ""
    ensures AddDebt(s, userId, name, value, dueDate, newId) == Outcome(Response(422, Msg(AllFieldsRequired)), s)
  {
  }

  /**
   * Adding succeeds exactly when the four fields are truthy and the id is new; it
   * inserts one debt holding exactly the given fields with status pendente.
   */
  lemma AddDebtInsertsOne(s: State, userId: Id, name: string, value: int, dueDate: string, newId: Id)
    ensures var o := AddDebt(s, userId, name, value, dueDate, newId);
            o.response.code == 201 <==> name != "" && userId != "" && value != 0 && dueDate != "" && newId !in s.debts
    ensures var o := AddDebt(s, userId, name, value, dueDate, newId);
            o.response.code == 201 ==>
              && o.state.users == s.users
              && o.state.debts.Keys == s.debts.Keys + {newId}
              && (forall k :: k in s.debts ==> o.state.debts[k] == s.debts[k])
              && o.state.debts[newId] == Debt(userId, name, value, dueDate, Pendente)
              && o.response.body == DebtDocument(newId, o.state.debts[newId])
    ensures var o := AddDebt(s, userId, name, value, dueDate, newId);
            o.response.code != 201 ==> o.state == s
  {
  }

  /**
   * The `ref: 'User'` of userId is not checked: a debt can be added for an id
   * that names no user.
   */
  lemma AddDebtAcceptsUnknownOwner()
    ensures var s := State(map[], map[]);
            var o := AddDebt(s, "ghost-user", "Rent", 1200, "2024-01-01", "d1");
            o.response.code == 201 && "ghost-user" !in o.state.users && o.state.debts["d1"].userId == "ghost-user"
  {
  }

  // ---------------------------------------------------------------------------
  // Listing: the admin's list is the whole collection, the owner's the slice that is theirs

  lemma ListDebtsForOwner(s: State, caller: Profile)
    requires caller.role != Admin
    ensures ListDebts(s, caller, caller.id) == Response(200, DebtList(DebtsOf(s.debts, caller.id)))
  {
  }

  // ---------------------------------------------------------------------------
  // Status updates

  /** A status outside the enum is 422 before the debt is looked up: even for a missing debt. */
  lemma UpdateStatusInvalid(s: State, caller: Profile, debtId: Id, status: string)
    requires status != "pendente" && status != "agendado" && status != "pago"
    ensures UpdateStatus(s, caller, debtId, status) == Outcome(Response(422, Msg(InvalidStatus)), s)
  {
  }

  /** A missing debt is 404; a caller neither admin nor owner is 403; either way nothing changes. */
  lemma UpdateStatusRejected(s: State, caller: Profile, debtId: Id, status: Status)
    ensures var o := UpdateStatus(s, caller, debtId, StatusName(status));
            && (debtId !in s.debts ==> o == Outcome(Response(404, Msg(DebtNotFound)), s))
            && (debtId in s.debts && caller.role != Admin && s.debts[debtId].userId != caller.id ==>
                  o == Outcome(Response(403, Msg(AccessDenied)), s))
  {
    StatusNameParses(status);
  }

  /**
   * A status update succeeds exactly for an admin or the owner of an existing debt,
   * and then changes that debt's status and nothing else.
   */
  lemma UpdateStatusChangesOnlyStatus(s: State, caller: Profile, debtId: Id, status: string)
    ensures var o := UpdateStatus(s, caller, debtId, status);
            o.response.code == 200 <==>
              ParseStatus(status).Some? && debtId in s.debts &&
              (caller.role == Admin || s.debts[debtId].userId == caller.id)
    ensures var o := UpdateStatus(s, caller, debtId, status);
            o.response.code == 200 ==>
              && o.state.users == s.users
              && o.state.debts.Keys == s.debts.Keys
              && (forall k :: k in s.debts && k != debtId ==> o.state.debts[k] == s.debts[k])
              && StatusName(o.state.debts[debtId].status) == status
              && o.state.debts[debtId] == s.debts[debtId].(status := o.state.debts[debtId].status)
    ensures var o := UpdateStatus(s, caller, debtId, status);
            o.response.code != 200 ==> o.state == s
  {
  }

  // ---------------------------------------------------------------------------
  // Full edit, in the order the checks are made

  /** A non-admin is refused before the fields are looked at, and before the lookup. */
  lemma EditByNonAdmin(s: State, caller: Profile, debtId: Id, userId: Id, name: string, value: int,
                       dueDate: string, status: string)
    requires caller.role != Admin
    ensures EditDebt(s, caller, debtId, userId, name, value, dueDate, status)
         == Outcome(Response(403, Msg(OnlyAdminsEditDebts)), s)
  {
  }

  /** An admin with a missing field gets 422, even for a debt that does not exist. */
  lemma EditMissingField(s: State, caller: Profile, debtId: Id, userId: Id, name: string, value: int,
                         dueDate: string, status: string)
    requires caller.role == Admin
    requires userId == "" || name == "" || value == 0 || dueDate == "" || status == ""
    ensures EditDebt(s, caller, debtId, userId, name, value, dueDate, status)
         == Outcome(Response(422, Msg(AllFieldsRequired)), s)
  {
  }

  /** An admin with every field, on a missing debt: 404. */
  lemma EditMissingDebt(s: State, caller: Profile, debtId: Id, userId: Id, name: string, value: int,
                        dueDate: string, status: string)
    requires caller.role == Admin
    requires userId != "" && name != "" && value != 0 && dueDate != "" && status != ""
    requires debtId !in s.debts
    ensures EditDebt(s, caller, debtId, userId, name, value, dueDate, status)
         == Outcome(Response(404, Msg(DebtNotFound)), s)
  {
  }

  /**
   * An edit succeeds exactly for an admin, with all five fields, on an existing debt,
   * with a status in the enum; it replaces all five fields of that one debt. A status
   * outside the enum fails at save() with 500 and leaves the debt as it was.
   */
  lemma EditReplacesAllFields(s: State, caller: Profile, debtId: Id, userId: Id, name: string, value: int,
                              dueDate: string, status: string)
    ensures var o := EditDebt(s, caller, debtId, userId, name, value, dueDate, status);
            o.response.code == 200 <==>
              caller.role == Admin && userId != "" && name != "" && value != 0 && dueDate != "" &&
              ParseStatus(status).Some? && debtId in s.debts
    ensures var o := EditDebt(s, caller, debtId, userId, name, value, dueDate, status);
            o.response.code == 200 ==>
              && o.state.users == s.users
              && o.state.debts.Keys == s.debts.Keys
              && (forall k :: k in s.debts && k != debtId ==> o.state.debts[k] == s.debts[k])
              && o.state.debts[debtId] == Debt(userId, name, value, dueDate, ParseStatus(status).value)
    ensures var o := EditDebt(s, caller, debtId, userId, name, value, dueDate, status);
            o.response.code != 200 ==> o.state == s
    ensures var o := EditDebt(s, caller, debtId, userId, name, value, dueDate, status);
            caller.role == Admin && userId != "" && name != "" && value != 0 && dueDate != "" &&
            status != "" && debtId in s.debts && ParseStatus(status).None? ==>
              o == Outcome(Response(500, Msg(DebtEditFailed)), s)
  {
  }

  // ---------------------------------------------------------------------------
  // Deleting

  /** 200 whether or not the debt existed; only that debt is gone. */
  lemma DeleteDebtRemovesOne(s: State, debtId: Id)
    ensures var o := DeleteDebt(s, debtId);
            && o.response.code == 200
            && o.state.users == s.users
            && debtId !in o.state.debts
            && o.state.debts.Keys == s.debts.Keys - {debtId}
            && (forall k :: k in o.state.debts ==> o.state.debts[k] == s.debts[k])
            && (debtId !in s.debts ==> o.state == s)
  {
  }

  // ---------------------------------------------------------------------------
  // The store invariant

  lemma DebtHandlersKeepValid(s: State, caller: Profile, debtId: Id, userId: Id, name: string,
                              value: int, dueDate: string, status: string)
    requires Valid(s)
    ensures Valid(AddDebt(s, userId, name, value, dueDate, debtId).state)
    ensures Valid(UpdateStatus(s, caller, debtId, status).state)
    ensures Valid(EditDebt(s, caller, debtId, userId, name, value, dueDate, status).state)
    ensures Valid(DeleteDebt(s, debtId).state)
  {
  }
}
