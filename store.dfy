/**
 * The two collections the handlers work on, the responses they send, and the
 * invariant that every handler keeps.
 */
module Store {
  import opened Models

  /** The User and Debt collections, keyed by document id. */
  datatype State = State(users: map<Id, User>, debts: map<Id, Debt>)

  /**
   * The invariant of the store: the schema's required and unique constraints hold,
   * and every debt has a non-zero value (both handlers that write `value` reject a
   * falsy one, although the schema alone would accept 0).
   */
  ghost predicate Valid(s: State) {
    && UsernamesUnique(s.users)
    && (forall k :: k in s.users ==> UserRequiredFields(s.users[k]))
    && (forall k :: k in s.debts ==> DebtRequiredFields(s.debts[k]) && s.debts[k].value != 0)
  }

  /**
   * The `msg` texts of the JSON bodies, one constructor per distinct text: two
   * responses with the same constructor carry the same text.
   */
  datatype Message =
    | AllFieldsRequired      // "Todos os campos são obrigatórios!"
    | PasswordsDiffer        // "As senhas não conferem!"
    | UseAnotherUsername     // "Por favor, utilize outro username!"
    | UserCreated
    | ServerError            // "Aconteceu um erro no servidor, ..."
    | UsernameRequired
    | PasswordRequired
    | InvalidCredentials     // "Username e/ou senha inválido!"
    | UserNotFound           // PUT /user/:id's 404 ("... encontrado!")
    | UserToDeleteNotFound   // DELETE /user/:id's 404, the same words without the "!"
    | AccessDenied           // "Acesso negado!"
    | UsernameAlreadyUsed    // "Username já cadastrado!"
    | OnlyAdminsChangeRole
    | UserUpdateFailed
    | UserAndDebtsDeleted
    | UserDeleteFailed
    | DebtCreateFailed
    | InvalidStatus
    | DebtNotFound
    | OnlyAdminsEditDebts
    | DebtEditFailed
    | DebtDeleted
    | AdminOnly              // isAdmin's 403
    | PermissionCheckFailed  // isAdmin's 500
    | Unauthorized           // passport's 401
    | AuthenticationError    // an error passed to done(), answered with 500

  /** The JSON body of a response. */
  datatype Body =
    | Msg(msg: Message)
    | LoggedIn(token: Payload, role: Role, userId: Id, username: string)
    | ProfileBody(profile: Profile)
    | UserDocument(id: Id, user: User)
    | Profiles(profiles: set<Profile>)
    | DebtDocument(id: Id, debt: Debt)
    | DebtList(debts: map<Id, Debt>)

  /** The signed token is opaque: only its payload `{ id, role }` is modelled. */
  datatype Payload = Payload(id: Id, role: Role)

  datatype Response = Response(code: int, body: Body)

  /** What a mutating handler answers, and the store it leaves behind. */
  datatype Outcome = Outcome(response: Response, state: State)

  /** A refusal with a message body; the store is left as it was. */
  function Reject(code: int, m: Message, s: State): Outcome {
    Outcome(Response(code, Msg(m)), s)
  }

  /** Debt.find({ userId }): the debts that belong to `owner`. */
  function DebtsOf(debts: map<Id, Debt>, owner: Id): (r: map<Id, Debt>)
    ensures forall k :: k in r <==> k in debts && debts[k].userId == owner
    ensures forall k :: k in r ==> r[k] == debts[k]
  {
    map k | k in debts && debts[k].userId == owner :: debts[k]
  }

  /** What is left once Debt.deleteMany({ userId: owner }) has run. */
  function DebtsNotOf(debts: map<Id, Debt>, owner: Id): (r: map<Id, Debt>)
    ensures forall k :: k in r <==> k in debts && debts[k].userId != owner
    ensures forall k :: k in r ==> r[k] == debts[k]
  {
    map k | k in debts && debts[k].userId != owner :: debts[k]
  }

  /** A 2xx answer: the only kind under which a handler may have changed the store. */
  predicate Success(r: Response) {
    200 <= r.code < 300
  }
}
