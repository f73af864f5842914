/**
 * The two Mongoose schemas of the system (models/User.js and models/Debt.js) as
 * datatypes, with the casts Mongoose applies to the enum paths when a document is
 * built and saved, and the invariants the schemas declare.
 */
module Models {
  import opened Wrappers

  /** A document id (an ObjectId, in its string form as compared by the handlers). */
  type Id = string

  /** The `role` enum of UserSchema. */
  datatype Role = Admin | Cliente

  /** The `status` enum of DebtSchema. */
  datatype Status = Pendente | Agendado | Pago

  function RoleName(r: Role): string {
    match r
    case Admin => "admin"
    case Cliente => "cliente"
  }

  function StatusName(st: Status): string {
    match st
    case Pendente => "pendente"
    case Agendado => "agendado"
    case Pago => "pago"
  }

  /** Reads a role string; only the two enum spellings are roles. */
  function ParseRole(s: string): (r: Option<Role>)
    ensures r.Some? <==> (s == "admin" || s == "cliente")
    ensures r.Some? ==> RoleName(r.value) == s
  {
    if s == "admin" then Some(Admin)
    else if s == "cliente" then Some(Cliente)
    else None
  }

  /** Reads a status string; only the three enum spellings are statuses. */
  function ParseStatus(s: string): (r: Option<Status>)
    ensures r.Some? <==> (s == "pendente" || s == "agendado" || s == "pago")
    ensures r.Some? ==> StatusName(r.value) == s
  {
    if s == "pendente" then Some(Pendente)
    else if s == "agendado" then Some(Agendado)
    else if s == "pago" then Some(Pago)
    else None
  }

  lemma RoleNameParses(r: Role)
    ensures ParseRole(RoleName(r)) == Some(r)
  {
    match r
    case Admin =>
    case Cliente =>
  }

  lemma StatusNameParses(st: Status)
    ensures ParseStatus(StatusName(st)) == Some(st)
  {
    match st
    case Pendente =>
    case Agendado =>
    case Pago =>
  }

  /**
   * The value that the `role` path holds once a document is saved: an absent role
   * takes the schema default `cliente`; a given one must be in the enum, otherwise
   * validation fails and nothing is saved (None).
   */
  function CastRole(raw: Option<string>): (r: Option<Role>)
    ensures raw.None? ==> r == Some(Cliente)
    ensures raw.Some? ==> (r.Some? <==> ParseRole(raw.value).Some?)
    ensures raw.Some? && r.Some? ==> RoleName(r.value) == raw.value
  {
    match raw
    case None => Some(Cliente)
    case Some(s) => ParseRole(s)
  }

  /** The same for the `status` path, whose default is `pendente`. */
  function CastStatus(raw: Option<string>): (r: Option<Status>)
    ensures raw.None? ==> r == Some(Pendente)
    ensures raw.Some? ==> (r.Some? <==> ParseStatus(raw.value).Some?)
    ensures raw.Some? && r.Some? ==> StatusName(r.value) == raw.value
  {
    match raw
    case None => Some(Pendente)
    case Some(s) => ParseStatus(s)
  }

  /**
   * A bcrypt hash, kept symbolic: the digest of `plain` under `salt`. It is a
   * different type from the plaintext, so a stored password can never be the
   * plaintext itself; the one-way property and the digest format are not modelled.
   */
  datatype PasswordHash = Bcrypt(salt: nat, plain: string)

  /** bcrypt.hash(plain, salt). */
  function Hash(plain: string, salt: nat): (h: PasswordHash)
    ensures Matches(plain, h)
    ensures forall other :: other != plain ==> !Matches(other, h)
  {
    Bcrypt(salt, plain)
  }

  /** bcrypt.compare(plain, hash): whatever the salt, only the hashed plaintext matches. */
  predicate Matches(plain: string, h: PasswordHash) {
    h.plain == plain
  }

  /** A user document; its id is the key it is stored under. */
  datatype User = User(username: string, password: PasswordHash, role: Role)

  /**
   * A debt document. `dueDate` is kept as the text the client sent (Date parsing is
   * not modelled) and `value` as an integer that is only ever tested against zero.
   */
  datatype Debt = Debt(userId: Id, name: string, value: int, dueDate: string, status: Status)

  /** What a user looks like once the password path is deselected (`-password`). */
  datatype Profile = Profile(id: Id, username: string, role: Role)

  function ProfileOf(id: Id, u: User): (p: Profile)
    ensures p.id == id && p.username == u.username && p.role == u.role
  {
    Profile(id, u.username, u.role)
  }

  /** Deselecting `-password`: the profile is the same whatever password hash the document holds. */
  lemma ProfileIgnoresPassword(id: Id, u: User, pw: PasswordHash)
    ensures ProfileOf(id, u.(password := pw)) == ProfileOf(id, u)
  {
  }

  /** `required: true` on username and password (a Mongoose string is missing when empty). */
  predicate UserRequiredFields(u: User) {
    u.username != ""
  }

  /** `required: true` on userId, name, value and dueDate. */
  predicate DebtRequiredFields(d: Debt) {
    d.userId != "" && d.name != "" && d.dueDate != ""
  }

  /** `unique: true` on username: no two stored users share one. */
  ghost predicate UsernamesUnique(users: map<Id, User>) {
    forall a, b :: a in users && b in users && users[a].username == users[b].username ==> a == b
  }

  /** Some stored user other than `id` has this username. */
  predicate UsernameTakenByOther(users: map<Id, User>, username: string, id: Id) {
    exists k :: k in users && k != id && users[k].username == username
  }

  /** Some stored user has this username (User.findOne({ username }) finds a document). */
  predicate UsernameTaken(users: map<Id, User>, username: string) {
    exists k :: k in users && users[k].username == username
  }
}
