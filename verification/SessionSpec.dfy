/**
 * Users and their login sessions, and what each operation of the session authority does to them
 * when its statements run without interference. A refused operation changes nothing.
 */
module SessionSpec {
  import opened Base

  type Byte = x: int | 0 <= x < 256

  type Digest = seq<Byte>

  const STAFF_SLOT_LIMIT := 2
  const MEMBER_SLOT_LIMIT := 5
  const I32_MAX := 0x7FFF_FFFF

  datatype AuthError = InvalidCredentials | Unavailable | Conflict

  datatype Outcome<+T> = Done(value: T) | Failed(error: AuthError)

  datatype Audience = Members | Staff {
    predicate Accepts(role: string) {
      match this
      case Members => role == "member"
      case Staff => IsStaff(role)
    }

    function Limit(): nat {
      if Staff? then STAFF_SLOT_LIMIT else MEMBER_SLOT_LIMIT
    }
  }

  predicate IsStaff(role: string) {
    role == "owner" || role == "admin" || role == "cs"
  }

  predicate IsRole(role: string) {
    role == "owner" || role == "admin" || role == "cs" || role == "member"
  }

  function RoleLimit(role: string): nat {
    if role == "member" then MEMBER_SLOT_LIMIT else STAFF_SLOT_LIMIT
  }

  datatype SessionState = Active | Locked | Revoked | Expired

  datatype User = User(
    role: string, active: bool, permissions: set<string>, version: int, generation: int,
    secret: Option<Digest>, twoFactor: bool)

  datatype Session = Session(
    user: Uuid, version: int, audience: Audience, state: SessionState,
    rotations: int, digest: Digest, predecessor: Option<Digest>, security: int)

  datatype Db = Db(users: map<Uuid, User>, sessions: map<Uuid, Session>)

  /** What a login keeps of the user row that it read before its transaction. */
  datatype Login = Login(user: Uuid, role: string, version: int, security: int, audience: Audience)

  datatype Attempt<+T> = Attempt(db: Db, outcome: Outcome<T>)

  function ActiveSessions(db: Db, user: Uuid): set<Uuid> {
    set x | x in db.sessions && db.sessions[x].user == user && db.sessions[x].state == Active
  }

  /** The sessions that an `UPDATE ... WHERE user_id AND state = 'active'` below a bound turns off. */
  function RevokeBelow(db: Db, user: Uuid, bound: int): (r: Db)
    ensures r.users == db.users && r.sessions.Keys == db.sessions.Keys
  {
    db.(sessions := map x | x in db.sessions ::
      var s := db.sessions[x];
      if s.user == user && s.state == Active && s.security < bound then s.(state := Revoked) else s)
  }

  function RevokeEvery(db: Db, user: Uuid): (r: Db)
    ensures r.users == db.users && r.sessions.Keys == db.sessions.Keys
  {
    db.(sessions := map x | x in db.sessions ::
      var s := db.sessions[x];
      if s.user == user && s.state == Active then s.(state := Revoked) else s)
  }

  /** `found` is the user whose normalized e-mail matches, `matched` the verdict of bcrypt on its hash. */
  function ReadForLogin(db: Db, audience: Audience, found: Option<Uuid>, matched: bool): Outcome<Login> {
    if found.None? || found.value !in db.users then Failed(InvalidCredentials)
    else
      var row := db.users[found.value];
      if !matched || !row.active || !audience.Accepts(row.role) then Failed(InvalidCredentials)
      else Done(Login(found.value, row.role, row.version, row.generation, audience))
  }

  function WithSession(db: Db, login: Login, id: Uuid, digest: Digest): Db {
    db.(sessions := db.sessions[id :=
      Session(login.user, login.version, login.audience, Active, 0, digest, None, login.security)])
  }

  /** The transaction of a login, from the lock on the user row to the commit. */
  function OpenSession(db: Db, login: Login, id: Uuid, digest: Digest): Attempt<Uuid> {
    if |ActiveSessions(db, login.user)| >= login.audience.Limit() then Attempt(db, Failed(Conflict))
    else Attempt(WithSession(db, login, id, digest), Done(id))
  }

  function RevokeAll(db: Db, user: Uuid): Attempt<()> {
    if ActiveSessions(db, user) == {} then Attempt(db, Failed(Conflict))
    else Attempt(RevokeEvery(db, user), Done(()))
  }

  function MayRotate(db: Db, id: Uuid, predecessor: Digest): Outcome<int> {
    if id !in db.sessions || db.sessions[id].state != Active then Failed(Conflict)
    else if db.sessions[id].digest != predecessor then Failed(InvalidCredentials)
    else if db.sessions[id].rotations == I32_MAX then Failed(Conflict)
    else Done(db.sessions[id].rotations + 1)
  }

  /** The new digest appends the new generation truncated to one byte. */
  function Rotated(s: Session, next: int, predecessor: Digest): Session {
    s.(rotations := next, predecessor := Some(s.digest), digest := predecessor + [next % 256])
  }

  function Rotate(db: Db, id: Uuid, predecessor: Digest): Attempt<int> {
    match MayRotate(db, id, predecessor)
    case Failed(error) => Attempt(db, Failed(error))
    case Done(next) =>
      Attempt(db.(sessions := db.sessions[id := Rotated(db.sessions[id], next, predecessor)]), Done(next))
  }

  function ChangeRole(db: Db, user: Uuid, role: string): Attempt<int> {
    if !IsRole(role) || user !in db.users then Attempt(db, Failed(Conflict))
    else
      var row := db.users[user];
      if row.version == I32_MAX || row.generation == I32_MAX then Attempt(db, Failed(Unavailable))
      else
        var next := row.generation + 1;
        var users := db.users[user := row.(role := role, version := row.version + 1, generation := next)];
        Attempt(RevokeBelow(db.(users := users), user, next), Done(next))
  }

  predicate Authorized(db: Db, id: Uuid, permission: string) {
    && id in db.sessions && db.sessions[id].state == Active
    && var s := db.sessions[id];
    && s.user in db.users && db.users[s.user].active
    && (db.users[s.user].role == "owner" || permission in db.users[s.user].permissions)
    && s.security == db.users[s.user].generation
  }

  function Enroll(db: Db, user: Uuid, secret: Digest): Attempt<()> {
    if |secret| < 16 || user !in db.users || db.users[user].twoFactor then Attempt(db, Failed(Conflict))
    else
      Attempt(db.(users := db.users[user := db.users[user].(secret := Some(secret), twoFactor := false)]), Done(()))
  }

  predicate SixDigits(code: string) {
    |code| == 6 && forall i :: 0 <= i < 6 ==> '0' <= code[i] <= '9'
  }

  /** `expected` is the one-time password of the stored secret at the current half minute. */
  function Confirm(db: Db, user: Uuid, code: string, expected: string): Attempt<()> {
    if !SixDigits(code) then Attempt(db, Failed(InvalidCredentials))
    else if user !in db.users || db.users[user].secret.None? || db.users[user].secret.value == [] then
      Attempt(db, Failed(Conflict))
    else if expected != code then Attempt(db, Failed(InvalidCredentials))
    else
      var row := db.users[user];
      if row.generation == I32_MAX then Attempt(db, Failed(Unavailable))
      else
        var users := db.users[user := row.(twoFactor := true, generation := row.generation + 1)];
        Attempt(RevokeEvery(db.(users := users), user), Done(()))
  }
}
