/**
 * Concurrent requests to the session authority. A login reads the user row before its transaction,
 * later locks the row and counts the active sessions, and later still inserts with the values of the
 * first read; a rotation locks the session row and writes it in a second step. Any other request may
 * fall between those steps unless it needs a row that is locked.
 */
module SessionRuns {
  import opened Base
  import opened SessionSpec

  datatype Flight =
    | Read(login: Login, at: nat)
    | Counted(login: Login, at: nat, occupied: nat)
    | Holding(session: Uuid, digest: Digest, next: int)

  /**
   * `clock` numbers the events. `readAt` and `changedAt` are history: when the login that opened a
   * session read its user row, and when a user's security generation last went up.
   */
  datatype System = System(
    db: Db, flights: map<nat, Flight>, clock: nat, readAt: map<Uuid, nat>, changedAt: map<Uuid, nat>)

  datatype Event =
    | StartLogin(t: nat, audience: Audience, found: Option<Uuid>, matched: bool)
    | LockAndCount(t: nat)
    | Insert(t: nat, id: Uuid, digest: Digest)
    | Abandon(t: nat)
    | StartRotation(t: nat, session: Uuid, digest: Digest)
    | FinishRotation(t: nat)
    | Revoke(user: Uuid, missed: set<Uuid>)
    | SetRole(user: Uuid, role: string)
    | EnrollFactor(user: Uuid, secret: Digest)
    | ConfirmFactor(user: Uuid, code: string, expected: string)
    | Administer(user: Uuid, active: bool, permissions: set<string>)
    | Retire(session: Uuid, state: SessionState)

  ghost predicate UserLocked(s: System, user: Uuid) {
    exists t :: t in s.flights && s.flights[t].Counted? && s.flights[t].login.user == user
  }

  ghost predicate SessionLocked(s: System, id: Uuid) {
    exists t :: t in s.flights && s.flights[t].Holding? && s.flights[t].session == id
  }

  ghost predicate SessionsFree(s: System, user: Uuid, missed: set<Uuid>) {
    forall x :: x in ActiveSessions(s.db, user) && x !in missed ==> !SessionLocked(s, x)
  }

  /** What an event needs: an unused or waiting request, and none of its rows locked by another. */
  ghost predicate Enabled(s: System, e: Event) {
    match e
    case StartLogin(t, _, _, _) => t !in s.flights
    case LockAndCount(t) => t in s.flights && s.flights[t].Read? && !UserLocked(s, s.flights[t].login.user)
    case Insert(t, id, _) => t in s.flights && s.flights[t].Counted? && id !in s.db.sessions
    case Abandon(t) => t in s.flights
    case StartRotation(t, session, _) => t !in s.flights && !SessionLocked(s, session)
    case FinishRotation(t) => t in s.flights && s.flights[t].Holding? && s.flights[t].session in s.db.sessions
    case Revoke(user, missed) => SessionsFree(s, user, missed)
    case SetRole(user, _) => !UserLocked(s, user) && SessionsFree(s, user, {})
    case EnrollFactor(user, _) => !UserLocked(s, user)
    case ConfirmFactor(user, _, _) => !UserLocked(s, user) && SessionsFree(s, user, {})
    case Administer(user, _, _) => user in s.db.users && !UserLocked(s, user)
    case Retire(session, state) => session in s.db.sessions && !SessionLocked(s, session) && state != Active
  }

  function Land(s: System, t: nat): System {
    s.(flights := s.flights - {t})
  }

  /** The new tables; a user whose generation went up changed at this moment. */
  function Write(s: System, db: Db): System {
    s.(db := db, changedAt := map u | u in s.changedAt ::
      if u in db.users && u in s.db.users && db.users[u].generation != s.db.users[u].generation then s.clock
      else s.changedAt[u])
  }

  function LoginRead(s: System, t: nat, audience: Audience, found: Option<Uuid>, matched: bool): System {
    match ReadForLogin(s.db, audience, found, matched)
    case Failed(_) => s
    case Done(login) => s.(flights := s.flights[t := Read(login, s.clock)])
  }

  function LoginCounted(s: System, t: nat): System
    requires t in s.flights && s.flights[t].Read?
  {
    var f := s.flights[t];
    var occupied := |ActiveSessions(s.db, f.login.user)|;
    if occupied >= f.login.audience.Limit() then Land(s, t)
    else s.(flights := s.flights[t := Counted(f.login, f.at, occupied)])
  }

  function LoginInserted(s: System, t: nat, id: Uuid, digest: Digest): System
    requires t in s.flights && s.flights[t].Counted?
  {
    var f := s.flights[t];
    Land(s, t).(db := WithSession(s.db, f.login, id, digest), readAt := s.readAt[id := f.at])
  }

  function RotationHeld(s: System, t: nat, session: Uuid, digest: Digest): System {
    match MayRotate(s.db, session, digest)
    case Failed(_) => s
    case Done(next) => s.(flights := s.flights[t := Holding(session, digest, next)])
  }

  function RotationWritten(s: System, t: nat): System
    requires t in s.flights && s.flights[t].Holding? && s.flights[t].session in s.db.sessions
  {
    var f := s.flights[t];
    var written := Rotated(s.db.sessions[f.session], f.next, f.digest);
    Land(s, t).(db := s.db.(sessions := s.db.sessions[f.session := written]))
  }

  function WithRights(db: Db, user: Uuid, active: bool, permissions: set<string>): Db
    requires user in db.users
  {
    db.(users := db.users[user := db.users[user].(active := active, permissions := permissions)])
  }

  function WithState(db: Db, session: Uuid, state: SessionState): Db
    requires session in db.sessions
  {
    db.(sessions := db.sessions[session := db.sessions[session].(state := state)])
  }

  /**
   * The statement of `revoke_all` sees the sessions that were there when it began. While it waited for
   * one of them others may have been inserted: those it misses.
   */
  function RevokeSeen(db: Db, user: Uuid, missed: set<Uuid>): Db {
    db.(sessions := map x | x in db.sessions ::
      var s := db.sessions[x];
      if s.user == user && s.state == Active && x !in missed then s.(state := Revoked) else s)
  }

  lemma RevokeAlone(db: Db, user: Uuid)
    ensures RevokeSeen(db, user, {}) == RevokeAll(db, user).db
  {
    if ActiveSessions(db, user) == {} {
      forall x | x in db.sessions ensures RevokeSeen(db, user, {}).sessions[x] == db.sessions[x] {
        assert x !in ActiveSessions(db, user);
      }
      assert RevokeSeen(db, user, {}).sessions == db.sessions;
    }
  }

  predicate WritesAtOnce(e: Event) {
    e.Revoke? || e.SetRole? || e.EnrollFactor? || e.ConfirmFactor? || e.Administer? || e.Retire?
  }

  /** The tables that an event without a waiting step leaves. */
  function Written(db: Db, e: Event): Db
    requires WritesAtOnce(e)
    requires e.Administer? ==> e.user in db.users
    requires e.Retire? ==> e.session in db.sessions
  {
    match e
    case Revoke(user, missed) => RevokeSeen(db, user, missed)
    case SetRole(user, role) => ChangeRole(db, user, role).db
    case EnrollFactor(user, secret) => Enroll(db, user, secret).db
    case ConfirmFactor(user, code, expected) => Confirm(db, user, code, expected).db
    case Administer(user, active, permissions) => WithRights(db, user, active, permissions)
    case Retire(session, state) => WithState(db, session, state)
  }

  function Act(s: System, e: Event): System
    requires Enabled(s, e)
  {
    match e
    case StartLogin(t, audience, found, matched) => LoginRead(s, t, audience, found, matched)
    case LockAndCount(t) => LoginCounted(s, t)
    case Insert(t, id, digest) => LoginInserted(s, t, id, digest)
    case Abandon(t) => Land(s, t)
    case StartRotation(t, session, digest) => RotationHeld(s, t, session, digest)
    case FinishRotation(t) => RotationWritten(s, t)
    case _ => Write(s, Written(s.db, e))
  }

  function Later(s: System): System {
    s.(clock := s.clock + 1)
  }

  function Do(s: System, e: Event): System
    requires Enabled(s, e)
  {
    Later(Act(s, e))
  }

  ghost predicate Legal(s: System, es: seq<Event>)
    decreases |es|
  {
    |es| == 0 || (Enabled(s, es[0]) && Legal(Do(s, es[0]), es[1..]))
  }

  ghost function After(s: System, es: seq<Event>): System
    requires Legal(s, es)
    decreases |es|
  {
    if |es| == 0 then s else After(Do(s, es[0]), es[1..])
  }

  /** No session yet, nothing in flight; every user counts as last changed at moment 0. */
  function Fresh(users: map<Uuid, User>): System {
    System(Db(users, map[]), map[], 1, map[], map u | u in users :: 0)
  }

  // ----- what every reachable state satisfies -----

  /** A value read from the row of `user` at moment `at` is still current. */
  predicate Current(s: System, user: Uuid, at: nat) {
    user in s.changedAt && s.changedAt[user] < at
  }

  /** A remembered security generation is the user's exactly when it was read after the last change. */
  predicate Remembers(s: System, user: Uuid, security: int, at: nat, role: Option<string>, audience: Audience) {
    && user in s.db.users && at < s.clock
    && security <= s.db.users[user].generation
    && (security == s.db.users[user].generation <==> Current(s, user, at))
    && (role.Some? ==> audience.Accepts(role.value))
    && (Current(s, user, at) ==> audience.Accepts(s.db.users[user].role))
  }

  ghost predicate FlightsTrue(s: System) {
    && (forall t :: t in s.flights && !s.flights[t].Holding? ==>
          Remembers(s, s.flights[t].login.user, s.flights[t].login.security, s.flights[t].at,
                    Some(s.flights[t].login.role), s.flights[t].login.audience))
    && (forall t :: t in s.flights && s.flights[t].Counted? ==>
          && |ActiveSessions(s.db, s.flights[t].login.user)| <= s.flights[t].occupied
          && s.flights[t].occupied < s.flights[t].login.audience.Limit())
  }

  ghost predicate LocksExclusive(s: System) {
    && (forall t, r | t in s.flights && r in s.flights && s.flights[t].Counted? && s.flights[r].Counted? ::
          s.flights[t].login.user == s.flights[r].login.user ==> t == r)
    && (forall t, r | t in s.flights && r in s.flights && s.flights[t].Holding? && s.flights[r].Holding? ::
          s.flights[t].session == s.flights[r].session ==> t == r)
  }

  ghost predicate HoldingsTrue(s: System) {
    forall t :: t in s.flights && s.flights[t].Holding? ==>
      MayRotate(s.db, s.flights[t].session, s.flights[t].digest) == Done(s.flights[t].next)
  }

  ghost predicate SessionsTrue(s: System) {
    && s.readAt.Keys == s.db.sessions.Keys
    && (forall x :: x in s.db.sessions ==>
          Remembers(s, s.db.sessions[x].user, s.db.sessions[x].security, s.readAt[x], None, s.db.sessions[x].audience))
  }

  ghost predicate UsersTrue(s: System) {
    && s.changedAt.Keys == s.db.users.Keys
    && (forall u :: u in s.db.users ==> s.changedAt[u] < s.clock && IsRole(s.db.users[u].role))
  }

  function CurrentSessions(db: Db, user: Uuid): set<Uuid>
    requires user in db.users
  {
    set x | x in ActiveSessions(db, user) && db.sessions[x].security == db.users[user].generation
  }

  ghost predicate SlotsTrue(s: System) {
    forall u :: u in s.db.users ==>
      |CurrentSessions(s.db, u)| <= RoleLimit(s.db.users[u].role) && |ActiveSessions(s.db, u)| <= MEMBER_SLOT_LIMIT
  }

  ghost predicate Consistent(s: System) {
    && UsersTrue(s) && SessionsTrue(s) && FlightsTrue(s) && LocksExclusive(s) && HoldingsTrue(s) && SlotsTrue(s)
  }

  lemma {:induction false} SubsetSize<T>(a: set<T>, b: set<T>)
    requires a <= b
    ensures |a| <= |b|
  {
    if a != {} {
      var x :| x in a;
      SubsetSize(a - {x}, b - {x});
    }
  }

  /** Sessions may only leave the active state, and users may only move to a higher generation. */
  ghost predicate Softens(s: System, db: Db) {
    && db.users.Keys == s.db.users.Keys && db.sessions.Keys == s.db.sessions.Keys
    && (forall u :: u in db.users ==>
          || (db.users[u].generation == s.db.users[u].generation && db.users[u].role == s.db.users[u].role)
          || (db.users[u].generation > s.db.users[u].generation && IsRole(db.users[u].role)))
    && (forall x :: x in db.sessions ==>
          && db.sessions[x] == s.db.sessions[x].(state := db.sessions[x].state)
          && (db.sessions[x].state == Active ==> s.db.sessions[x].state == Active)
          && (SessionLocked(s, x) ==> db.sessions[x] == s.db.sessions[x]))
  }

  lemma SofterHasFewer(s: System, db: Db, user: Uuid)
    requires Softens(s, db)
    ensures |ActiveSessions(db, user)| <= |ActiveSessions(s.db, user)|
    ensures user in db.users && db.users[user].generation == s.db.users[user].generation ==>
      |CurrentSessions(db, user)| <= |CurrentSessions(s.db, user)|
  {
    SubsetSize(ActiveSessions(db, user), ActiveSessions(s.db, user));
    if user in db.users && db.users[user].generation == s.db.users[user].generation {
      SubsetSize(CurrentSessions(db, user), CurrentSessions(s.db, user));
    }
  }

  lemma LaterRemembers(s: System, db: Db, user: Uuid, security: int, at: nat, role: Option<string>, audience: Audience)
    requires UsersTrue(s) && Softens(s, db) && Remembers(s, user, security, at, role, audience)
    ensures Remembers(Later(Write(s, db)), user, security, at, role, audience)
  {
  }

  lemma SofteningKeepsSlots(s: System, db: Db)
    requires UsersTrue(s) && SessionsTrue(s) && SlotsTrue(s) && Softens(s, db)
    ensures SlotsTrue(Later(Write(s, db)))
  {
    forall u | u in db.users
      ensures |CurrentSessions(db, u)| <= RoleLimit(db.users[u].role) && |ActiveSessions(db, u)| <= MEMBER_SLOT_LIMIT
    {
      SofterHasFewer(s, db, u);
      if db.users[u].generation > s.db.users[u].generation {
        assert CurrentSessions(db, u) == {};
      }
    }
  }

  lemma SofteningKeepsFlights(s: System, db: Db)
    requires UsersTrue(s) && FlightsTrue(s) && HoldingsTrue(s) && Softens(s, db)
    ensures FlightsTrue(Later(Write(s, db))) && HoldingsTrue(Later(Write(s, db)))
  {
    forall t | t in s.flights && !s.flights[t].Holding?
      ensures Remembers(Later(Write(s, db)), s.flights[t].login.user, s.flights[t].login.security, s.flights[t].at,
                        Some(s.flights[t].login.role), s.flights[t].login.audience)
      ensures |ActiveSessions(db, s.flights[t].login.user)| <= |ActiveSessions(s.db, s.flights[t].login.user)|
    {
      var f := s.flights[t];
      LaterRemembers(s, db, f.login.user, f.login.security, f.at, Some(f.login.role), f.login.audience);
      SofterHasFewer(s, db, f.login.user);
    }
    forall t | t in s.flights && s.flights[t].Holding?
      ensures MayRotate(db, s.flights[t].session, s.flights[t].digest) == Done(s.flights[t].next)
    {
      assert SessionLocked(s, s.flights[t].session);
    }
  }

  lemma SofteningKeepsSessions(s: System, db: Db)
    requires UsersTrue(s) && SessionsTrue(s) && Softens(s, db)
    ensures UsersTrue(Later(Write(s, db))) && SessionsTrue(Later(Write(s, db)))
  {
    forall x | x in s.db.sessions
      ensures Remembers(Later(Write(s, db)), s.db.sessions[x].user, s.db.sessions[x].security, s.readAt[x], None,
                        s.db.sessions[x].audience)
    {
      LaterRemembers(s, db, s.db.sessions[x].user, s.db.sessions[x].security, s.readAt[x], None,
        s.db.sessions[x].audience);
    }
  }

  lemma SofteningKeeps(s: System, db: Db)
    requires Consistent(s) && Softens(s, db)
    ensures Consistent(Later(Write(s, db)))
  {
    SofteningKeepsSlots(s, db);
    SofteningKeepsSessions(s, db);
    SofteningKeepsFlights(s, db);
  }

  ghost predicate OnlyRevokes(s: System, db: Db, after: Db, user: Uuid) {
    && after.users == db.users && after.sessions.Keys == db.sessions.Keys && db.sessions == s.db.sessions
    && (forall x :: x in db.sessions ==>
          || after.sessions[x] == db.sessions[x]
          || (x in ActiveSessions(s.db, user) && after.sessions[x] == db.sessions[x].(state := Revoked)))
  }

  lemma RevokingSoftens(s: System, db: Db, after: Db, user: Uuid)
    requires SessionsFree(s, user, {}) && OnlyRevokes(s, db, after, user) && Softens(s, db)
    ensures Softens(s, after)
  {
  }

  lemma UserRowSoftens(s: System, user: Uuid, row: User)
    requires UsersTrue(s) && user in s.db.users
    requires
      || (row.generation == s.db.users[user].generation && row.role == s.db.users[user].role)
      || (row.generation > s.db.users[user].generation && IsRole(row.role))
    ensures Softens(s, s.db.(users := s.db.users[user := row]))
  {
  }

  lemma UnchangedSoftens(s: System)
    ensures Softens(s, s.db)
  {
  }

  lemma RevokeSoftens(s: System, user: Uuid, missed: set<Uuid>)
    requires SessionsFree(s, user, missed)
    ensures Softens(s, RevokeSeen(s.db, user, missed))
  {
  }

  lemma SetRoleSoftens(s: System, user: Uuid, role: string)
    requires UsersTrue(s) && SessionsFree(s, user, {})
    ensures Softens(s, ChangeRole(s.db, user, role).db)
  {
    UnchangedSoftens(s);
    if ChangeRole(s.db, user, role).outcome.Done? {
      var row := s.db.users[user];
      var next := row.(role := role, version := row.version + 1, generation := row.generation + 1);
      UserRowSoftens(s, user, next);
      var mid := s.db.(users := s.db.users[user := next]);
      RevokingSoftens(s, mid, RevokeBelow(mid, user, next.generation), user);
    }
  }

  lemma ConfirmSoftens(s: System, user: Uuid, code: string, expected: string)
    requires UsersTrue(s) && SessionsFree(s, user, {})
    ensures Softens(s, Confirm(s.db, user, code, expected).db)
  {
    UnchangedSoftens(s);
    if Confirm(s.db, user, code, expected).outcome.Done? {
      var row := s.db.users[user];
      var next := row.(twoFactor := true, generation := row.generation + 1);
      UserRowSoftens(s, user, next);
      var mid := s.db.(users := s.db.users[user := next]);
      RevokingSoftens(s, mid, RevokeEvery(mid, user), user);
    }
  }

  lemma RetireSoftens(s: System, session: Uuid, state: SessionState)
    requires session in s.db.sessions && !SessionLocked(s, session) && state != Active
    ensures Softens(s, WithState(s.db, session, state))
  {
  }

  /** Every event that writes at once only softens the tables. */
  lemma WritesSoften(s: System, e: Event)
    requires UsersTrue(s) && Enabled(s, e) && WritesAtOnce(e)
    ensures Softens(s, Written(s.db, e))
  {
    UnchangedSoftens(s);
    match e
    case Revoke(user, missed) => RevokeSoftens(s, user, missed);
    case SetRole(user, role) => SetRoleSoftens(s, user, role);
    case EnrollFactor(user, secret) =>
      if user in s.db.users { UserRowSoftens(s, user, s.db.users[user].(secret := Some(secret), twoFactor := false)); }
    case ConfirmFactor(user, code, expected) => ConfirmSoftens(s, user, code, expected);
    case Administer(user, active, permissions) =>
      UserRowSoftens(s, user, s.db.users[user].(active := active, permissions := permissions));
    case Retire(session, state) => RetireSoftens(s, session, state);
  }

  // ----- the steps of a login and of a rotation -----

  lemma WaitingRemembers(
    s: System, s': System, user: Uuid, security: int, at: nat, role: Option<string>, audience: Audience)
    requires Remembers(s, user, security, at, role, audience)
    requires s'.db.users == s.db.users && s'.changedAt == s.changedAt && s'.clock == s.clock + 1
    ensures Remembers(s', user, security, at, role, audience)
  {
  }

  lemma WaitingKeepsSessions(s: System, s': System)
    requires UsersTrue(s) && SessionsTrue(s) && SlotsTrue(s)
    requires s'.db == s.db && s'.readAt == s.readAt && s'.changedAt == s.changedAt && s'.clock == s.clock + 1
    ensures UsersTrue(s') && SessionsTrue(s') && SlotsTrue(s')
  {
    forall x | x in s.db.sessions
      ensures Remembers(s', s.db.sessions[x].user, s.db.sessions[x].security, s.readAt[x], None,
          s.db.sessions[x].audience)
    {
      WaitingRemembers(s, s', s.db.sessions[x].user, s.db.sessions[x].security, s.readAt[x], None,
        s.db.sessions[x].audience);
    }
  }

  /** Requests that were waiting before and did not move still remember the truth. */
  lemma WaitingKeepsFlights(s: System, s': System, t: nat)
    requires FlightsTrue(s) && t in s.flights && t in s'.flights && s'.flights[t] == s.flights[t]
    requires !s.flights[t].Holding?
    requires s'.db.users == s.db.users && s'.changedAt == s.changedAt && s'.clock == s.clock + 1
    ensures Remembers(s', s'.flights[t].login.user, s'.flights[t].login.security, s'.flights[t].at,
                      Some(s'.flights[t].login.role), s'.flights[t].login.audience)
  {
    var f := s.flights[t];
    WaitingRemembers(s, s', f.login.user, f.login.security, f.at, Some(f.login.role), f.login.audience);
  }

  lemma LandingKeeps(s: System, t: nat)
    requires Consistent(s)
    ensures Consistent(Later(Land(s, t)))
  {
    var s' := Later(Land(s, t));
    WaitingKeepsSessions(s, s');
    forall r | r in s'.flights && !s'.flights[r].Holding? { WaitingKeepsFlights(s, s', r); }
  }

  lemma IdlingKeeps(s: System)
    requires Consistent(s)
    ensures Consistent(Later(s))
  {
    WaitingKeepsSessions(s, Later(s));
    forall r | r in s.flights && !s.flights[r].Holding? { WaitingKeepsFlights(s, Later(s), r); }
  }

  ghost predicate FlightsFine(s: System) {
    FlightsTrue(s) && LocksExclusive(s) && HoldingsTrue(s)
  }

  lemma LoginReadFlights(s: System, t: nat, login: Login)
    requires FlightsTrue(s) && t !in s.flights
    requires Remembers(Later(s), login.user, login.security, s.clock, Some(login.role), login.audience)
    ensures FlightsTrue(Later(s.(flights := s.flights[t := Read(login, s.clock)])))
  {
    var s' := Later(s.(flights := s.flights[t := Read(login, s.clock)]));
    forall r | r in s'.flights && !s'.flights[r].Holding?
      ensures Remembers(s', s'.flights[r].login.user, s'.flights[r].login.security, s'.flights[r].at,
                        Some(s'.flights[r].login.role), s'.flights[r].login.audience)
    {
      if r != t { WaitingKeepsFlights(s, s', r); }
    }
  }

  lemma NewRequestKeepsLocks(s: System, t: nat, login: Login)
    requires LocksExclusive(s) && HoldingsTrue(s) && t !in s.flights
    ensures var s' := Later(s.(flights := s.flights[t := Read(login, s.clock)])); LocksExclusive(s') && HoldingsTrue(s')
  {
  }

  lemma LoginReadKeeps(s: System, t: nat, audience: Audience, found: Option<Uuid>, matched: bool)
    requires Consistent(s) && t !in s.flights
    ensures Consistent(Later(LoginRead(s, t, audience, found, matched)))
  {
    WaitingKeepsSessions(s, Later(LoginRead(s, t, audience, found, matched)));
    match ReadForLogin(s.db, audience, found, matched)
    case Failed(_) => IdlingKeeps(s);
    case Done(login) =>
      LoginReadFlights(s, t, login);
      NewRequestKeepsLocks(s, t, login);
  }

  lemma LoginCountedFlights(s: System, t: nat, occupied: nat)
    requires FlightsFine(s) && t in s.flights && s.flights[t].Read? && !UserLocked(s, s.flights[t].login.user)
    requires |ActiveSessions(s.db, s.flights[t].login.user)| <= occupied < s.flights[t].login.audience.Limit()
    ensures FlightsFine(Later(s.(flights := s.flights[t := Counted(s.flights[t].login, s.flights[t].at, occupied)])))
  {
    var f := s.flights[t];
    var s' := Later(s.(flights := s.flights[t := Counted(f.login, f.at, occupied)]));
    WaitingRemembers(s, s', f.login.user, f.login.security, f.at, Some(f.login.role), f.login.audience);
    forall r | r in s.flights && r != t && !s.flights[r].Holding? { WaitingKeepsFlights(s, s', r); }
  }

  lemma LoginCountedKeeps(s: System, t: nat)
    requires Consistent(s) && t in s.flights && s.flights[t].Read? && !UserLocked(s, s.flights[t].login.user)
    ensures Consistent(Later(LoginCounted(s, t)))
  {
    WaitingKeepsSessions(s, Later(LoginCounted(s, t)));
    var occupied := |ActiveSessions(s.db, s.flights[t].login.user)|;
    if occupied >= s.flights[t].login.audience.Limit() {
      LandingKeeps(s, t);
    } else {
      LoginCountedFlights(s, t, occupied);
    }
  }

  lemma RotationHeldFlights(s: System, t: nat, session: Uuid, digest: Digest, next: int)
    requires FlightsFine(s) && t !in s.flights && !SessionLocked(s, session)
    requires MayRotate(s.db, session, digest) == Done(next)
    ensures FlightsFine(Later(s.(flights := s.flights[t := Holding(session, digest, next)])))
  {
    var s' := Later(s.(flights := s.flights[t := Holding(session, digest, next)]));
    forall r | r in s.flights && !s.flights[r].Holding? { WaitingKeepsFlights(s, s', r); }
  }

  lemma RotationHeldKeeps(s: System, t: nat, session: Uuid, digest: Digest)
    requires Consistent(s) && t !in s.flights && !SessionLocked(s, session)
    ensures Consistent(Later(RotationHeld(s, t, session, digest)))
  {
    WaitingKeepsSessions(s, Later(RotationHeld(s, t, session, digest)));
    match MayRotate(s.db, session, digest)
    case Failed(_) => IdlingKeeps(s);
    case Done(next) => RotationHeldFlights(s, t, session, digest, next);
  }

  /** Rotating a session changes neither who is active nor what anybody remembers. */
  lemma SameSlots(s: System, s': System)
    requires s'.db.users == s.db.users && s'.db.sessions.Keys == s.db.sessions.Keys
    requires forall x :: x in s.db.sessions ==>
      && s'.db.sessions[x].user == s.db.sessions[x].user && s'.db.sessions[x].state == s.db.sessions[x].state
      && s'.db.sessions[x].security == s.db.sessions[x].security
      && s'.db.sessions[x].audience == s.db.sessions[x].audience
    ensures forall u :: ActiveSessions(s'.db, u) == ActiveSessions(s.db, u)
    ensures SlotsTrue(s) ==> SlotsTrue(s')
  {
    forall u ensures ActiveSessions(s'.db, u) == ActiveSessions(s.db, u) {}
    forall u | u in s.db.users ensures CurrentSessions(s'.db, u) == CurrentSessions(s.db, u) {}
  }

  lemma RotationWrittenKeeps(s: System, t: nat)
    requires Consistent(s) && t in s.flights && s.flights[t].Holding? && s.flights[t].session in s.db.sessions
    ensures Consistent(Later(RotationWritten(s, t)))
  {
    LandingKeeps(s, t);
    SameSlots(Later(Land(s, t)), Later(RotationWritten(s, t)));
    RotationKeepsFlights(s, t);
    RotationKeepsOthers(s, t);
  }

  lemma RotationKeepsFlights(s: System, t: nat)
    requires t in s.flights && s.flights[t].Holding? && s.flights[t].session in s.db.sessions
    requires FlightsTrue(Later(Land(s, t)))
    requires forall u :: ActiveSessions(RotationWritten(s, t).db, u) == ActiveSessions(s.db, u)
    ensures FlightsTrue(Later(RotationWritten(s, t)))
  {
    var s', mid := Later(RotationWritten(s, t)), Later(Land(s, t));
    forall r | r in s'.flights && !s'.flights[r].Holding?
      ensures Remembers(s', s'.flights[r].login.user, s'.flights[r].login.security, s'.flights[r].at,
                        Some(s'.flights[r].login.role), s'.flights[r].login.audience)
    {
      assert Remembers(mid, mid.flights[r].login.user, mid.flights[r].login.security, mid.flights[r].at,
                       Some(mid.flights[r].login.role), mid.flights[r].login.audience);
    }
  }

  lemma RotationKeepsOthers(s: System, t: nat)
    requires LocksExclusive(s) && HoldingsTrue(s) && SessionsTrue(Later(Land(s, t)))
    requires t in s.flights && s.flights[t].Holding? && s.flights[t].session in s.db.sessions
    ensures HoldingsTrue(Later(RotationWritten(s, t))) && SessionsTrue(Later(RotationWritten(s, t)))
  {
    var s', mid := Later(RotationWritten(s, t)), Later(Land(s, t));
    forall x | x in s'.db.sessions
      ensures Remembers(s', s'.db.sessions[x].user, s'.db.sessions[x].security, s'.readAt[x], None,
          s'.db.sessions[x].audience)
    {
      var was := mid.db.sessions[x];
      assert Remembers(mid, was.user, was.security, mid.readAt[x], None, was.audience);
    }
  }

  /** One more active session for its user, none for anybody else. */
  lemma OwnActive(db: Db, login: Login, id: Uuid, digest: Digest)
    requires id !in db.sessions
    ensures |ActiveSessions(WithSession(db, login, id, digest), login.user)| == |ActiveSessions(db, login.user)| + 1
  {
    assert ActiveSessions(WithSession(db, login, id, digest), login.user) == ActiveSessions(db, login.user) + {id};
  }

  lemma OthersActive(db: Db, login: Login, id: Uuid, digest: Digest, u: Uuid)
    requires id !in db.sessions && u != login.user
    ensures ActiveSessions(WithSession(db, login, id, digest), u) == ActiveSessions(db, u)
  {
  }

  lemma UnaffectedCurrent(db: Db, login: Login, id: Uuid, digest: Digest, u: Uuid)
    requires id !in db.sessions && u in db.users
    requires u != login.user || login.security != db.users[u].generation
    ensures CurrentSessions(WithSession(db, login, id, digest), u) == CurrentSessions(db, u)
  {
  }

  lemma InsertedSlots(s: System, t: nat, id: Uuid, digest: Digest, u: Uuid)
    requires FlightsTrue(s) && SlotsTrue(s) && t in s.flights && s.flights[t].Counted? && id !in s.db.sessions
    requires u in s.db.users
    ensures var db := LoginInserted(s, t, id, digest).db;
      && |CurrentSessions(db, u)| <= RoleLimit(s.db.users[u].role) && |ActiveSessions(db, u)| <= MEMBER_SLOT_LIMIT
      && (u != s.flights[t].login.user ==> ActiveSessions(db, u) == ActiveSessions(s.db, u))
  {
    var f := s.flights[t];
    assert Remembers(s, f.login.user, f.login.security, f.at, Some(f.login.role), f.login.audience);
    var db := WithSession(s.db, f.login, id, digest);
    if u == f.login.user {
      OwnActive(s.db, f.login, id, digest);
      SubsetSize(CurrentSessions(db, u), ActiveSessions(db, u));
      if !Current(s, u, f.at) { UnaffectedCurrent(s.db, f.login, id, digest, u); }
    } else {
      OthersActive(s.db, f.login, id, digest, u);
      UnaffectedCurrent(s.db, f.login, id, digest, u);
    }
  }

  lemma InsertedSlotsAll(s: System, t: nat, id: Uuid, digest: Digest)
    requires FlightsTrue(s) && SlotsTrue(s) && t in s.flights && s.flights[t].Counted? && id !in s.db.sessions
    ensures SlotsTrue(Later(LoginInserted(s, t, id, digest)))
  {
    forall u | u in s.db.users { InsertedSlots(s, t, id, digest, u); }
  }

  lemma InsertedSessions(s: System, t: nat, id: Uuid, digest: Digest)
    requires SessionsTrue(s) && FlightsTrue(s) && t in s.flights && s.flights[t].Counted? && id !in s.db.sessions
    ensures SessionsTrue(Later(LoginInserted(s, t, id, digest)))
  {
    var s', f := Later(LoginInserted(s, t, id, digest)), s.flights[t];
    forall x | x in s'.db.sessions
      ensures Remembers(s', s'.db.sessions[x].user, s'.db.sessions[x].security, s'.readAt[x], None,
          s'.db.sessions[x].audience)
    {
      if x == id {
        WaitingRemembers(s, s', f.login.user, f.login.security, f.at, Some(f.login.role), f.login.audience);
      } else {
        var kept := s.db.sessions[x];
        WaitingRemembers(s, s', kept.user, kept.security, s.readAt[x], None, kept.audience);
      }
    }
  }

  lemma InsertedFlights(s: System, t: nat, id: Uuid, digest: Digest)
    requires FlightsTrue(s) && SlotsTrue(s) && UsersTrue(s) && LocksExclusive(s)
    requires t in s.flights && s.flights[t].Counted? && id !in s.db.sessions
    ensures FlightsTrue(Later(LoginInserted(s, t, id, digest)))
  {
    var s' := Later(LoginInserted(s, t, id, digest));
    forall r | r in s'.flights && !s'.flights[r].Holding?
      ensures Remembers(s', s'.flights[r].login.user, s'.flights[r].login.security, s'.flights[r].at,
                        Some(s'.flights[r].login.role), s'.flights[r].login.audience)
      ensures s'.flights[r].Counted? ==>
        ActiveSessions(s'.db, s'.flights[r].login.user) == ActiveSessions(s.db, s'.flights[r].login.user)
    {
      WaitingKeepsFlights(s, s', r);
      InsertedSlots(s, t, id, digest, s.flights[r].login.user);
    }
  }

  lemma InsertedHoldings(s: System, t: nat, id: Uuid, digest: Digest)
    requires LocksExclusive(s) && HoldingsTrue(s) && UsersTrue(s)
    requires t in s.flights && s.flights[t].Counted? && id !in s.db.sessions
    ensures var s' := Later(LoginInserted(s, t, id, digest)); LocksExclusive(s') && HoldingsTrue(s') && UsersTrue(s')
  {
  }

  lemma LoginInsertedKeeps(s: System, t: nat, id: Uuid, digest: Digest)
    requires Consistent(s) && t in s.flights && s.flights[t].Counted? && id !in s.db.sessions
    ensures Consistent(Later(LoginInserted(s, t, id, digest)))
  {
    InsertedSessions(s, t, id, digest);
    InsertedFlights(s, t, id, digest);
    InsertedHoldings(s, t, id, digest);
    InsertedSlotsAll(s, t, id, digest);
  }

  lemma EventKeeps(s: System, e: Event)
    requires Consistent(s) && Enabled(s, e)
    ensures Consistent(Do(s, e))
  {
    match e
    case StartLogin(t, audience, found, matched) => LoginReadKeeps(s, t, audience, found, matched);
    case LockAndCount(t) => LoginCountedKeeps(s, t);
    case Insert(t, id, digest) => LoginInsertedKeeps(s, t, id, digest);
    case Abandon(t) => LandingKeeps(s, t);
    case StartRotation(t, session, digest) => RotationHeldKeeps(s, t, session, digest);
    case FinishRotation(t) => RotationWrittenKeeps(s, t);
    case _ =>
      WritesSoften(s, e);
      SofteningKeeps(s, Written(s.db, e));
  }

  lemma {:induction false} RunKeeps(s: System, es: seq<Event>)
    requires Consistent(s) && Legal(s, es)
    ensures Consistent(After(s, es))
    decreases |es|
  {
    if |es| != 0 {
      EventKeeps(s, es[0]);
      RunKeeps(Do(s, es[0]), es[1..]);
    }
  }
}
