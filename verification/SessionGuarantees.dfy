/** What holds in every run of concurrent logins, rotations, role changes and factor confirmations. */
module SessionGuarantees {
  import opened Base
  import opened SessionSpec
  import opened SessionRuns

  lemma FreshIsConsistent(users: map<Uuid, User>)
    requires forall u :: u in users ==> IsRole(users[u].role)
    ensures Consistent(Fresh(users))
  {
    var s := Fresh(users);
    forall u | u in users ensures ActiveSessions(s.db, u) == {} && CurrentSessions(s.db, u) == {} {}
  }

  /**
   * A step that commits does what the operation does alone at that moment: the count taken earlier
   * still admits the login, and the digest compared earlier is still the session's.
   */
  lemma CommitsAreSerial(s: System, t: nat, id: Uuid, digest: Digest)
    requires Consistent(s) && t in s.flights
    ensures s.flights[t].Counted? && id !in s.db.sessions ==>
      OpenSession(s.db, s.flights[t].login, id, digest) == Attempt(LoginInserted(s, t, id, digest).db, Done(id))
    ensures s.flights[t].Holding? ==>
      && s.flights[t].session in s.db.sessions
      && SessionSpec.Rotate(s.db, s.flights[t].session, s.flights[t].digest)
           == Attempt(RotationWritten(s, t).db, Done(s.flights[t].next))
  {
    if s.flights[t].Holding? {
      assert MayRotate(s.db, s.flights[t].session, s.flights[t].digest) == Done(s.flights[t].next);
    }
  }

  // ----- stale credentials -----

  /** Sessions keep their user, generation and reading time; generations and change times only grow. */
  ghost predicate Remains(s: System, s': System) {
    && s.clock <= s'.clock
    && s.changedAt.Keys == s'.changedAt.Keys && s.db.users.Keys == s'.db.users.Keys
    && (forall u :: u in s.changedAt ==> s.changedAt[u] <= s'.changedAt[u])
    && (forall u :: u in s.db.users ==> s.db.users[u].generation <= s'.db.users[u].generation)
    && s.db.sessions.Keys <= s'.db.sessions.Keys
    && (forall x :: x in s.db.sessions ==>
          && s'.db.sessions[x].user == s.db.sessions[x].user && s'.db.sessions[x].security == s.db.sessions[x].security)
    && (forall x :: x in s.readAt ==> x in s'.readAt && s'.readAt[x] == s.readAt[x])
  }

  lemma WriteRemains(s: System, db: Db)
    requires UsersTrue(s) && Softens(s, db)
    ensures Remains(s, Later(Write(s, db)))
  {
  }

  lemma InsertRemains(s: System, t: nat, id: Uuid, digest: Digest)
    requires s.readAt.Keys == s.db.sessions.Keys && t in s.flights && s.flights[t].Counted? && id !in s.db.sessions
    ensures Remains(s, Later(LoginInserted(s, t, id, digest)))
  {
  }

  lemma RotationRemains(s: System, t: nat)
    requires t in s.flights && s.flights[t].Holding? && s.flights[t].session in s.db.sessions
    ensures Remains(s, Later(RotationWritten(s, t)))
  {
  }

  lemma EventRemains(s: System, e: Event)
    requires UsersTrue(s) && s.readAt.Keys == s.db.sessions.Keys && Enabled(s, e)
    ensures Remains(s, Do(s, e))
  {
    match e
    case StartLogin(t, audience, found, matched) => assert LoginRead(s, t, audience, found, matched).db == s.db;
    case LockAndCount(t) => assert LoginCounted(s, t).db == s.db;
    case Insert(t, id, digest) => InsertRemains(s, t, id, digest);
    case Abandon(t) =>
    case StartRotation(t, session, digest) => assert RotationHeld(s, t, session, digest).db == s.db;
    case FinishRotation(t) => RotationRemains(s, t);
    case _ =>
      WritesSoften(s, e);
      WriteRemains(s, Written(s.db, e));
  }

  lemma {:induction false} RunRemains(s: System, es: seq<Event>)
    requires Consistent(s) && Legal(s, es)
    ensures Consistent(After(s, es)) && Remains(s, After(s, es))
    decreases |es|
  {
    if |es| != 0 {
      EventKeeps(s, es[0]);
      EventRemains(s, es[0]);
      RunRemains(Do(s, es[0]), es[1..]);
    }
  }

  /** A right to act, apart from the comparison of generations. */
  predicate Entitled(db: Db, id: Uuid, permission: string) {
    && id in db.sessions && db.sessions[id].state == Active
    && var u := db.sessions[id].user;
    && u in db.users && db.users[u].active && (db.users[u].role == "owner" || permission in db.users[u].permissions)
  }

  /**
   * In every reachable state a session authorizes exactly when it is entitled and its user row was
   * read after the user's latest role change or factor confirmation.
   */
  lemma {:induction false} AuthorizationIsFresh(users: map<Uuid, User>, es: seq<Event>, id: Uuid, permission: string)
    requires forall u :: u in users ==> IsRole(users[u].role)
    requires Legal(Fresh(users), es)
    ensures var s := After(Fresh(users), es);
      Authorized(s.db, id, permission) <==>
        Entitled(s.db, id, permission) && id in s.readAt && Current(s, s.db.sessions[id].user, s.readAt[id])
  {
    FreshIsConsistent(users);
    RunKeeps(Fresh(users), es);
    var s := After(Fresh(users), es);
    if id in s.db.sessions {
      var x := s.db.sessions[id];
      assert Remembers(s, x.user, x.security, s.readAt[id], None, x.audience);
    }
  }

  predicate RaisesGeneration(s: System, e: Event, user: Uuid)
    requires WritesAtOnce(e) && (e.Administer? ==> e.user in s.db.users) && (e.Retire? ==> e.session in s.db.sessions)
  {
    && user in s.db.users && user in Written(s.db, e).users
    && Written(s.db, e).users[user].generation > s.db.users[user].generation
  }

  /** Only a change to one of the four roles and a confirmation with the expected six digits raise a generation. */
  lemma WhatRaisesGeneration(s: System, e: Event, user: Uuid)
    requires WritesAtOnce(e) && Enabled(s, e) && user in s.db.users
    ensures RaisesGeneration(s, e, user) <==>
      && s.db.users[user].generation != 0x7FFF_FFFF
      && (|| (e.SetRole? && e.user == user && e.role in {"owner", "admin", "cs", "member"}
              && s.db.users[user].version != 0x7FFF_FFFF)
          || (e.ConfirmFactor? && e.user == user && e.code == e.expected && |e.code| == 6
              && (forall i :: 0 <= i < |e.code| ==> '0' <= e.code[i] <= '9')
              && s.db.users[user].secret.Some? && s.db.users[user].secret.value != []))
  {
    match e
    case SetRole(u, role) =>
    case ConfirmFactor(u, code, expected) =>
    case _ =>
  }

  lemma ChangeIsStamped(s: System, e: Event, user: Uuid)
    requires UsersTrue(s) && WritesAtOnce(e) && Enabled(s, e) && RaisesGeneration(s, e, user)
    ensures user in Do(s, e).changedAt && Do(s, e).changedAt[user] == s.clock
  {
    WritesSoften(s, e);
  }

  lemma OutdatedIsRefused(s: System, id: Uuid, permission: string)
    requires SessionsTrue(s) && id in s.db.sessions && !Current(s, s.db.sessions[id].user, s.readAt[id])
    ensures !Authorized(s.db, id, permission)
  {
    var x := s.db.sessions[id];
    assert Remembers(s, x.user, x.security, s.readAt[id], None, x.audience);
  }

  /** Whatever follows a change, a session opened from a row that was read before it never authorizes. */
  lemma {:induction false} StaleSessionNeverAuthorizes(
    s: System, e: Event, user: Uuid, es: seq<Event>, id: Uuid, permission: string)
    requires Consistent(s) && WritesAtOnce(e) && Enabled(s, e) && RaisesGeneration(s, e, user)
    requires Legal(Do(s, e), es)
    requires var s' := After(Do(s, e), es);
      id in s'.db.sessions && s'.db.sessions[id].user == user && id in s'.readAt && s'.readAt[id] <= s.clock
    ensures !Authorized(After(Do(s, e), es).db, id, permission)
  {
    var s1 := Do(s, e);
    EventKeeps(s, e);
    ChangeIsStamped(s, e, user);
    RunRemains(s1, es);
    OutdatedIsRefused(After(s1, es), id, permission);
  }

  /** In particular the sessions that existed when the change came, whatever state they were in. */
  lemma {:induction false} EarlierSessionNeverAuthorizes(
    s: System, e: Event, es: seq<Event>, id: Uuid, permission: string)
    requires Consistent(s) && WritesAtOnce(e) && Enabled(s, e)
    requires id in s.db.sessions && RaisesGeneration(s, e, s.db.sessions[id].user)
    requires Legal(Do(s, e), es)
    ensures !Authorized(After(Do(s, e), es).db, id, permission)
  {
    var x := s.db.sessions[id];
    assert s.readAt[id] < s.clock by {
      assert Remembers(s, x.user, x.security, s.readAt[id], None, x.audience);
    }
    EventKeeps(s, e);
    EventRemains(s, e);
    RunRemains(Do(s, e), es);
    StaleSessionNeverAuthorizes(s, e, x.user, es, id, permission);
  }

  lemma {:induction false} AfterAppend(s: System, xs: seq<Event>, ys: seq<Event>)
    requires Legal(s, xs) && Legal(After(s, xs), ys)
    ensures Legal(s, xs + ys) && After(s, xs + ys) == After(After(s, xs), ys)
    decreases |xs|
  {
    if |xs| == 0 {
      assert xs + ys == ys;
    } else {
      assert (xs + ys)[1..] == xs[1..] + ys;
      AfterAppend(Do(s, xs[0]), xs[1..], ys);
    }
  }

  lemma {:induction false} StepThen(s: System, e: Event, es: seq<Event>)
    requires Enabled(s, e) && Legal(Do(s, e), es)
    ensures Legal(s, [e] + es) && After(s, [e] + es) == After(Do(s, e), es)
  {
    assert ([e] + es)[1..] == es;
  }

  /**
   * The straddling login: request `t` read the row before the change, is still waiting after any
   * events `mid`, and inserts then. Its session authorizes nothing, ever.
   */
  lemma {:induction false} StraddlingLoginNeverAuthorizes(
    s: System, t: nat, e: Event, user: Uuid, mid: seq<Event>, id: Uuid, digest: Digest, rest: seq<Event>,
    permission: string)
    requires Consistent(s) && t in s.flights && !s.flights[t].Holding? && s.flights[t].login.user == user
    requires WritesAtOnce(e) && Enabled(s, e) && RaisesGeneration(s, e, user)
    requires Legal(Do(s, e), mid)
    requires var m := After(Do(s, e), mid);
      && t in m.flights && m.flights[t].Counted? && m.flights[t].login == s.flights[t].login
      && m.flights[t].at == s.flights[t].at
      && Enabled(m, Insert(t, id, digest)) && Legal(Do(m, Insert(t, id, digest)), rest)
    ensures !Authorized(After(Do(After(Do(s, e), mid), Insert(t, id, digest)), rest).db, id, permission)
  {
    var m := After(Do(s, e), mid);
    var step := Insert(t, id, digest);
    StepThen(m, step, rest);
    EventKeeps(s, e);
    RunRemains(Do(s, e), mid);
    EventKeeps(m, step);
    RunRemains(Do(m, step), rest);
    AfterAppend(Do(s, e), mid, [step] + rest);
    assert s.flights[t].at < s.clock by {
      var f := s.flights[t];
      assert Remembers(s, f.login.user, f.login.security, f.at, Some(f.login.role), f.login.audience);
    }
    StaleSessionNeverAuthorizes(s, e, user, mid + ([step] + rest), id, permission);
  }

  // ----- rotation -----

  predicate Rotates(s: System, e: Event, id: Uuid) {
    e.FinishRotation? && e.t in s.flights && s.flights[e.t].Holding? && s.flights[e.t].session == id
  }

  ghost function Rotations(s: System, es: seq<Event>, id: Uuid): nat
    requires Legal(s, es)
    decreases |es|
  {
    if |es| == 0 then 0 else (if Rotates(s, es[0], id) then 1 else 0) + Rotations(Do(s, es[0]), es[1..], id)
  }

  predicate SameRotations(s: System, s': System) {
    forall x :: x in s.db.sessions ==>
      && x in s'.db.sessions
      && s'.db.sessions[x].digest == s.db.sessions[x].digest
      && s'.db.sessions[x].rotations == s.db.sessions[x].rotations
  }

  lemma OtherEventsRotateNothing(s: System, e: Event)
    requires UsersTrue(s) && Enabled(s, e) && !e.FinishRotation?
    ensures SameRotations(s, Do(s, e))
    ensures forall x :: x in Do(s, e).db.sessions && x !in s.db.sessions ==> Do(s, e).db.sessions[x].rotations == 0
  {
    match e
    case StartLogin(t, audience, found, matched) => assert LoginRead(s, t, audience, found, matched).db == s.db;
    case LockAndCount(t) => assert LoginCounted(s, t).db == s.db;
    case Insert(t, id, digest) =>
    case Abandon(t) =>
    case StartRotation(t, session, digest) => assert RotationHeld(s, t, session, digest).db == s.db;
    case _ => WritesSoften(s, e);
  }

  lemma RotationAppends(s: System, t: nat)
    requires HoldingsTrue(s) && t in s.flights && s.flights[t].Holding?
    ensures var f := s.flights[t];
      && f.session in s.db.sessions && f.digest == s.db.sessions[f.session].digest
      && var was, now := s.db.sessions[f.session], RotationWritten(s, t).db.sessions[f.session];
      && now.rotations == was.rotations + 1 && now.digest == was.digest + [now.rotations % 256]
  {
    assert MayRotate(s.db, s.flights[t].session, s.flights[t].digest) == Done(s.flights[t].next);
  }

  /** One event appends at most one byte, and only when it rotates this session. */
  lemma EventRotates(s: System, e: Event, id: Uuid)
    requires UsersTrue(s) && HoldingsTrue(s) && Enabled(s, e)
    ensures id in s.db.sessions ==> id in Do(s, e).db.sessions
    ensures id in s.db.sessions && !Rotates(s, e, id) ==>
      && Do(s, e).db.sessions[id].digest == s.db.sessions[id].digest
      && Do(s, e).db.sessions[id].rotations == s.db.sessions[id].rotations
    ensures id in s.db.sessions && Rotates(s, e, id) ==>
      && var next := s.db.sessions[id].rotations + 1;
      && Do(s, e).db.sessions[id].digest == s.db.sessions[id].digest + [next % 256]
      && Do(s, e).db.sessions[id].rotations == next
    ensures id !in s.db.sessions ==>
      !Rotates(s, e, id) && (id in Do(s, e).db.sessions ==> Do(s, e).db.sessions[id].rotations == 0)
  {
    if e.FinishRotation? {
      RotationAppends(s, e.t);
    } else {
      OtherEventsRotateNothing(s, e);
    }
  }

  /** A session's generation counts its rotations, and each of them lengthens the digest by one. */
  lemma {:induction false} RotationsCount(s: System, es: seq<Event>, id: Uuid)
    requires Consistent(s) && Legal(s, es)
    ensures var s' := After(s, es);
      && (id in s.db.sessions ==>
            && id in s'.db.sessions
            && s'.db.sessions[id].rotations == s.db.sessions[id].rotations + Rotations(s, es, id)
            && |s'.db.sessions[id].digest| == |s.db.sessions[id].digest| + Rotations(s, es, id)
            && s.db.sessions[id].digest <= s'.db.sessions[id].digest)
      && (id !in s.db.sessions && id in s'.db.sessions ==> s'.db.sessions[id].rotations == Rotations(s, es, id))
      && (id !in s'.db.sessions ==> Rotations(s, es, id) == 0)
    decreases |es|
  {
    if |es| != 0 {
      EventKeeps(s, es[0]);
      EventRotates(s, es[0], id);
      RotationsCount(Do(s, es[0]), es[1..], id);
    }
  }

  lemma {:induction false} GenerationCountsRotations(users: map<Uuid, User>, es: seq<Event>, id: Uuid)
    requires forall u :: u in users ==> IsRole(users[u].role)
    requires Legal(Fresh(users), es) && id in After(Fresh(users), es).db.sessions
    ensures After(Fresh(users), es).db.sessions[id].rotations == Rotations(Fresh(users), es, id)
  {
    FreshIsConsistent(users);
    RotationsCount(Fresh(users), es, id);
  }

  /** Once the session has rotated away from a digest, that digest is refused for good. */
  lemma {:induction false} ConsumedDigestIsRefused(s: System, es: seq<Event>, id: Uuid, t: nat)
    requires Consistent(s) && Legal(s, es) && id in s.db.sessions && Rotations(s, es, id) > 0
    ensures var s' := After(s, es); var spent := s.db.sessions[id].digest;
      && MayRotate(s'.db, id, spent).Failed?
      && (t in s'.flights && s'.flights[t].Holding? && s'.flights[t].session == id ==> s'.flights[t].digest != spent)
  {
    RotationsCount(s, es, id);
    RunKeeps(s, es);
  }

  /** No two rotations of one session in a run present the same digest. */
  lemma {:induction false} EachDigestRotatesOnce(s: System, t: nat, es: seq<Event>, r: nat, id: Uuid)
    requires Consistent(s) && Enabled(s, FinishRotation(t)) && Rotates(s, FinishRotation(t), id)
    requires Legal(Do(s, FinishRotation(t)), es)
    requires Rotates(After(Do(s, FinishRotation(t)), es), FinishRotation(r), id)
    ensures After(Do(s, FinishRotation(t)), es).flights[r].digest != s.flights[t].digest
  {
    var whole := [FinishRotation(t)] + es;
    assert whole[1..] == es && whole[0] == FinishRotation(t);
    assert MayRotate(s.db, id, s.flights[t].digest) == Done(s.flights[t].next);
    assert Rotations(s, whole, id) >= 1;
    ConsumedDigestIsRefused(s, whole, id, r);
  }
}
