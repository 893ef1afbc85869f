/**
 * How many sessions a user has at once: what always holds, exactly when the slots of a role are
 * exceeded, and what must have happened before.
 */
module SessionSlots {
  import opened Base
  import opened SessionSpec
  import opened SessionRuns
  import opened SessionGuarantees

  // ----- slots -----

  function AuthorizedSessions(db: Db, user: Uuid, permission: string): set<Uuid> {
    set x | x in ActiveSessions(db, user) && Authorized(db, x, permission)
  }

  /**
   * In every reachable state a user has at most as many active sessions of the current generation,
   * and so at most as many authorizing ones, as the slots of the current role: 2 for staff, 5 for a
   * member. Stale ones included there are never more than 5.
   */
  lemma {:induction false} SlotsHold(users: map<Uuid, User>, es: seq<Event>, user: Uuid, permission: string)
    requires forall u :: u in users ==> IsRole(users[u].role)
    requires Legal(Fresh(users), es)
    requires user in After(Fresh(users), es).db.users
    ensures var db := After(Fresh(users), es).db;
      && |CurrentSessions(db, user)| <= (if db.users[user].role == "member" then 5 else 2)
      && |AuthorizedSessions(db, user, permission)| <= (if db.users[user].role == "member" then 5 else 2)
      && |ActiveSessions(db, user)| <= 5
  {
    FreshIsConsistent(users);
    RunKeeps(Fresh(users), es);
    var db := After(Fresh(users), es).db;
    SubsetSize(AuthorizedSessions(db, user, permission), CurrentSessions(db, user));
  }

  lemma {:induction false} AfterOneMore(s: System, es: seq<Event>, e: Event)
    requires Legal(s, es) && Enabled(After(s, es), e)
    ensures Legal(s, es + [e]) && After(s, es + [e]) == Do(After(s, es), e)
  {
    var s' := After(s, es);
    assert [e][1..] == [];
    assert Legal(Do(s', e), []) && Legal(s', [e]);
    AfterAppend(s, es, [e]);
  }

  /** A request that has read its row, with nobody in its way, counts and inserts. */
  lemma {:induction false} StraddleStep(s: System, es: seq<Event>, t: nat, id: Uuid) returns (more: seq<Event>)
    requires Legal(s, es) && After(s, es).flights.Keys >= {t} && After(s, es).flights[t].Read?
    requires forall r :: r in After(s, es).flights ==> After(s, es).flights[r].Read?
    requires var now := After(s, es); var l := now.flights[t].login;
      id !in now.db.sessions && |ActiveSessions(now.db, l.user)| < l.audience.Limit()
    ensures Legal(s, more)
    ensures var now := After(s, es);
      && After(s, more).db == WithSession(now.db, now.flights[t].login, id, [])
      && After(s, more).flights == now.flights - {t}
    ensures var l := After(s, es).flights[t].login;
      |ActiveSessions(After(s, more).db, l.user)| == |ActiveSessions(After(s, es).db, l.user)| + 1
  {
    OwnActive(After(s, es).db, After(s, es).flights[t].login, id, []);
    AfterOneMore(s, es, LockAndCount(t));
    AfterOneMore(s, es + [LockAndCount(t)], Insert(t, id, []));
    more := es + [LockAndCount(t)] + [Insert(t, id, [])];
  }

  /** A login reads a member's row. */
  lemma {:induction false} OneMoreWaiting(s: System, es: seq<Event>, t: nat)
    requires Legal(s, es) && t !in After(s, es).flights
    requires "u" in After(s, es).db.users && After(s, es).db.users["u"] == User("member", true, {}, 0, 0, None, false)
    ensures var more := es + [StartLogin(t, Members, Some("u"), true)]; var now := After(s, es);
      && Legal(s, more) && After(s, more).db == now.db && After(s, more).clock == now.clock + 1
      && After(s, more).flights == now.flights[t := Read(Login("u", "member", 0, 0, Members), now.clock)]
  {
    AfterOneMore(s, es, StartLogin(t, Members, Some("u"), true));
  }

  /** Three logins have read a member's row when the member becomes an administrator. */
  lemma PromotionWithThreeWaiting() returns (s: System, es: seq<Event>)
    ensures s == Fresh(map["u" := User("member", true, {}, 0, 0, None, false)]) && Legal(s, es)
    ensures After(s, es).db == Db(map["u" := User("admin", true, {}, 1, 1, None, false)], map[])
    ensures var l := Login("u", "member", 0, 0, Members);
      After(s, es).flights == map[0 := Read(l, 1), 1 := Read(l, 2), 2 := Read(l, 3)]
  {
    s := Fresh(map["u" := User("member", true, {}, 0, 0, None, false)]);
    es := [];
    OneMoreWaiting(s, es, 0);
    es := es + [StartLogin(0, Members, Some("u"), true)];
    OneMoreWaiting(s, es, 1);
    es := es + [StartLogin(1, Members, Some("u"), true)];
    OneMoreWaiting(s, es, 2);
    es := es + [StartLogin(2, Members, Some("u"), true)];
    PromotionOfU(After(s, es));
    AfterOneMore(s, es, SetRole("u", "admin"));
    es := es + [SetRole("u", "admin")];
  }

  lemma PromotionOfU(s: System)
    requires s.db == Db(map["u" := User("member", true, {}, 0, 0, None, false)], map[])
    requires forall t :: t in s.flights ==> s.flights[t].Read?
    ensures Enabled(s, SetRole("u", "admin"))
    ensures Do(s, SetRole("u", "admin")).db == Db(map["u" := User("admin", true, {}, 1, 1, None, false)], map[])
    ensures Do(s, SetRole("u", "admin")).flights == s.flights
  {
  }

  /**
   * Counting stale sessions too, a role's slots can be exceeded: three logins that read a member row
   * before a promotion to `admin` leave three active sessions where staff have two slots.
   */
  lemma StraddlingLoginsPassTheStaffLimit() returns (s: System, es: seq<Event>)
    ensures s == Fresh(map["u" := User("member", true, {}, 0, 0, None, false)]) && Legal(s, es)
    ensures var db := After(s, es).db;
      && "u" in db.users && db.users["u"].role == "admin"
      && |ActiveSessions(db, "u")| == 3 && CurrentSessions(db, "u") == {}
  {
    s, es := PromotionWithThreeWaiting();
    assert |ActiveSessions(After(s, es).db, "u")| == 0;
    es := StraddleStep(s, es, 0, "a");
    es := StraddleStep(s, es, 1, "b");
    es := StraddleStep(s, es, 2, "c");
  }

  // ----- exactly when the slots of a role are exceeded -----

  predicate Within(s: System, user: Uuid) {
    user in s.db.users && |ActiveSessions(s.db, user)| <= (if s.db.users[user].role == "member" then 5 else 2)
  }

  /** A login that inserts although the slots of the user's present role are taken. */
  predicate Overfills(s: System, e: Event, user: Uuid) {
    && e.Insert? && e.t in s.flights && s.flights[e.t].Counted? && s.flights[e.t].login.user == user
    && user in s.db.users && |ActiveSessions(s.db, user)| >= (if s.db.users[user].role == "member" then 5 else 2)
  }

  /** A generation that goes up turns off every active session of its user. */
  lemma ChangeRevokesAll(s: System, e: Event, user: Uuid)
    requires UsersTrue(s) && SessionsTrue(s) && WritesAtOnce(e) && Enabled(s, e) && RaisesGeneration(s, e, user)
    ensures ActiveSessions(Written(s.db, e), user) == {}
  {
    forall x | x in s.db.sessions && s.db.sessions[x].user == user
      ensures s.db.sessions[x].security <= s.db.users[user].generation
    {
      assert Remembers(s, user, s.db.sessions[x].security, s.readAt[x], None, s.db.sessions[x].audience);
    }
    match e
    case SetRole(u, role) => assert u == user;
    case ConfirmFactor(u, code, expected) => assert u == user;
    case _ =>
  }

  lemma WriteStaysWithin(s: System, e: Event, user: Uuid)
    requires UsersTrue(s) && SessionsTrue(s) && WritesAtOnce(e) && Enabled(s, e) && Within(s, user)
    ensures Within(Do(s, e), user)
  {
    WritesSoften(s, e);
    SofterHasFewer(s, Written(s.db, e), user);
    if RaisesGeneration(s, e, user) { ChangeRevokesAll(s, e, user); }
  }

  lemma InsertStaysWithinExactly(s: System, t: nat, id: Uuid, digest: Digest, user: Uuid)
    requires t in s.flights && s.flights[t].Counted? && id !in s.db.sessions && Within(s, user)
    ensures var db := LoginInserted(s, t, id, digest).db;
      |ActiveSessions(db, user)| <= RoleLimit(s.db.users[user].role) <==> !Overfills(s, Insert(t, id, digest), user)
  {
    if user == s.flights[t].login.user { OwnActive(s.db, s.flights[t].login, id, digest); }
    else { OthersActive(s.db, s.flights[t].login, id, digest, user); }
  }

  lemma QuietStep(s: System, e: Event)
    requires Enabled(s, e) && !e.Insert? && !WritesAtOnce(e)
    ensures Do(s, e).db.users == s.db.users && forall u :: ActiveSessions(Do(s, e).db, u) == ActiveSessions(s.db, u)
  {
    match e
    case StartLogin(t, audience, found, matched) => assert LoginRead(s, t, audience, found, matched).db == s.db;
    case LockAndCount(t) => assert LoginCounted(s, t).db == s.db;
    case StartRotation(t, session, digest) => assert RotationHeld(s, t, session, digest).db == s.db;
    case FinishRotation(t) => SameSlots(s, RotationWritten(s, t));
    case _ =>
  }

  /** One event of any kind keeps a user within the slots of the role exactly when it does not overfill them. */
  lemma EventStaysWithinExactly(s: System, e: Event, user: Uuid)
    requires Consistent(s) && Enabled(s, e) && Within(s, user)
    ensures Within(Do(s, e), user) <==> !Overfills(s, e, user)
  {
    if e.Insert? { InsertStaysWithinExactly(s, e.t, e.id, e.digest, user); }
    else if WritesAtOnce(e) { WriteStaysWithin(s, e, user); }
    else { QuietStep(s, e); }
  }

  /** What overfills is a login of the member audience that read its row before the member became staff. */
  lemma WhatOverfills(s: System, e: Event, user: Uuid)
    requires Consistent(s) && Overfills(s, e, user)
    ensures var f := s.flights[e.t];
      && f.login.audience == Members && f.login.role == "member" && IsStaff(s.db.users[user].role)
      && !Current(s, user, f.at)
  {
    var f := s.flights[e.t];
    assert Remembers(s, user, f.login.security, f.at, Some(f.login.role), f.login.audience);
  }

  ghost predicate WithinThroughout(s: System, es: seq<Event>, user: Uuid)
    requires Legal(s, es)
    decreases |es|
  {
    Within(s, user) && (|es| == 0 || WithinThroughout(Do(s, es[0]), es[1..], user))
  }

  ghost predicate NeverOverfills(s: System, es: seq<Event>, user: Uuid)
    requires Legal(s, es)
    decreases |es|
  {
    |es| == 0 || (!Overfills(s, es[0], user) && NeverOverfills(Do(s, es[0]), es[1..], user))
  }

  lemma {:induction false} RunStaysWithinExactly(s: System, es: seq<Event>, user: Uuid)
    requires Consistent(s) && Legal(s, es) && Within(s, user)
    ensures WithinThroughout(s, es, user) <==> NeverOverfills(s, es, user)
    decreases |es|
  {
    if |es| != 0 {
      EventKeeps(s, es[0]);
      EventStaysWithinExactly(s, es[0], user);
      if Within(Do(s, es[0]), user) { RunStaysWithinExactly(Do(s, es[0]), es[1..], user); }
    }
  }

  /** The active sessions of a user stay within the slots of the role all along exactly when no login overfills them. */
  lemma {:induction false} SlotsAreKeptExactly(users: map<Uuid, User>, es: seq<Event>, user: Uuid)
    requires forall u :: u in users ==> IsRole(users[u].role)
    requires Legal(Fresh(users), es) && user in users
    ensures WithinThroughout(Fresh(users), es, user) <==> NeverOverfills(Fresh(users), es, user)
  {
    FreshIsConsistent(users);
    assert ActiveSessions(Fresh(users).db, user) == {};
    RunStaysWithinExactly(Fresh(users), es, user);
  }

  // ----- what came before slots that are exceeded -----

  /** The state before the event `i` of a run. */
  ghost function At(s: System, es: seq<Event>, i: nat): System
    requires i <= |es| && Legal(s, es)
    decreases i
  {
    if i == 0 then s else At(Do(s, es[0]), es[1..], i - 1)
  }

  lemma {:induction false} AtNext(s: System, es: seq<Event>, i: nat)
    requires i < |es| && Legal(s, es)
    ensures Enabled(At(s, es, i), es[i]) && At(s, es, i + 1) == Do(At(s, es, i), es[i])
    decreases i
  {
    if i > 0 { AtNext(Do(s, es[0]), es[1..], i - 1); }
  }

  lemma {:induction false} AtEnd(s: System, es: seq<Event>)
    requires Legal(s, es)
    ensures At(s, es, |es|) == After(s, es)
    decreases |es|
  {
    if |es| > 0 { AtEnd(Do(s, es[0]), es[1..]); }
  }

  /** Which roles an audience is for. */
  predicate MeantFor(audience: Audience, role: string) {
    match audience
    case Members => role == "member"
    case Staff => role in {"owner", "admin", "cs"}
  }

  /**
   * The event at moment `at` was a login of this audience with the right password. It read the row of the
   * user, who was active, had a role that the audience is meant for, and this session version.
   */
  ghost predicate ReadThen(s: System, es: seq<Event>, at: nat, user: Uuid, audience: Audience, version: int)
    requires Legal(s, es)
  {
    && 1 <= at <= |es| && es[at - 1].StartLogin?
    && es[at - 1].audience == audience && es[at - 1].found == Some(user) && es[at - 1].matched
    && user in At(s, es, at - 1).db.users
    && var row := At(s, es, at - 1).db.users[user];
    && row.active && MeantFor(audience, row.role) && row.version == version
  }

  ghost predicate Traced(s: System, es: seq<Event>, now: System)
    requires Legal(s, es)
  {
    && (forall t :: t in now.flights && !now.flights[t].Holding? ==>
          var l := now.flights[t].login; ReadThen(s, es, now.flights[t].at, l.user, l.audience, l.version))
    && now.readAt.Keys == now.db.sessions.Keys
    && (forall x :: x in now.db.sessions ==>
          var l := now.db.sessions[x]; ReadThen(s, es, now.readAt[x], l.user, l.audience, l.version))
  }

  lemma {:induction false} WriteStaysTraced(s: System, es: seq<Event>, now: System, db: Db)
    requires Legal(s, es) && Traced(s, es, now) && Softens(now, db)
    ensures Traced(s, es, Later(Write(now, db)))
  {
  }

  lemma {:induction false} LoginStaysTraced(s: System, es: seq<Event>, i: nat)
    requires Legal(s, es) && i < |es| && es[i].StartLogin? && At(s, es, i).clock == i + 1 && Traced(s, es, At(s, es, i))
    ensures Traced(s, es, Later(LoginRead(At(s, es, i), es[i].t, es[i].audience, es[i].found, es[i].matched)))
  {
    var now, e := At(s, es, i), es[i];
    match ReadForLogin(now.db, e.audience, e.found, e.matched)
    case Failed(_) =>
    case Done(login) => assert ReadThen(s, es, now.clock, login.user, login.audience, login.version);
  }

  /** Nobody new waits or is logged in. */
  lemma {:induction false} NothingNewToTrace(s: System, es: seq<Event>, now: System, next: System)
    requires Legal(s, es) && Traced(s, es, now) && next.readAt.Keys == next.db.sessions.Keys
    requires forall t :: t in next.flights && !next.flights[t].Holding? ==>
      && t in now.flights && !now.flights[t].Holding?
      && next.flights[t].login == now.flights[t].login && next.flights[t].at == now.flights[t].at
    requires forall x :: x in next.db.sessions ==>
      && x in now.db.sessions && next.readAt[x] == now.readAt[x]
      && next.db.sessions[x].user == now.db.sessions[x].user
      && next.db.sessions[x].audience == now.db.sessions[x].audience
      && next.db.sessions[x].version == now.db.sessions[x].version
    ensures Traced(s, es, next)
  {
  }

  lemma {:induction false} InsertStaysTraced(s: System, es: seq<Event>, now: System, t: nat, id: Uuid, digest: Digest)
    requires Legal(s, es) && Traced(s, es, now) && t in now.flights && now.flights[t].Counted?
    ensures Traced(s, es, Later(LoginInserted(now, t, id, digest)))
  {
  }

  lemma {:induction false} CountStaysTraced(s: System, es: seq<Event>, now: System, t: nat)
    requires Legal(s, es) && Traced(s, es, now) && t in now.flights && now.flights[t].Read?
    ensures Traced(s, es, Later(LoginCounted(now, t)))
  {
    NothingNewToTrace(s, es, now, Later(LoginCounted(now, t)));
  }

  lemma {:induction false} LandingStaysTraced(s: System, es: seq<Event>, now: System, t: nat)
    requires Legal(s, es) && Traced(s, es, now)
    ensures Traced(s, es, Later(Land(now, t)))
  {
    NothingNewToTrace(s, es, now, Later(Land(now, t)));
  }

  lemma {:induction false} HoldingStaysTraced(
    s: System, es: seq<Event>, now: System, t: nat, session: Uuid, digest: Digest)
    requires Legal(s, es) && Traced(s, es, now)
    ensures Traced(s, es, Later(RotationHeld(now, t, session, digest)))
  {
    NothingNewToTrace(s, es, now, Later(RotationHeld(now, t, session, digest)));
  }

  lemma {:induction false} RotationStaysTraced(s: System, es: seq<Event>, now: System, t: nat)
    requires Legal(s, es) && Traced(s, es, now)
    requires t in now.flights && now.flights[t].Holding? && now.flights[t].session in now.db.sessions
    ensures Traced(s, es, Later(RotationWritten(now, t)))
  {
    NothingNewToTrace(s, es, now, Later(RotationWritten(now, t)));
  }

  lemma {:induction false} EventStaysTraced(s: System, es: seq<Event>, i: nat)
    requires Legal(s, es) && i < |es| && UsersTrue(At(s, es, i))
    requires At(s, es, i).clock == i + 1 && Traced(s, es, At(s, es, i))
    ensures Traced(s, es, At(s, es, i + 1))
  {
    var now := At(s, es, i);
    AtNext(s, es, i);
    match es[i]
    case StartLogin(t, audience, found, matched) => LoginStaysTraced(s, es, i);
    case Insert(t, id, digest) => InsertStaysTraced(s, es, now, t, id, digest);
    case LockAndCount(t) => CountStaysTraced(s, es, now, t);
    case Abandon(t) => LandingStaysTraced(s, es, now, t);
    case StartRotation(t, session, digest) => HoldingStaysTraced(s, es, now, t, session, digest);
    case FinishRotation(t) => RotationStaysTraced(s, es, now, t);
    case _ =>
      WritesSoften(now, es[i]);
      WriteStaysTraced(s, es, now, Written(now.db, es[i]));
  }

  lemma ClockCounts(s: System, e: Event)
    requires Enabled(s, e)
    ensures Do(s, e).clock == s.clock + 1
  {
  }

  lemma {:induction false} PrefixStays(users: map<Uuid, User>, es: seq<Event>, i: nat)
    requires forall u :: u in users ==> IsRole(users[u].role)
    requires Legal(Fresh(users), es) && i <= |es|
    ensures var now := At(Fresh(users), es, i);
      Consistent(now) && now.clock == i + 1 && now.db.users.Keys == users.Keys && Traced(Fresh(users), es, now)
    decreases i
  {
    if i == 0 {
      FreshIsConsistent(users);
    } else {
      PrefixStays(users, es, i - 1);
      AtNext(Fresh(users), es, i - 1);
      EventKeeps(At(Fresh(users), es, i - 1), es[i - 1]);
      EventRemains(At(Fresh(users), es, i - 1), es[i - 1]);
      EventStaysTraced(Fresh(users), es, i - 1);
      ClockCounts(At(Fresh(users), es, i - 1), es[i - 1]);
    }
  }

  /**
   * Every session of every reachable state goes back to a login with the right password, of a user who was
   * active and had a role of the session's audience when the login read the row.
   */
  lemma {:induction false} EverySessionWasLoggedIn(users: map<Uuid, User>, es: seq<Event>, x: Uuid)
    requires forall u :: u in users ==> IsRole(users[u].role)
    requires Legal(Fresh(users), es) && x in After(Fresh(users), es).db.sessions
    ensures var s := After(Fresh(users), es);
      && x in s.readAt
      && var row := s.db.sessions[x]; ReadThen(Fresh(users), es, s.readAt[x], row.user, row.audience, row.version)
  {
    AtEnd(Fresh(users), es);
    PrefixStays(users, es, |es|);
  }

  // ----- sessions of the staff audience -----

  function StaffSessions(db: Db, user: Uuid): set<Uuid> {
    set x | x in ActiveSessions(db, user) && db.sessions[x].audience == Staff
  }

  /** No event makes a session active again, or changes its user or audience. */
  lemma NothingRevives(s: System, e: Event, x: Uuid)
    requires UsersTrue(s) && Enabled(s, e) && x in s.db.sessions
    ensures x in Do(s, e).db.sessions
    ensures var was, now := s.db.sessions[x], Do(s, e).db.sessions[x];
      now.user == was.user && now.audience == was.audience && (now.state == Active ==> was.state == Active)
  {
    match e
    case StartLogin(t, audience, found, matched) => assert LoginRead(s, t, audience, found, matched).db == s.db;
    case LockAndCount(t) => assert LoginCounted(s, t).db == s.db;
    case Insert(t, id, digest) =>
    case Abandon(t) =>
    case StartRotation(t, session, digest) => assert RotationHeld(s, t, session, digest).db == s.db;
    case FinishRotation(t) =>
    case _ => WritesSoften(s, e);
  }

  lemma OnlyInsertsAdd(s: System, e: Event)
    requires UsersTrue(s) && Enabled(s, e) && !e.Insert?
    ensures Do(s, e).db.sessions.Keys == s.db.sessions.Keys
  {
    match e
    case StartLogin(t, audience, found, matched) => assert LoginRead(s, t, audience, found, matched).db == s.db;
    case LockAndCount(t) => assert LoginCounted(s, t).db == s.db;
    case Abandon(t) =>
    case StartRotation(t, session, digest) => assert RotationHeld(s, t, session, digest).db == s.db;
    case FinishRotation(t) =>
    case _ => WritesSoften(s, e);
  }

  lemma InsertKeepsStaffSlots(s: System, t: nat, id: Uuid, digest: Digest, user: Uuid)
    requires FlightsTrue(s) && t in s.flights && s.flights[t].Counted? && id !in s.db.sessions
    requires |StaffSessions(s.db, user)| <= STAFF_SLOT_LIMIT
    ensures |StaffSessions(LoginInserted(s, t, id, digest).db, user)| <= STAFF_SLOT_LIMIT
  {
    var l, db := s.flights[t].login, LoginInserted(s, t, id, digest).db;
    if user == l.user && l.audience == Staff {
      OwnActive(s.db, l, id, digest);
      SubsetSize(StaffSessions(db, user), ActiveSessions(db, user));
    } else {
      SubsetSize(StaffSessions(db, user), StaffSessions(s.db, user));
    }
  }

  lemma EventKeepsStaffSlots(s: System, e: Event, user: Uuid)
    requires UsersTrue(s) && FlightsTrue(s) && Enabled(s, e) && |StaffSessions(s.db, user)| <= STAFF_SLOT_LIMIT
    ensures |StaffSessions(Do(s, e).db, user)| <= STAFF_SLOT_LIMIT
  {
    if e.Insert? {
      InsertKeepsStaffSlots(s, e.t, e.id, e.digest, user);
    } else {
      OnlyInsertsAdd(s, e);
      forall x | x in StaffSessions(Do(s, e).db, user)
        ensures x in StaffSessions(s.db, user)
      {
        NothingRevives(s, e, x);
      }
      SubsetSize(StaffSessions(Do(s, e).db, user), StaffSessions(s.db, user));
    }
  }

  lemma {:induction false} StaffSlotsHold(users: map<Uuid, User>, es: seq<Event>, i: nat, user: Uuid)
    requires forall u :: u in users ==> IsRole(users[u].role)
    requires Legal(Fresh(users), es) && i <= |es|
    ensures |StaffSessions(At(Fresh(users), es, i).db, user)| <= STAFF_SLOT_LIMIT
    decreases i
  {
    if i == 0 {
      assert StaffSessions(Fresh(users).db, user) == {};
    } else {
      PrefixStays(users, es, i - 1);
      StaffSlotsHold(users, es, i - 1, user);
      AtNext(Fresh(users), es, i - 1);
      EventKeepsStaffSlots(At(Fresh(users), es, i - 1), es[i - 1], user);
    }
  }

  lemma PickMember(db: Db, user: Uuid) returns (x: Uuid)
    requires |ActiveSessions(db, user)| > |StaffSessions(db, user)|
    ensures x in ActiveSessions(db, user) && db.sessions[x].audience == Members
  {
    if forall y :: y in ActiveSessions(db, user) ==> y in StaffSessions(db, user) {
      SubsetSize(ActiveSessions(db, user), StaffSessions(db, user));
    }
    x :| x in ActiveSessions(db, user) && x !in StaffSessions(db, user);
  }

  // ----- the demotion -----

  /** The event `j` takes a member's slots away: it makes the user staff. */
  ghost predicate Demotes(s: System, es: seq<Event>, j: nat, user: Uuid)
    requires Legal(s, es)
  {
    && j < |es| && es[j].SetRole? && es[j].user == user
    && user in At(s, es, j).db.users && At(s, es, j).db.users[user].role == "member"
    && user in At(s, es, j + 1).db.users && IsStaff(At(s, es, j + 1).db.users[user].role)
  }

  lemma OnlySetRoleSets(s: System, e: Event, user: Uuid)
    requires UsersTrue(s) && Enabled(s, e) && user in s.db.users
    ensures user in Do(s, e).db.users
    ensures Do(s, e).db.users[user].role != s.db.users[user].role ==>
      e.SetRole? && e.user == user && RaisesGeneration(s, e, user)
  {
    if WritesAtOnce(e) { OnlySetRoleWrites(s, e, user); }
    else if !e.Insert? { QuietStep(s, e); }
  }

  lemma OnlySetRoleWrites(s: System, e: Event, user: Uuid)
    requires UsersTrue(s) && Enabled(s, e) && WritesAtOnce(e) && user in s.db.users
    ensures user in Written(s.db, e).users
    ensures Written(s.db, e).users[user].role != s.db.users[user].role ==>
      e.SetRole? && e.user == user && RaisesGeneration(s, e, user)
  {
    WritesSoften(s, e);
    match e
    case SetRole(_, _) =>
    case ConfirmFactor(_, _, _) =>
    case _ =>
  }

  /** One step of a run: whose role it may change, and what becomes of a session. */
  lemma {:induction false} StepOfRun(users: map<Uuid, User>, es: seq<Event>, i: nat, user: Uuid, x: Uuid)
    requires forall u :: u in users ==> IsRole(users[u].role)
    requires Legal(Fresh(users), es) && i < |es|
    ensures var s, next := At(Fresh(users), es, i).db, At(Fresh(users), es, i + 1).db;
      && (user in s.users ==>
            && user in next.users
            && (next.users[user].role != s.users[user].role ==>
                  && es[i].SetRole? && es[i].user == user && IsRole(next.users[user].role)
                  && ActiveSessions(next, user) == {}))
      && (x in s.sessions ==>
            && x in next.sessions && next.sessions[x].user == s.sessions[x].user
            && (next.sessions[x].state == Active ==> s.sessions[x].state == Active))
  {
    PrefixStays(users, es, i);
    AtNext(Fresh(users), es, i);
    StepFacts(At(Fresh(users), es, i), es[i], user, x);
  }

  lemma StepFacts(s: System, e: Event, user: Uuid, x: Uuid)
    requires Consistent(s) && Enabled(s, e)
    ensures user in s.db.users ==>
      && user in Do(s, e).db.users
      && (Do(s, e).db.users[user].role != s.db.users[user].role ==>
            && e.SetRole? && e.user == user && IsRole(Do(s, e).db.users[user].role)
            && ActiveSessions(Do(s, e).db, user) == {})
    ensures x in s.db.sessions ==>
      && x in Do(s, e).db.sessions && Do(s, e).db.sessions[x].user == s.db.sessions[x].user
      && (Do(s, e).db.sessions[x].state == Active ==> s.db.sessions[x].state == Active)
  {
    EventKeeps(s, e);
    if x in s.db.sessions { NothingRevives(s, e, x); }
    if user in s.db.users {
      OnlySetRoleSets(s, e, user);
      if Do(s, e).db.users[user].role != s.db.users[user].role { ChangeRevokesAll(s, e, user); }
    }
  }

  /** Between a moment at which the user is a member and a later one at which not, there is a demotion. */
  lemma {:induction false} DemotionBetween(users: map<Uuid, User>, es: seq<Event>, i: nat, user: Uuid) returns (j: nat)
    requires forall u :: u in users ==> IsRole(users[u].role)
    requires Legal(Fresh(users), es) && i <= |es|
    requires user in At(Fresh(users), es, i).db.users && At(Fresh(users), es, i).db.users[user].role == "member"
    requires user in At(Fresh(users), es, |es|).db.users && At(Fresh(users), es, |es|).db.users[user].role != "member"
    ensures i <= j && Demotes(Fresh(users), es, j, user)
    decreases |es| - i
  {
    StepOfRun(users, es, i, user, "");
    if At(Fresh(users), es, i + 1).db.users[user].role == "member" {
      j := DemotionBetween(users, es, i + 1, user);
    } else {
      j := i;
    }
  }

  lemma {:induction false} InactiveForGood(users: map<Uuid, User>, es: seq<Event>, i: nat, user: Uuid, x: Uuid)
    requires forall u :: u in users ==> IsRole(users[u].role)
    requires Legal(Fresh(users), es) && i <= |es|
    requires x in At(Fresh(users), es, i).db.sessions
    ensures x in At(Fresh(users), es, |es|).db.sessions
    ensures x in ActiveSessions(At(Fresh(users), es, |es|).db, user) ==>
      x in ActiveSessions(At(Fresh(users), es, i).db, user)
    decreases |es| - i
  {
    if i < |es| {
      StepOfRun(users, es, i, user, x);
      InactiveForGood(users, es, i + 1, user, x);
    }
  }

  /** A demotion leaves none of the sessions before it active, so the active ones were inserted later. */
  lemma {:induction false} InsertedAfterDemotion(users: map<Uuid, User>, es: seq<Event>, j: nat, user: Uuid, x: Uuid)
    requires forall u :: u in users ==> IsRole(users[u].role)
    requires Legal(Fresh(users), es) && Demotes(Fresh(users), es, j, user)
    requires x in ActiveSessions(At(Fresh(users), es, |es|).db, user)
    ensures x !in At(Fresh(users), es, j + 1).db.sessions
  {
    StepOfRun(users, es, j, user, x);
    if x in At(Fresh(users), es, j + 1).db.sessions { InactiveForGood(users, es, j + 1, user, x); }
  }

  /** Exceeded slots are a staff user's, and one of the sessions was opened by a login of the member audience. */
  lemma {:induction false} ExceededByAMemberLogin(users: map<Uuid, User>, es: seq<Event>, user: Uuid) returns (x: Uuid)
    requires forall u :: u in users ==> IsRole(users[u].role)
    requires Legal(Fresh(users), es) && user in users && !Within(At(Fresh(users), es, |es|), user)
    ensures var s := At(Fresh(users), es, |es|);
      && user in s.db.users && s.db.users[user].role != "member"
      && x in ActiveSessions(s.db, user) && s.db.sessions[x].audience == Members && x in s.readAt
      && ReadThen(Fresh(users), es, s.readAt[x], user, Members, s.db.sessions[x].version)
  {
    var s := At(Fresh(users), es, |es|);
    PrefixStays(users, es, |es|);
    StaffSlotsHold(users, es, |es|, user);
    x := PickMember(s.db, user);
  }

  /**
   * Slots are exceeded only by a login of the member audience that read the row of a member, and
   * inserted its session after that member had become staff.
   */
  lemma {:induction false} ExceededOnlyAfterADemotion(users: map<Uuid, User>, es: seq<Event>, user: Uuid)
    returns (i: nat, j: nat, x: Uuid)
    requires forall u :: u in users ==> IsRole(users[u].role)
    requires Legal(Fresh(users), es) && user in users && !Within(After(Fresh(users), es), user)
    ensures i <= j && Demotes(Fresh(users), es, j, user)
    ensures var s := After(Fresh(users), es);
      && x in ActiveSessions(s.db, user) && s.db.sessions[x].audience == Members && x in s.readAt
      && s.readAt[x] == i + 1 && ReadThen(Fresh(users), es, i + 1, user, Members, s.db.sessions[x].version)
    ensures x !in At(Fresh(users), es, j + 1).db.sessions
  {
    AtEnd(Fresh(users), es);
    x := ExceededByAMemberLogin(users, es, user);
    i := At(Fresh(users), es, |es|).readAt[x] - 1;
    j := DemotionBetween(users, es, i, user);
    InsertedAfterDemotion(users, es, j, user, x);
  }
}
