/**
 * What each answer, message and call comes to, in the terms of the server's codes, and that a refresh
 * keeps trying for as long as it may.
 */
module CoordinatorOutcomes {
  import opened Base
  import opened CoordinatorSpec
  import opened CoordinatorRuns

  // ----- one undisturbed answer -----

  /** The operation is at a call, and nothing moved the generation since it began. */
  predicate Undisturbed(s: State, id: nat) {
    id in s.ops && s.ops[id].at == Calling && s.ops[id].expected == s.generation
  }

  /** The codes that end a session for good. */
  predicate EndsSession(code: Option<string>) {
    || code == Some("AUTH_REFRESH_RECOVERY_EXPIRED") || code == Some("AUTH_SESSION_EXPIRED")
    || code == Some("AUTH_SESSION_REVOKED") || code == Some("AUTH_SESSION_POLICY_CHANGED")
    || code == Some("AUTH_REFRESH_REUSED") || code == Some("AUTH_ACCOUNT_DISABLED")
    || code == Some("AUTH_TOKEN_INVALID")
  }

  /** The operation is over, and apart from that and the phase nothing has changed. */
  predicate JustOver(s: State, s': State, id: nat, phase: Phase) {
    && id !in s'.ops && s'.inFlight == (if s.inFlight == Some(id) then None else s.inFlight)
    && s' == s.(ops := s.ops - {id}, inFlight := s'.inFlight, phase := phase)
  }

  /** A failed recovery is waited out and tried again, unless the recovery attempts are used up. */
  lemma RecoveryFailure(cfg: Config, s: State, id: nat, status: Option<int>)
    requires Coherent(cfg, s) && Undisturbed(s, id)
    ensures var s' := Do(cfg, s, Answer(id, Failure(Some("AUTH_REFRESH_RECOVERY_UNAVAILABLE"), status)));
      && (id !in s'.ops <==> s.ops[id].attempt == cfg.backoffs)
      && (id in s'.ops ==>
            && s' == s.(phase := OfflineStale, ops := s.ops[id := s.ops[id].(at := Delaying)])
            && var again := Do(cfg, s', Wake(id));
            && id in again.ops && again.ops[id].at == Calling && again.ops[id].attempt == s.ops[id].attempt + 1
            && again.ops[id].calls == s.ops[id].calls + 1 && again.ops[id].expected == s.ops[id].expected)
      && (id !in s'.ops ==>
            JustOver(s, s', id, if status.None? || status.value in {500, 502, 503} then OfflineStale else s.phase))
  {
    assert !TerminalCode(RECOVERY_UNAVAILABLE);
  }

  /** The first lost race is waited out and tried again, from the first attempt on; another one ends the refresh. */
  lemma RaceFailure(cfg: Config, s: State, id: nat, status: Option<int>)
    requires Coherent(cfg, s) && Undisturbed(s, id)
    ensures var s' := Do(cfg, s, Answer(id, Failure(Some("AUTH_REFRESH_RACE"), status)));
      && (id in s'.ops <==> s.ops[id].allowRace)
      && (id in s'.ops ==>
            && s' == s.(ops := s.ops[id := s.ops[id].(at := Racing, races := s.ops[id].races + 1)])
            && var again := Do(cfg, s', Wake(id));
            && id in again.ops && again.ops[id].at == Calling && again.ops[id].attempt == 0 && !again.ops[id].allowRace
            && again.ops[id].calls == s.ops[id].calls + 1 && again.ops[id].expected == s.ops[id].expected)
      && (id !in s'.ops ==> JustOver(s, s', id, OfflineStale))
  {
    assert !TerminalCode(RACE);
  }

  /** A code that ends the session drops the credential and is reported once. */
  lemma TerminalFailure(cfg: Config, s: State, id: nat, code: Option<string>, status: Option<int>)
    requires Coherent(cfg, s) && Undisturbed(s, id) && EndsSession(code)
    ensures Do(cfg, s, Answer(id, Failure(code, status))) == CoordinatorSpec.TransitionTerminal(Finish(s, id))
    ensures Revoked(Finish(s, id), Do(cfg, s, Answer(id, Failure(code, status)))) && id !in Finish(s, id).ops
  {
    assert TerminalCode(code.value) && code != Some(RACE) && code != Some(RECOVERY_UNAVAILABLE);
  }

  /** The credential is dropped, and the end is shown and told unless it was before. */
  predicate Revoked(s: State, s': State) {
    && s'.token.None? && s'.sid.None? && s'.order.None? && !s'.accepts && s'.timer == Off && s'.terminal
    && s'.generation == s.generation + 1 && s'.posts == s.posts && s'.ops == s.ops && s'.inFlight == s.inFlight
    && s'.phase == (if s.terminal then s.phase else Ended)
    && s'.endings == (if s.terminal then s.endings else s.endings + 1)
  }

  /** Any other failure ends the refresh only; it shows as offline when there is no status or a temporary one. */
  lemma OtherFailure(cfg: Config, s: State, id: nat, code: Option<string>, status: Option<int>)
    requires Coherent(cfg, s) && Undisturbed(s, id) && !EndsSession(code)
    requires code != Some("AUTH_REFRESH_RACE") && code != Some("AUTH_REFRESH_RECOVERY_UNAVAILABLE")
    ensures var s' := Do(cfg, s, Answer(id, Failure(code, status)));
      JustOver(s, s', id, if status.None? || status.value in {500, 502, 503} then OfflineStale else s.phase)
  {
    assert code.Some? ==> !TerminalCode(code.value);
  }

  /** The token is held, its session shown as authenticated and its expiry watched; `told` is announced. */
  predicate TakenOver(s: State, s': State, r: Response, told: seq<Message>) {
    && s'.token == Some(r.token) && s'.sid == Some(r.policy.sid) && s'.order == r.token.order
    && s'.accepts && !s'.terminal && s'.phase == Authenticated && s'.generation == s.generation + 1
    && s'.timer == (if r.policy.expires.Some? then Armed else Off) && s'.installs == s.installs + 1
    && s'.endings == s.endings && s'.started == s.started && !s'.disposed && s'.posts == s.posts + told
  }

  /** A token with an order is taken over and announced; one without is not. */
  lemma Success(cfg: Config, s: State, id: nat, r: Response)
    requires Coherent(cfg, s) && Undisturbed(s, id)
    ensures var s' := Do(cfg, s, Answer(id, Outcome.Success(r)));
      if r.token.order.None? then JustOver(s, s', id, OfflineStale)
      else
        && id !in s'.ops && s'.inFlight == (if s.inFlight == Some(id) then None else s.inFlight)
        && TakenOver(s, s', r, [AccessUpdated(r.token, r.policy, r.token.order.value)])
  {
    assert !s.disposed;
  }

  /** So is a token installed on purpose, while operations go on. */
  lemma InstallsLocally(cfg: Config, s: State, r: Response)
    ensures var s' := Do(cfg, s, LocalInstall(r));
      if s.disposed || r.token.order.None? then s' == s
      else
        && TakenOver(s, s', r, [AccessUpdated(r.token, r.policy, r.token.order.value)])
        && s'.ops == s.ops && s'.inFlight == s.inFlight
  {
  }

  // ----- messages and calls -----

  /** A consistent announcement for the session held is followed when it is newer and accepted, and not passed on. */
  lemma HeardToken(cfg: Config, s: State, token: Token, policy: Policy, order: Order)
    requires !s.disposed
    ensures var s' := Do(cfg, s, Hear(AccessUpdated(token, policy, order)));
      if && token.order == Some(order) && s.accepts && s.sid == Some(policy.sid) && cfg.accept(Response(token, policy))
         && (|| s.order.None? || order.issuedAt > s.order.value.issuedAt
             || (order.issuedAt == s.order.value.issuedAt && order.rank > s.order.value.rank))
      then TakenOver(s, s', Response(token, policy), []) && s'.ops == s.ops && s'.inFlight == s.inFlight
      else s' == s
  {
  }

  /** A message about no session in particular, or about the one held, is heeded. */
  predicate AboutUs(s: State, sid: Option<string>) {
    sid == None || sid == Some("") || sid == s.sid
  }

  lemma HeardLogout(cfg: Config, s: State, reason: string, sid: Option<string>)
    requires !s.disposed
    ensures var s' := Do(cfg, s, Hear(LoggedOut(reason, sid)));
      if AboutUs(s, sid)
      then s'.token.None? && s'.sid.None? && s'.phase == Unauthenticated && s'.terminal && s'.posts == s.posts
        && s'.endings == s.endings && s'.timer == Off && !s'.accepts && s'.generation == s.generation + 1
      else s' == s
  {
  }

  lemma HeardRevocation(cfg: Config, s: State, reason: string, sid: Option<string>)
    requires !s.disposed
    ensures var s' := Do(cfg, s, Hear(SessionRevoked(reason, sid)));
      if AboutUs(s, sid) then Revoked(s, s') else s' == s
  {
  }

  /** Another tab's lock is followed for the session held, and not passed on. */
  lemma HeardLock(cfg: Config, s: State, sid: string)
    requires !s.disposed
    ensures var s' := Do(cfg, s, Hear(IdleLocked(sid)));
      if s.sid == Some(sid) && sid != "" then s' == s.(phase := IdleLock, timer := Off) else s' == s
  {
  }

  /** A lock of one's own shows, stops the timer, and is announced when asked for. */
  lemma Locks(cfg: Config, s: State, broadcast: bool)
    ensures var s' := Do(cfg, s, Lock(broadcast));
      if !s.disposed && s.sid.Some? && s.sid.value != "" then
        var posts := s.posts + if broadcast then [IdleLocked(s.sid.value)] else [];
        s' == s.(phase := IdleLock, timer := Off, posts := posts)
      else s' == s
  {
  }

  lemma LogsOut(cfg: Config, s: State, reason: string, broadcast: bool)
    ensures var s' := Do(cfg, s, Logout(reason, broadcast));
      && s'.token.None? && s'.sid.None? && s'.order.None? && !s'.accepts && s'.timer == Off && s'.terminal
      && s'.phase == Unauthenticated && s'.generation == s.generation + 1 && s'.endings == s.endings && s'.ops == s.ops
      && s'.posts == s.posts + if broadcast then [LoggedOut(reason, s.sid)] else []
  {
  }

  /** A refresh shows as refreshing and begins with its first call, under the present generation. */
  lemma Begins(cfg: Config, s: State, e: Event)
    requires Coherent(cfg, s) && (e == Refresh || e == Boot || e == Hear(RefreshRequired) || e == Tick)
    ensures var s' := Do(cfg, s, e);
      if s.disposed || (e != Boot && s.inFlight.Some?) || (e == Tick && s.timer != Armed)
      then s' == s.(timer := s'.timer) && s'.timer == (if e == Tick && s.timer == Armed then Fired else s.timer)
      else
        && s'.phase == Refreshing && s'.ops == s.ops[s.started := Op(s.generation, true, 0, Calling, 1, 0)]
        && s'.started == s.started + 1 && s'.inFlight == (if e == Boot then s.inFlight else Some(s.started))
        && s'.token == s.token && s'.generation == s.generation && s'.posts == s.posts
  {
  }

  // ----- it keeps trying -----

  /** How many more answers of a failed recovery the operation takes before it is over. */
  function Patience(cfg: Config, s: State, id: nat): int {
    if id !in s.ops then 0 else cfg.backoffs - s.ops[id].attempt + if s.ops[id].at == Calling then 1 else 0
  }

  ghost function AnswersOf(cfg: Config, s: State, es: seq<Event>, id: nat): nat
    requires Legal(cfg, s, es)
    decreases |es|
  {
    if |es| == 0 then 0
    else (if es[0].Answer? && es[0].id == id then 1 else 0) + AnswersOf(cfg, Do(cfg, s, es[0]), es[1..], id)
  }

  /** Every answer that the operation meets is a failed recovery, and finds it undisturbed; nobody shuts down. */
  ghost predicate OnlyRecoveryFails(cfg: Config, s: State, es: seq<Event>, id: nat)
    requires Legal(cfg, s, es)
    decreases |es|
  {
    |es| == 0 || (
      && es[0] != Shutdown
      && (es[0].Answer? && es[0].id == id ==>
            && s.ops[id].expected == s.generation && es[0].outcome.Failure?
            && es[0].outcome.code == Some("AUTH_REFRESH_RECOVERY_UNAVAILABLE"))
      && OnlyRecoveryFails(cfg, Do(cfg, s, es[0]), es[1..], id))
  }

  /** Each such answer costs one, a wait that ends and all that others do cost nothing. */
  lemma PatienceFalls(cfg: Config, s: State, e: Event, id: nat)
    requires Coherent(cfg, s) && Enabled(s, e) && id < s.started && e != Shutdown && Patient(s, id)
    requires e.Answer? && e.id == id ==>
      && s.ops[id].expected == s.generation
      && e.outcome.Failure? && e.outcome.code == Some("AUTH_REFRESH_RECOVERY_UNAVAILABLE")
    ensures Patience(cfg, Do(cfg, s, e), id) == Patience(cfg, s, id) - (if e.Answer? && e.id == id then 1 else 0)
    ensures Patient(Do(cfg, s, e), id)
  {
    if e.Answer? && e.id == id {
      RecoveryFailure(cfg, s, id, e.outcome.status);
    } else if e == Wake(id) {
      assert OpTrue(cfg, s.ops[id]);
    } else if id in s.ops {
      StaysOpen(cfg, s, e, id);
      StepsComeCloser(cfg, s, e, id);
    } else {
      GoneStaysGone(cfg, s, e, id);
    }
  }

  predicate Patient(s: State, id: nat) {
    id in s.ops ==> s.ops[id].at != Racing
  }

  /** What is not its own step leaves an operation open. */
  lemma StaysOpen(cfg: Config, s: State, e: Event, id: nat)
    requires Enabled(s, e) && id in s.ops && id < s.started && e != Shutdown
    requires !((e.Answer? || e.Wake?) && e.id == id)
    ensures id in Do(cfg, s, e).ops
  {
    match e
    case Answer(other, outcome) =>
      RespondTouches(cfg, s, other, outcome);
      assert id in s.ops - {other};
    case Wake(other) =>
    case _ =>
  }

  /** So each failed recovery is answered by another call until the attempts are used up, whatever else goes on. */
  lemma {:induction false} PatienceOverRuns(cfg: Config, s: State, es: seq<Event>, id: nat)
    requires Coherent(cfg, s) && Legal(cfg, s, es) && id < s.started && Patient(s, id)
    requires OnlyRecoveryFails(cfg, s, es, id)
    ensures Patience(cfg, After(cfg, s, es), id) == Patience(cfg, s, id) - AnswersOf(cfg, s, es, id)
    ensures Patient(After(cfg, s, es), id)
    decreases |es|
  {
    if |es| != 0 {
      EventKeeps(cfg, s, es[0]);
      StartedGrows(cfg, s, es[0]);
      PatienceFalls(cfg, s, es[0], id);
      PatienceOverRuns(cfg, Do(cfg, s, es[0]), es[1..], id);
    }
  }

  /**
   * A refresh that meets only failed recoveries, undisturbed, makes exactly `backoffs + 1` calls: it is
   * over if and only if that many have been answered.
   */
  lemma {:induction false} RecoveryIsTriedToTheEnd(cfg: Config, s: State, es: seq<Event>)
    requires Coherent(cfg, s) && !s.disposed && Legal(cfg, Bootstrap(s), es)
    requires OnlyRecoveryFails(cfg, Bootstrap(s), es, s.started)
    ensures AnswersOf(cfg, Bootstrap(s), es, s.started) <= cfg.backoffs + 1
    ensures s.started !in After(cfg, Bootstrap(s), es).ops <==>
      AnswersOf(cfg, Bootstrap(s), es, s.started) == cfg.backoffs + 1
  {
    var s1, s2 := Bootstrap(s), After(cfg, Bootstrap(s), es);
    EventKeeps(cfg, s, Boot);
    PatienceOverRuns(cfg, s1, es, s.started);
    RunKeeps(cfg, s1, es);
    if s.started in s2.ops { assert OpTrue(cfg, s2.ops[s.started]); }
  }
}
