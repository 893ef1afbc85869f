/** What holds of the coordinator after any events in any order. */
module CoordinatorRuns {
  import opened Base
  import opened CoordinatorSpec

  /** The token, the session id, the order and the acceptance of announcements come and go together. */
  predicate CredentialTrue(s: State) {
    && s.sid.Some? == s.token.Some? && s.order.Some? == s.token.Some? && s.accepts == s.token.Some?
    && (s.token.Some? ==> s.order == s.token.value.order)
    && (s.timer == Armed ==> s.token.Some?)
    && (s.disposed ==> s.timer == Off)
  }

  /** Calls and race waits so far, as a function of where the operation is in its two rounds. */
  predicate OpTrue(cfg: Config, op: Op) {
    && op.attempt <= cfg.backoffs
    && (op.at == Delaying ==> op.attempt < cfg.backoffs)
    && (op.at == Racing ==> op.allowRace)
    && (op.allowRace ==> op.calls == op.attempt + 1 && op.races == (if op.at == Racing then 1 else 0))
    && (!op.allowRace ==> op.races == 1 && op.attempt + 1 < op.calls <= cfg.backoffs + 1 + op.attempt + 1)
  }

  predicate OpsTrue(cfg: Config, s: State) {
    && (forall id :: id in s.ops ==> id < s.started && s.ops[id].expected <= s.generation && OpTrue(cfg, s.ops[id]))
    && (s.inFlight.Some? ==> s.inFlight.value in s.ops)
    && (s.disposed ==> s.ops == map[])
  }

  /** Announcements carry their token's own order, and each credential ends at most once. */
  predicate LogTrue(s: State) {
    && (forall i :: 0 <= i < |s.posts| && s.posts[i].AccessUpdated? ==>
          s.posts[i].token.order == Some(s.posts[i].order))
    && s.endings + (if s.terminal then 0 else 1) <= s.installs + 1
  }

  predicate Coherent(cfg: Config, s: State) {
    CredentialTrue(s) && OpsTrue(cfg, s) && LogTrue(s)
  }

  lemma FinishKeeps(cfg: Config, s: State, id: nat)
    requires Coherent(cfg, s)
    ensures Coherent(cfg, Finish(s, id))
  {
  }

  lemma InstallKeeps(cfg: Config, s: State, r: Response, broadcast: bool, deliberate: bool)
    requires Coherent(cfg, s)
    ensures Coherent(cfg, Install(cfg, s, r, broadcast, deliberate))
  {
    if !s.disposed && r.token.order.Some? {
      var s' := Installed(s, r, broadcast);
      forall i | 0 <= i < |s'.posts| && s'.posts[i].AccessUpdated?
        ensures s'.posts[i].token.order == Some(s'.posts[i].order)
      {
        if i < |s.posts| { assert s'.posts[i] == s.posts[i]; }
      }
    }
  }

  lemma EndingKeeps(cfg: Config, s: State, reason: string, broadcast: bool)
    requires Coherent(cfg, s)
    ensures Coherent(cfg, TransitionTerminal(s)) && Coherent(cfg, ClearSession(s, reason, broadcast))
    ensures Coherent(cfg, LockSession(s, broadcast))
  {
  }

  lemma RefreshKeeps(cfg: Config, s: State)
    requires Coherent(cfg, s)
    ensures Coherent(cfg, RefreshOnce(s)) && Coherent(cfg, Bootstrap(s)) && Coherent(cfg, ProactiveFires(s))
  {
  }

  lemma ReplacingKeeps(cfg: Config, s: State, id: nat, op: Op, phase: Phase)
    requires Coherent(cfg, s) && id in s.ops && OpTrue(cfg, op) && op.expected == s.ops[id].expected
    ensures Coherent(cfg, s.(phase := phase, ops := s.ops[id := op]))
  {
  }

  lemma FinishStaleKeeps(cfg: Config, s: State, id: nat)
    requires Coherent(cfg, s)
    ensures Coherent(cfg, Finish(s, id).(phase := OfflineStale))
  {
  }

  lemma RespondKeeps(cfg: Config, s: State, id: nat, outcome: Outcome)
    requires Coherent(cfg, s) && id in s.ops && s.ops[id].at == Calling
    ensures Coherent(cfg, Respond(cfg, s, id, outcome))
  {
    var op := s.ops[id];
    assert OpTrue(cfg, op);
    FinishKeeps(cfg, s, id);
    match React(cfg.backoffs, op.allowRace, op.attempt, s.generation != op.expected, outcome)
    case Supersede =>
    case Hold(r) => InstallKeeps(cfg, Finish(s, id), r, true, true);
    case AwaitWinner => ReplacingKeeps(cfg, s, id, op.(at := Racing, races := op.races + 1), s.phase);
    case AwaitDelay => ReplacingKeeps(cfg, s, id, op.(at := Delaying), OfflineStale);
    case Terminate => EndingKeeps(cfg, Finish(s, id), "", false);
    case GoStale => FinishStaleKeeps(cfg, s, id);
    case Rethrow =>
  }

  lemma ReceiveKeeps(cfg: Config, s: State, m: Message)
    requires Coherent(cfg, s)
    ensures Coherent(cfg, Receive(cfg, s, m))
  {
    match m
    case AccessUpdated(token, policy, _) => InstallKeeps(cfg, s, Response(token, policy), false, false);
    case LoggedOut(reason, _) => EndingKeeps(cfg, s, reason, false);
    case SessionRevoked(_, _) => EndingKeeps(cfg, s, "", false);
    case IdleLocked(_) => EndingKeeps(cfg, s, "", false);
    case RefreshRequired => RefreshKeeps(cfg, s);
  }

  lemma EventKeeps(cfg: Config, s: State, e: Event)
    requires Coherent(cfg, s) && Enabled(s, e)
    ensures Coherent(cfg, Do(cfg, s, e))
  {
    match e
    case Answer(id, outcome) => RespondKeeps(cfg, s, id, outcome);
    case LocalInstall(r) => InstallKeeps(cfg, s, r, true, true);
    case Logout(reason, broadcast) => EndingKeeps(cfg, s, reason, broadcast);
    case Lock(broadcast) => EndingKeeps(cfg, s, "", broadcast);
    case Hear(m) => ReceiveKeeps(cfg, s, m);
    case Refresh => RefreshKeeps(cfg, s);
    case Boot => RefreshKeeps(cfg, s);
    case Tick => RefreshKeeps(cfg, s);
    case Wake(_) =>
    case CancelTimer =>
    case Shutdown =>
  }

  lemma {:induction false} RunKeeps(cfg: Config, s: State, es: seq<Event>)
    requires Coherent(cfg, s) && Legal(cfg, s, es)
    ensures Coherent(cfg, After(cfg, s, es))
    decreases |es|
  {
    if |es| != 0 {
      EventKeeps(cfg, s, es[0]);
      RunKeeps(cfg, Do(cfg, s, es[0]), es[1..]);
    }
  }

  /**
   * In every reachable state: token, session id, order and acceptance stand or fall together, the
   * order is the token's, an armed timer means a credential to renew, no refresh has made more than
   * 2 * (backoffs + 1) calls or waited for more than one race, and the user was told of an ended
   * session at most once more often than a credential was installed.
   */
  lemma {:induction false} EveryReachableState(cfg: Config, es: seq<Event>)
    requires Legal(cfg, Initial(), es)
    ensures var s := After(cfg, Initial(), es);
      && (s.token.Some? <==> s.sid.Some?) && (s.token.Some? <==> s.order.Some?) && (s.token.Some? <==> s.accepts)
      && (s.token.Some? ==> s.order == s.token.value.order)
      && (s.timer == Armed ==> s.token.Some? && !s.disposed)
      && (forall id :: id in s.ops ==> s.ops[id].calls <= 2 * (cfg.backoffs + 1) && s.ops[id].races <= 1)
      && s.endings <= s.installs + 1
  {
    RunKeeps(cfg, Initial(), es);
  }

  /** What a tab announces passes the consistency check of the tabs that hear it. */
  lemma {:induction false} AnnouncementsAreConsistent(cfg: Config, es: seq<Event>, i: nat)
    requires Legal(cfg, Initial(), es) && i < |After(cfg, Initial(), es).posts|
    requires After(cfg, Initial(), es).posts[i].AccessUpdated?
    ensures var m := After(cfg, Initial(), es).posts[i];
      m.token.order.Some? && Compare(m.token.order.value, m.order) == 0
  {
    RunKeeps(cfg, Initial(), es);
  }

  // ----- supersession -----

  predicate SameCredential(s: State, s': State) {
    && s'.token == s.token && s'.sid == s.sid && s'.order == s.order && s'.accepts == s.accepts
    && s'.terminal == s.terminal
  }

  lemma TakeTouches(cfg: Config, s: State, id: nat, reaction: Reaction)
    requires id in s.ops
    ensures var s' := Take(cfg, s, id, reaction);
      && s'.started == s.started && s'.ops - {id} == s.ops - {id}
      && (id in s'.ops <==> reaction.AwaitWinner? || reaction.AwaitDelay?)
      && (id in s'.ops ==>
            && s'.ops[id].expected == s.ops[id].expected && s'.ops[id].attempt == s.ops[id].attempt
            && s'.ops[id].allowRace == s.ops[id].allowRace && s'.ops[id].at != Calling)
  {
  }

  lemma TakeMoves(cfg: Config, s: State, id: nat, reaction: Reaction)
    requires id in s.ops
    ensures var s' := Take(cfg, s, id, reaction);
      && s'.generation == s.generation +
           (if reaction.Terminate? || (reaction.Hold? && !s.disposed && reaction.response.token.order.Some?)
            then 1 else 0)
      && (s'.generation == s.generation ==> SameCredential(s, s') && s'.endings == s.endings)
  {
  }

  /** An answer touches its own operation only, which keeps its generation and waits, or is gone. */
  lemma RespondTouches(cfg: Config, s: State, id: nat, outcome: Outcome)
    requires id in s.ops
    ensures var s' := Respond(cfg, s, id, outcome);
      && s'.started == s.started && s'.ops - {id} == s.ops - {id}
      && (id in s'.ops ==>
            && s'.ops[id].expected == s.ops[id].expected && s'.ops[id].attempt == s.ops[id].attempt
            && s'.ops[id].allowRace == s.ops[id].allowRace && s'.ops[id].at != Calling)
  {
    TakeTouches(cfg, s, id, ReactionTo(cfg, s, id, outcome));
  }

  lemma RespondMoves(cfg: Config, s: State, id: nat, outcome: Outcome)
    requires id in s.ops
    ensures var s' := Respond(cfg, s, id, outcome);
      && s.generation <= s'.generation <= s.generation + 1
      && (s'.generation == s.generation ==> SameCredential(s, s') && s'.endings == s.endings)
  {
    TakeMoves(cfg, s, id, ReactionTo(cfg, s, id, outcome));
  }

  /** Every other event leaves the operations before it alone, unless it disposes of all of them. */
  lemma OthersTouch(cfg: Config, s: State, e: Event)
    requires Enabled(s, e) && !e.Answer? && !e.Wake?
    ensures var s' := Do(cfg, s, e);
      && s.started <= s'.started
      && (forall id :: id in s'.ops && id < s.started ==> id in s.ops && s'.ops[id] == s.ops[id])
      && s.generation <= s'.generation <= s.generation + 1
      && (s'.generation == s.generation ==> SameCredential(s, s') && s'.endings == s.endings)
  {
    match e
    case Hear(m) =>
      match m {
        case AccessUpdated(_, _, _) =>
        case LoggedOut(_, _) =>
        case SessionRevoked(_, _) =>
        case IdleLocked(_) =>
        case RefreshRequired =>
      }
    case _ =>
  }

  /** The credential moves only together with the generation, one step at a time. */
  lemma CredentialMovesWithGeneration(cfg: Config, s: State, e: Event)
    requires Enabled(s, e)
    ensures s.generation <= Do(cfg, s, e).generation <= s.generation + 1
    ensures Do(cfg, s, e).generation == s.generation ==>
      SameCredential(s, Do(cfg, s, e)) && Do(cfg, s, e).endings == s.endings
  {
    match e
    case Answer(id, outcome) => RespondMoves(cfg, s, id, outcome);
    case Wake(id) =>
    case _ => OthersTouch(cfg, s, e);
  }

  /** A live operation keeps the generation it was started under, whatever else happens. */
  lemma OperationKeepsItsGeneration(cfg: Config, s: State, e: Event, id: nat)
    requires Enabled(s, e) && id < s.started
    ensures s.started <= Do(cfg, s, e).started
    ensures id in Do(cfg, s, e).ops ==> id in s.ops && Do(cfg, s, e).ops[id].expected == s.ops[id].expected
  {
    match e
    case Answer(other, outcome) =>
      RespondTouches(cfg, s, other, outcome);
      var s' := Respond(cfg, s, other, outcome);
      if id != other && id in s'.ops {
        assert id in s'.ops - {other};
        assert s'.ops[id] == (s'.ops - {other})[id] == (s.ops - {other})[id] == s.ops[id];
      }
    case Wake(other) =>
    case _ => OthersTouch(cfg, s, e);
  }

  lemma StartedGrows(cfg: Config, s: State, e: Event)
    requires Enabled(s, e)
    ensures s.started <= Do(cfg, s, e).started
  {
    match e
    case Answer(id, outcome) => RespondTouches(cfg, s, id, outcome);
    case Wake(_) =>
    case _ => OthersTouch(cfg, s, e);
  }

  lemma {:induction false} RunKeepsGenerations(cfg: Config, s: State, es: seq<Event>, id: nat)
    requires Coherent(cfg, s) && Legal(cfg, s, es) && id < s.started
    ensures s.generation <= After(cfg, s, es).generation
    ensures id in After(cfg, s, es).ops ==> id in s.ops && After(cfg, s, es).ops[id].expected == s.ops[id].expected
    decreases |es|
  {
    if |es| != 0 {
      var s1 := Do(cfg, s, es[0]);
      EventKeeps(cfg, s, es[0]);
      CredentialMovesWithGeneration(cfg, s, es[0]);
      StartedGrows(cfg, s, es[0]);
      RunKeepsGenerations(cfg, s1, es[1..], id);
      if id in s1.ops { OperationKeepsItsGeneration(cfg, s, es[0], id); }
    }
  }

  /**
   * No resurrection. A refresh is under way in `s`; after some events an event moves the generation
   * (a logout, a terminal revocation, an installation or an accepted announcement); after more
   * events the answer arrives. Good or bad, it only ends the operation: no credential is installed or
   * dropped, no phase is set, nobody is told.
   */
  lemma {:induction false} NoResurrection(
    cfg: Config, s: State, id: nat, before: seq<Event>, e: Event, after: seq<Event>, outcome: Outcome)
    requires Coherent(cfg, s) && id in s.ops && Legal(cfg, s, before)
    requires var s1 := After(cfg, s, before);
      && Enabled(s1, e) && Do(cfg, s1, e).generation != s1.generation
      && Legal(cfg, Do(cfg, s1, e), after) && Enabled(After(cfg, Do(cfg, s1, e), after), Answer(id, outcome))
    ensures var s2 := After(cfg, Do(cfg, After(cfg, s, before), e), after);
      Do(cfg, s2, Answer(id, outcome)) == Finish(s2, id)
  {
    var s1 := After(cfg, s, before);
    RunKeeps(cfg, s, before);
    RunKeepsGenerations(cfg, s, before, id);
    CredentialMovesWithGeneration(cfg, s1, e);
    EventKeeps(cfg, s1, e);
    StartedStays(cfg, s, before);
    StartedGrows(cfg, s1, e);
    RunKeepsGenerations(cfg, Do(cfg, s1, e), after, id);
    OperationKeepsItsGeneration(cfg, s1, e, id);
  }

  lemma {:induction false} StartedStays(cfg: Config, s: State, es: seq<Event>)
    requires Legal(cfg, s, es)
    ensures s.started <= After(cfg, s, es).started
    decreases |es|
  {
    if |es| != 0 {
      StartedGrows(cfg, s, es[0]);
      StartedStays(cfg, Do(cfg, s, es[0]), es[1..]);
    }
  }

  /** An undisturbed answer with an ordered token, and no other answer, is installed and announced. */
  lemma AnswerInstallsExactlyWhenUndisturbed(cfg: Config, s: State, id: nat, outcome: Outcome)
    requires Coherent(cfg, s) && Enabled(s, Answer(id, outcome))
    ensures var s' := Do(cfg, s, Answer(id, outcome));
      s'.installs != s.installs <==>
        s.ops[id].expected == s.generation && outcome.Success? && outcome.response.token.order.Some?
    ensures var s' := Do(cfg, s, Answer(id, outcome));
      s'.installs != s.installs ==>
        && s'.token == Some(outcome.response.token) && s'.sid == Some(outcome.response.policy.sid)
        && |s'.posts| == |s.posts| + 1 && s'.posts[|s.posts|].AccessUpdated?
        && s'.posts[|s.posts|].token == outcome.response.token
  {
    assert !s.disposed;
  }

  lemma AnswerSupersedes(cfg: Config, s: State, id: nat, outcome: Outcome)
    requires id in s.ops && !s.disposed
    ensures Respond(cfg, s, id, outcome).generation != s.generation <==>
      && s.ops[id].expected == s.generation
      && match outcome
         case Success(r) => r.token.order.Some?
         case Failure(code, _) => code.Some? && TerminalCode(code.value)
  {
    assert !TerminalCode(RACE) && !TerminalCode(RECOVERY_UNAVAILABLE);
    TakeMoves(cfg, s, id, ReactionTo(cfg, s, id, outcome));
  }

  lemma MessageSupersedes(cfg: Config, s: State, m: Message)
    ensures Receive(cfg, s, m).generation != s.generation <==>
      && !s.disposed
      && match m
         case AccessUpdated(token, policy, order) =>
           token.order.Some? && Compare(token.order.value, order) == 0 && Eligible(cfg, s, Response(token, policy))
         case LoggedOut(_, sid) => Concerns(s, sid)
         case SessionRevoked(_, sid) => Concerns(s, sid)
         case IdleLocked(_) => false
         case RefreshRequired => false
  {
  }

  /** Which events move the generation: every end of a session and every installation, and nothing else. */
  lemma WhatSupersedes(cfg: Config, s: State, e: Event)
    requires Coherent(cfg, s) && Enabled(s, e)
    ensures Do(cfg, s, e).generation != s.generation <==>
      || e.Logout?
      || (e.LocalInstall? && !s.disposed && e.response.token.order.Some?)
      || (e.Hear? && !s.disposed && (e.message.LoggedOut? || e.message.SessionRevoked?) && Concerns(s, e.message.sid))
      || (e.Hear? && !s.disposed && e.message.AccessUpdated? && e.message.token.order.Some?
          && Compare(e.message.token.order.value, e.message.order) == 0
          && Eligible(cfg, s, Response(e.message.token, e.message.policy)))
      || (e.Answer? && s.ops[e.id].expected == s.generation
          && match e.outcome
             case Success(r) => r.token.order.Some?
             case Failure(code, _) => code.Some? && TerminalCode(code.value))
  {
    match e
    case Answer(id, outcome) => AnswerSupersedes(cfg, s, id, outcome);
    case Hear(m) => MessageSupersedes(cfg, s, m);
    case _ =>
  }

  /** After disposal nothing but a logout has any effect. */
  lemma DisposedIsInert(cfg: Config, s: State, e: Event)
    requires Coherent(cfg, s) && s.disposed && Enabled(s, e)
    ensures e.Logout? || Do(cfg, s, e) == s
  {
  }

  // ----- bounded refresh -----

  /** How many more steps of its own an operation can take. */
  function Remaining(cfg: Config, op: Op): nat
    requires op.attempt <= cfg.backoffs
  {
    (if op.allowRace then 2 * cfg.backoffs + 2 else 0)
      + 2 * (cfg.backoffs - op.attempt)
      + (if op.at == Calling then 1 else 0)
  }

  predicate Steps(e: Event, id: nat) {
    (e.Answer? || e.Wake?) && e.id == id
  }

  ghost function StepsOf(cfg: Config, s: State, es: seq<Event>, id: nat): nat
    requires Legal(cfg, s, es)
    decreases |es|
  {
    if |es| == 0 then 0 else (if Steps(es[0], id) then 1 else 0) + StepsOf(cfg, Do(cfg, s, es[0]), es[1..], id)
  }

  /** Every step of an operation brings it nearer to its end; the steps of others leave it alone. */
  lemma StepsComeCloser(cfg: Config, s: State, e: Event, id: nat)
    requires OpsTrue(cfg, s) && Enabled(s, e) && id < s.started && id in Do(cfg, s, e).ops
    ensures id in s.ops && s.ops[id].attempt <= cfg.backoffs && Do(cfg, s, e).ops[id].attempt <= cfg.backoffs
    ensures Steps(e, id) ==> Remaining(cfg, Do(cfg, s, e).ops[id]) < Remaining(cfg, s.ops[id])
    ensures !Steps(e, id) ==> Do(cfg, s, e).ops[id] == s.ops[id]
  {
    match e
    case Answer(other, outcome) =>
      RespondTouches(cfg, s, other, outcome);
      var s' := Respond(cfg, s, other, outcome);
      if id != other {
        assert id in s'.ops - {other};
        assert s'.ops[id] == (s'.ops - {other})[id] == (s.ops - {other})[id] == s.ops[id];
      }
    case Wake(other) => assert OpTrue(cfg, s.ops[other]);
    case _ => OthersTouch(cfg, s, e);
  }

  lemma GoneStaysGone(cfg: Config, s: State, e: Event, id: nat)
    requires Enabled(s, e) && id < s.started && id !in s.ops
    ensures id !in Do(cfg, s, e).ops && !Steps(e, id)
  {
    if id in Do(cfg, s, e).ops { OperationKeepsItsGeneration(cfg, s, e, id); }
  }

  /** Under any interleaving and any answers, an operation takes at most `Remaining` more steps and one to end. */
  lemma {:induction false} OperationsEnd(cfg: Config, s: State, es: seq<Event>, id: nat)
    requires Coherent(cfg, s) && Legal(cfg, s, es) && id < s.started
    ensures id in s.ops ==>
      s.ops[id].attempt <= cfg.backoffs && StepsOf(cfg, s, es, id) <= Remaining(cfg, s.ops[id]) + 1
    ensures id !in s.ops ==> StepsOf(cfg, s, es, id) == 0
    decreases |es|
  {
    if |es| != 0 {
      var s1 := Do(cfg, s, es[0]);
      EventKeeps(cfg, s, es[0]);
      StartedGrows(cfg, s, es[0]);
      OperationsEnd(cfg, s1, es[1..], id);
      if id in s1.ops {
        StepsComeCloser(cfg, s, es[0], id);
      } else if id !in s.ops {
        GoneStaysGone(cfg, s, es[0], id);
      }
    }
  }

  /** From its start, one refresh is over after at most 4 * backoffs + 4 answers, delays and race waits. */
  lemma {:induction false} RefreshTerminates(cfg: Config, s: State, es: seq<Event>)
    requires Coherent(cfg, s) && !s.disposed && Legal(cfg, Bootstrap(s), es)
    ensures StepsOf(cfg, Bootstrap(s), es, s.started) <= 4 * cfg.backoffs + 4
  {
    RefreshKeeps(cfg, s);
    OperationsEnd(cfg, Bootstrap(s), es, s.started);
  }
}
