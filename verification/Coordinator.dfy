/**
 * The coordinator with the mutable variables that its closures share. `View` collects them; each
 * method says which step of the machine it takes.
 */
module Coordinator {
  import opened Base
  import opened CoordinatorSpec

  class AuthCoordinator {
    const cfg: Config
    var token: Option<Token>
    var currentSid: Option<string>
    var currentOrder: Option<Order>
    var acceptsRemoteAccess: bool
    var credentialGeneration: nat
    var terminalTransitioned: bool
    var disposed: bool
    var phase: Phase
    var proactiveTimer: Timer
    var inFlight: Option<nat>
    var ops: map<nat, Op>
    var started: nat
    var posts: seq<Message>
    var endings: nat
    var installs: nat

    function View(): State
      reads this
    {
      State(token, currentSid, currentOrder, acceptsRemoteAccess, credentialGeneration, terminalTransitioned, disposed,
            phase, proactiveTimer, inFlight, ops, started, posts, endings, installs)
    }

    constructor (config: Config)
      ensures cfg == config && View() == Initial()
    {
      cfg := config;
      token, currentSid, currentOrder, acceptsRemoteAccess, credentialGeneration := None, None, None, false, 0;
      terminalTransitioned, disposed, phase, proactiveTimer := false, false, Initializing, Off;
      inFlight, ops, started, posts, endings, installs := None, map[], 0, [], 0, 0;
    }

    /** The assignments that `transitionTerminal` and `clearSession` share. */
    method DropCredential()
      modifies this
      ensures View() == old(View()).(
        timer := Off, generation := old(credentialGeneration) + 1, token := None, accepts := false,
        sid := None, order := None)
    {
      proactiveTimer := Off;
      credentialGeneration := credentialGeneration + 1;
      token := None;
      acceptsRemoteAccess := false;
      currentSid := None;
      currentOrder := None;
    }

    method TransitionTerminal()
      modifies this
      ensures View() == CoordinatorSpec.TransitionTerminal(old(View()))
      ensures token.None? && terminalTransitioned
    {
      DropCredential();
      if !terminalTransitioned {
        terminalTransitioned := true;
        phase := Ended;
        endings := endings + 1;
      }
    }

    method ClearSession(reason: string, broadcast: bool)
      modifies this
      ensures View() == CoordinatorSpec.ClearSession(old(View()), reason, broadcast)
      ensures token.None? && broadcast ==> posts == old(posts) + [LoggedOut(reason, old(currentSid))]
    {
      var sid := currentSid;
      DropCredential();
      terminalTransitioned := true;
      phase := Unauthenticated;
      if broadcast { posts := posts + [LoggedOut(reason, sid)]; }
    }

    method LockSession(broadcast: bool)
      modifies this
      ensures View() == CoordinatorSpec.LockSession(old(View()), broadcast)
      ensures token == old(token) && credentialGeneration == old(credentialGeneration) && ops == old(ops)
    {
      if disposed || currentSid.None? || currentSid.value == "" { return; }
      proactiveTimer := Off;
      phase := IdleLock;
      if broadcast { posts := posts + [IdleLocked(currentSid.value)]; }
    }

    method HoldCredential(r: Response, order: Order)
      modifies this
      ensures View() == old(View()).(
        generation := old(credentialGeneration) + 1, token := Some(r.token), accepts := true,
        sid := Some(r.policy.sid), order := Some(order))
    {
      acceptsRemoteAccess := true;
      currentSid := Some(r.policy.sid);
      currentOrder := Some(order);
      credentialGeneration := credentialGeneration + 1;
      token := Some(r.token);
    }

    method Authenticate(policy: Policy)
      modifies this
      ensures View() == old(View()).(
        terminal := false, installs := old(installs) + 1, phase := Authenticated,
        timer := if policy.expires.Some? then Armed else Off)
    {
      terminalTransitioned := false;
      installs := installs + 1;
      phase := Authenticated;
      proactiveTimer := if policy.expires.Some? then Armed else Off;
    }

    /** `thrown` when the coordinator is disposed or the token carries no order. */
    method Install(r: Response, broadcast: bool, deliberate: bool) returns (thrown: bool)
      modifies this
      ensures View() == CoordinatorSpec.Install(cfg, old(View()), r, broadcast, deliberate)
      ensures thrown == (old(disposed) || r.token.order.None?)
      ensures thrown ==> View() == old(View())
    {
      if disposed { return true; }
      if r.token.order.None? { return true; }
      var order := r.token.order.value;
      if !deliberate && (
          || !acceptsRemoteAccess
          || Some(r.policy.sid) != currentSid
          || (currentOrder.Some? && Compare(order, currentOrder.value) <= 0)
          || !cfg.accept(r))
      {
        return false;
      }
      HoldCredential(r, order);
      Authenticate(r.policy);
      if broadcast { posts := posts + [AccessUpdated(r.token, r.policy, order)]; }
      thrown := false;
    }

    method RefreshOnce()
      modifies this
      ensures View() == CoordinatorSpec.RefreshOnce(old(View()))
      ensures !disposed ==> inFlight.Some?
      ensures old(inFlight).Some? ==> View() == old(View())
    {
      if disposed { return; }
      if inFlight.None? {
        var id := Perform();
        inFlight := Some(id);
      }
    }

    method BootstrapSession()
      modifies this
      ensures View() == Bootstrap(old(View()))
      ensures inFlight == old(inFlight) && token == old(token)
    {
      if disposed { return; }
      phase := Initializing;
      var id := Perform();
    }

    /** `performRefresh` up to its first wait. */
    method Perform() returns (id: nat)
      modifies this
      ensures View() == PerformRefresh(old(View())) && id == old(started)
    {
      phase := Refreshing;
      id := started;
      ops := ops[id := Op(credentialGeneration, true, 0, Calling, 1, 0)];
      started := started + 1;
    }

    /** `.finally(() => { inFlight = null; })` */
    method Settle(id: nat)
      modifies this
      ensures View() == Finish(old(View()), id)
    {
      ops := ops - {id};
      if inFlight == Some(id) { inFlight := None; }
    }

    method Answered(id: nat, outcome: Outcome)
      requires id in ops
      modifies this
      ensures View() == Respond(cfg, old(View()), id, outcome)
      ensures old(credentialGeneration != ops[id].expected) ==>
        token == old(token) && posts == old(posts) && phase == old(phase) && id !in ops
    {
      var op := ops[id];
      if credentialGeneration != op.expected { Settle(id); return; }
      match outcome {
        case Success(r) =>
          Settle(id);
          var thrown := Install(r, true, true);
          if thrown && r.token.order.None? { phase := OfflineStale; }
        case Failure(code, status) =>
          if code == Some(RACE) && op.allowRace {
            ops := ops[id := op.(at := Racing, races := op.races + 1)];
          } else if code == Some(RECOVERY_UNAVAILABLE) && op.attempt < cfg.backoffs {
            phase := OfflineStale;
            ops := ops[id := op.(at := Delaying)];
          } else {
            Settle(id);
            if code.Some? && TerminalCode(code.value) {
              TransitionTerminal();
            } else if code == Some(RACE) || status.None? || Temporary(status.value) {
              phase := OfflineStale;
            }
          }
      }
    }

    /** After a recovery delay, or after another tab won the race, the next call is made. */
    method Woken(id: nat)
      requires id in ops
      modifies this
      ensures View() == Resume(old(View()), id)
      ensures id in ops && ops[id].at == Calling && ops[id].expected == old(ops)[id].expected && token == old(token)
    {
      var op := ops[id];
      match op.at {
        case Calling => return;
        case Delaying => ops := ops[id := op.(at := Calling, attempt := op.attempt + 1, calls := op.calls + 1)];
        case Racing => ops := ops[id := op.(at := Calling, attempt := 0, allowRace := false, calls := op.calls + 1)];
      }
    }

    method ProactiveTimer()
      modifies this
      ensures View() == ProactiveFires(old(View()))
      ensures proactiveTimer != Armed
      ensures old(proactiveTimer) != Armed ==> View() == old(View())
    {
      if proactiveTimer != Armed { return; }
      proactiveTimer := Fired;
      RefreshOnce();
    }

    method AcceptChannelMessage(m: Message)
      modifies this
      ensures View() == Receive(cfg, old(View()), m)
      ensures posts == old(posts) && (old(disposed) ==> View() == old(View()))
    {
      if disposed { return; }
      match m {
        case AccessUpdated(announced, policy, order) =>
          if announced.order.Some? && Compare(announced.order.value, order) == 0 {
            var thrown := Install(Response(announced, policy), false, false);
          }
        case LoggedOut(reason, sid) => if Concerns(View(), sid) { ClearSession(reason, false); }
        case SessionRevoked(reason, sid) => if Concerns(View(), sid) { TransitionTerminal(); }
        case IdleLocked(sid) => if Some(sid) == currentSid { LockSession(false); }
        case RefreshRequired => RefreshOnce();
      }
    }

    method Dispose()
      modifies this
      ensures View() == CoordinatorSpec.Dispose(old(View()))
      ensures disposed && ops == (if old(disposed) then old(ops) else map[])
    {
      if disposed { return; }
      disposed := true;
      proactiveTimer := Off;
      ops := map[];
      inFlight := None;
    }
  }
}
