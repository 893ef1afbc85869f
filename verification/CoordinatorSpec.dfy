/**
 * The session coordinator of one browser tab as a state machine whose steps are the stretches of
 * code between two `await` points. A refresh is an operation that waits for the server, for a
 * recovery delay, or for another tab to win a race.
 */
module CoordinatorSpec {
  import opened Base

  /** `rank` is the place of the token id in the collation order, so ids that compare equal share it. */
  datatype Order = Order(issuedAt: real, rank: int)

  /** The sign of `compareOrder`. */
  function Compare(a: Order, b: Order): int {
    if a.issuedAt > b.issuedAt then 1
    else if a.issuedAt < b.issuedAt then -1
    else if a.rank > b.rank then 1
    else if a.rank < b.rank then -1
    else 0
  }

  /** `order` is what decoding the text yields; a text without a finite `iat` has none. */
  datatype Token = Token(text: string, order: Option<Order>)

  datatype Policy = Policy(sid: string, expires: Option<int>)

  datatype Response = Response(token: Token, policy: Policy)

  datatype Message =
    | AccessUpdated(token: Token, policy: Policy, order: Order)
    | IdleLocked(locked: string)
    | LoggedOut(reason: string, sid: Option<string>)
    | SessionRevoked(reason: string, sid: Option<string>)
    | RefreshRequired

  datatype Phase = Initializing | Authenticated | Refreshing | IdleLock | OfflineStale | Unauthenticated | Ended

  datatype Timer = Off | Armed | Fired

  datatype Wait = Calling | Delaying | Racing

  /** `calls` and `races` count the refresh calls made and the race waits entered so far. */
  datatype Op = Op(expected: nat, allowRace: bool, attempt: nat, at: Wait, calls: nat, races: nat)

  datatype Outcome = Success(response: Response) | Failure(code: Option<string>, status: Option<int>)

  /** `backoffs` is the number of recovery delays; `accept` judges tokens that other tabs announce. */
  datatype Config = Config(backoffs: nat, accept: Response -> bool)

  /** `posts`, `endings` and `installs` record the messages sent, the terminal callbacks and the installations. */
  datatype State = State(
    token: Option<Token>, sid: Option<string>, order: Option<Order>, accepts: bool, generation: nat,
    terminal: bool, disposed: bool, phase: Phase, timer: Timer,
    inFlight: Option<nat>, ops: map<nat, Op>, started: nat,
    posts: seq<Message>, endings: nat, installs: nat)

  function Initial(): State {
    State(None, None, None, false, 0, false, false, Initializing, Off, None, map[], 0, [], 0, 0)
  }

  const RACE := "AUTH_REFRESH_RACE"
  const RECOVERY_UNAVAILABLE := "AUTH_REFRESH_RECOVERY_UNAVAILABLE"

  predicate TerminalCode(code: string) {
    code in {
      "AUTH_REFRESH_RECOVERY_EXPIRED", "AUTH_SESSION_EXPIRED", "AUTH_SESSION_REVOKED", "AUTH_SESSION_POLICY_CHANGED",
      "AUTH_REFRESH_REUSED", "AUTH_ACCOUNT_DISABLED", "AUTH_TOKEN_INVALID"}
  }

  predicate Temporary(status: int) {
    status == 500 || status == 502 || status == 503
  }

  function TransitionTerminal(s: State): State {
    var s' := s.(
      timer := Off, generation := s.generation + 1, token := None, accepts := false, sid := None, order := None);
    if s.terminal then s' else s'.(terminal := true, phase := Ended, endings := s.endings + 1)
  }

  function ClearSession(s: State, reason: string, broadcast: bool): State {
    s.(timer := Off, generation := s.generation + 1, token := None, accepts := false, sid := None, order := None,
       terminal := true, phase := Unauthenticated,
       posts := if broadcast then s.posts + [LoggedOut(reason, s.sid)] else s.posts)
  }

  function LockSession(s: State, broadcast: bool): State {
    if s.disposed || s.sid.None? || s.sid.value == "" then s
    else
      s.(timer := Off, phase := IdleLock,
         posts := if broadcast then s.posts + [IdleLocked(s.sid.value)] else s.posts)
  }

  /** Whether a token announced by another tab replaces the one held. */
  predicate Eligible(cfg: Config, s: State, r: Response)
    requires r.token.order.Some?
  {
    && s.accepts && Some(r.policy.sid) == s.sid
    && (s.order.Some? ==> Compare(r.token.order.value, s.order.value) > 0)
    && cfg.accept(r)
  }

  function Installed(s: State, r: Response, broadcast: bool): State
    requires r.token.order.Some?
  {
    s.(terminal := false, accepts := true, sid := Some(r.policy.sid), order := r.token.order,
       generation := s.generation + 1, token := Some(r.token), phase := Authenticated,
       timer := if r.policy.expires.Some? then Armed else Off,
       installs := s.installs + 1,
       posts := if broadcast then s.posts + [AccessUpdated(r.token, r.policy, r.token.order.value)] else s.posts)
  }

  /** `install`; a token without an order makes it throw before it changes anything. */
  function Install(cfg: Config, s: State, r: Response, broadcast: bool, deliberate: bool): State {
    if s.disposed || r.token.order.None? then s
    else if !deliberate && !Eligible(cfg, s, r) then s
    else Installed(s, r, broadcast)
  }

  function PerformRefresh(s: State): State {
    s.(phase := Refreshing, started := s.started + 1,
       ops := s.ops[s.started := Op(s.generation, true, 0, Calling, 1, 0)])
  }

  function RefreshOnce(s: State): State {
    if s.disposed || s.inFlight.Some? then s
    else PerformRefresh(s).(inFlight := Some(s.started))
  }

  function Bootstrap(s: State): State {
    if s.disposed then s else PerformRefresh(s)
  }

  function Finish(s: State, id: nat): State {
    s.(ops := s.ops - {id}, inFlight := if s.inFlight == Some(id) then None else s.inFlight)
  }

  datatype Reaction = Supersede | Hold(response: Response) | AwaitWinner | AwaitDelay | Terminate | GoStale | Rethrow

  /** How one round of `classifyAttempt` takes the server's answer; `stale` when the generation moved meanwhile. */
  function React(backoffs: nat, allowRace: bool, attempt: nat, stale: bool, outcome: Outcome): Reaction {
    if stale then Supersede
    else
      match outcome
      case Success(r) => if r.token.order.Some? then Hold(r) else GoStale
      case Failure(code, status) =>
        if code == Some(RACE) && allowRace then AwaitWinner
        else if code == Some(RECOVERY_UNAVAILABLE) && attempt < backoffs then AwaitDelay
        else if code.Some? && TerminalCode(code.value) then Terminate
        else if code == Some(RACE) || status.None? || Temporary(status.value) then GoStale
        else Rethrow
  }

  function Take(cfg: Config, s: State, id: nat, reaction: Reaction): State
    requires id in s.ops
  {
    var op := s.ops[id];
    match reaction
    case Supersede => Finish(s, id)
    case Hold(r) => Install(cfg, Finish(s, id), r, true, true)
    case AwaitWinner => s.(ops := s.ops[id := op.(at := Racing, races := op.races + 1)])
    case AwaitDelay => s.(phase := OfflineStale, ops := s.ops[id := op.(at := Delaying)])
    case Terminate => TransitionTerminal(Finish(s, id))
    case GoStale => Finish(s, id).(phase := OfflineStale)
    case Rethrow => Finish(s, id)
  }

  function ReactionTo(cfg: Config, s: State, id: nat, outcome: Outcome): Reaction
    requires id in s.ops
  {
    React(cfg.backoffs, s.ops[id].allowRace, s.ops[id].attempt, s.generation != s.ops[id].expected, outcome)
  }

  /** What the code after `deps.refresh()` does with the server's answer. */
  function Respond(cfg: Config, s: State, id: nat, outcome: Outcome): State
    requires id in s.ops
  {
    Take(cfg, s, id, ReactionTo(cfg, s, id, outcome))
  }

  /** After a delay the loop goes round; after a race the attempts start over without the race. */
  function Resume(s: State, id: nat): State
    requires id in s.ops
  {
    var op := s.ops[id];
    match op.at
    case Calling => s
    case Delaying => s.(ops := s.ops[id := op.(at := Calling, attempt := op.attempt + 1, calls := op.calls + 1)])
    case Racing => s.(ops := s.ops[id := op.(at := Calling, attempt := 0, allowRace := false, calls := op.calls + 1)])
  }

  predicate Concerns(s: State, sid: Option<string>) {
    sid.None? || sid.value == "" || sid == s.sid
  }

  function Receive(cfg: Config, s: State, m: Message): State {
    if s.disposed then s
    else
      match m
      case AccessUpdated(token, policy, order) =>
        if token.order.Some? && Compare(token.order.value, order) == 0
        then Install(cfg, s, Response(token, policy), false, false)
        else s
      case LoggedOut(reason, sid) => if Concerns(s, sid) then ClearSession(s, reason, false) else s
      case SessionRevoked(reason, sid) => if Concerns(s, sid) then TransitionTerminal(s) else s
      case IdleLocked(sid) => if Some(sid) == s.sid then LockSession(s, false) else s
      case RefreshRequired => RefreshOnce(s)
  }

  function ProactiveFires(s: State): State {
    if s.timer != Armed then s else RefreshOnce(s.(timer := Fired))
  }

  /** Every waiting operation ends with the disposal error. */
  function Dispose(s: State): State {
    if s.disposed then s else s.(disposed := true, timer := Off, ops := map[], inFlight := None)
  }

  datatype Event =
    | Refresh
    | Boot
    | Answer(id: nat, outcome: Outcome)
    | Wake(id: nat)
    | LocalInstall(response: Response)
    | Logout(reason: string, broadcast: bool)
    | Lock(broadcast: bool)
    | Hear(message: Message)
    | Tick
    | CancelTimer
    | Shutdown

  predicate Enabled(s: State, e: Event) {
    match e
    case Answer(id, _) => id in s.ops && s.ops[id].at == Calling
    case Wake(id) => id in s.ops && s.ops[id].at != Calling
    case _ => true
  }

  function Do(cfg: Config, s: State, e: Event): State
    requires Enabled(s, e)
  {
    match e
    case Refresh => RefreshOnce(s)
    case Boot => Bootstrap(s)
    case Answer(id, outcome) => Respond(cfg, s, id, outcome)
    case Wake(id) => Resume(s, id)
    case LocalInstall(r) => Install(cfg, s, r, true, true)
    case Logout(reason, broadcast) => ClearSession(s, reason, broadcast)
    case Lock(broadcast) => LockSession(s, broadcast)
    case Hear(m) => Receive(cfg, s, m)
    case Tick => ProactiveFires(s)
    case CancelTimer => s.(timer := Off)
    case Shutdown => Dispose(s)
  }

  predicate Legal(cfg: Config, s: State, es: seq<Event>)
    decreases |es|
  {
    |es| == 0 || (Enabled(s, es[0]) && Legal(cfg, Do(cfg, s, es[0]), es[1..]))
  }

  function After(cfg: Config, s: State, es: seq<Event>): State
    requires Legal(cfg, s, es)
    decreases |es|
  {
    if |es| == 0 then s else After(cfg, Do(cfg, s, es[0]), es[1..])
  }
}
