/**
 * The rate limiter on the key store that all its callers share. Each call names a namespace and a key,
 * and works on two cells whose names it builds from them. As long as nobody else's cells have those
 * names, the calls of one pair behave as in `RateLane`.
 */
module RateLimiter {
  import opened Base
  import RateLane
  import opened RateKeys

  type Config = RateLane.Config

  datatype Cell = Cell(value: nat, expires: Option<int>)

  type Keyspace = map<string, Cell>

  // ----- commands of the store -----

  predicate Lives(m: Keyspace, name: string, now: int) {
    name in m && (m[name].expires.Some? ==> now < m[name].expires.value)
  }

  /** `TTL` */
  function TimeLeft(m: Keyspace, name: string, now: int): int {
    if !Lives(m, name, now) then -2 else if m[name].expires.None? then -1 else m[name].expires.value - now
  }

  /** `INCR` */
  function Incr(m: Keyspace, name: string, now: int): Keyspace {
    m[name := if Lives(m, name, now) then m[name].(value := m[name].value + 1) else Cell(1, None)]
  }

  /** `EXPIRE`, which removes the cell at once when the time given is not positive. */
  function SetExpiry(m: Keyspace, name: string, now: int, window: int): Keyspace {
    if !Lives(m, name, now) then m
    else if window <= 0 then m - {name}
    else m[name := m[name].(expires := Some(now + window))]
  }

  /** `SET name 1 EX seconds`, which the store refuses for a time that is not positive. */
  function SetBlock(m: Keyspace, name: string, now: int, seconds: int): Keyspace {
    if seconds <= 0 then m else m[name := Cell(1, Some(now + seconds))]
  }

  datatype Answer = Allowed(seconds: int) | Denied(seconds: int) | Unavailable

  /** One call whose commands follow each other without interruption. */
  function Once(cfg: Config, m: Keyspace, p: Pair, now: int): (Keyspace, Answer) {
    if TimeLeft(m, p.Block(), now) > 0 then (m, Denied(TimeLeft(m, p.Block(), now)))
    else
      var m1 := Incr(m, p.Counter(), now);
      var count := m1[p.Counter()].value;
      var m2 := if count == 1 then SetExpiry(m1, p.Counter(), now, cfg.window) else m1;
      if count > cfg.limit then
        if cfg.block <= 0 then (m2, Unavailable) else (SetBlock(m2, p.Block(), now, cfg.block), Denied(cfg.block))
      else (m2, Allowed(if TimeLeft(m2, p.Counter(), now) < 1 then 1 else TimeLeft(m2, p.Counter(), now)))
  }

  // ----- what a call is told -----

  /** The calls that the counter remembers. */
  function Remembered(m: Keyspace, name: string, now: int): nat {
    match if name in m then Some(m[name]) else None
    case None => 0
    case Some(cell) => if cell.expires.Some? && cell.expires.value <= now then 0 else cell.value
  }

  predicate BlockedFor(m: Keyspace, p: Pair, now: int, seconds: int) {
    p.Block() in m && m[p.Block()].expires == Some(now + seconds) && 0 < seconds
  }

  /** The seconds that a call admitted as number `n` is told. */
  predicate AdmittedFor(cfg: Config, m: Keyspace, p: Pair, now: int, n: nat, seconds: int) {
    if n == 1 then seconds == cfg.window || (cfg.window < 1 && seconds == 1)
    else
      p.Counter() in m && match m[p.Counter()].expires
                          case Some(end) => now + seconds == end
                          case None => seconds == 1
  }

  /**
   * A standing block is answered with the rest of its time and nothing is counted. Otherwise the call is
   * counted; it is admitted when its number is within the limit, and else starts a block.
   */
  ghost predicate Told(cfg: Config, m: Keyspace, p: Pair, now: int, after: Keyspace, answer: Answer) {
    var n := Remembered(m, p.Counter(), now) + 1;
    && (forall seconds :: BlockedFor(m, p, now, seconds) ==> answer == Denied(seconds) && after == m)
    && ((forall seconds :: !BlockedFor(m, p, now, seconds)) ==>
          && (answer.Allowed? <==> n <= cfg.limit)
          && (answer.Allowed? ==> AdmittedFor(cfg, m, p, now, n, answer.seconds))
          && (answer.Denied? <==> cfg.limit < n && 0 < cfg.block)
          && (answer.Denied? ==>
                && answer.seconds == cfg.block && BlockedFor(after, p, now, cfg.block)
                && after[p.Block()].value == 1)
          && (1 < n || 0 < cfg.window ==>
                && p.Counter() in after && after[p.Counter()].value == n
                && after[p.Counter()].expires == if n == 1 then Some(now + cfg.window) else m[p.Counter()].expires))
  }

  lemma {:induction false} OnceIsTold(cfg: Config, m: Keyspace, p: Pair, now: int)
    ensures var (after, answer) := Once(cfg, m, p, now); Told(cfg, m, p, now, after, answer)
  {
    BlockIsACounter(p);
    assert p.Counter() != p.Block();
    var left := TimeLeft(m, p.Block(), now);
    if left > 0 {
      assert BlockedFor(m, p, now, left);
    } else {
      assert forall seconds :: !BlockedFor(m, p, now, seconds);
    }
  }

  class Limiter {
    var store: Keyspace

    constructor ()
      ensures store == map[]
    {
      store := map[];
    }

    method RateLimit(p: Pair, cfg: Config, now: int) returns (answer: Answer)
      modifies this
      ensures (store, answer) == Once(cfg, old(store), p, now)
      ensures Told(cfg, old(store), p, now, store, answer)
      ensures TimeLeft(old(store), p.Block(), now) > 0 ==> answer.Denied? && store == old(store)
      ensures answer.Allowed? && p.Counter() in store ==> store[p.Counter()].value <= cfg.limit
      ensures forall name :: name != p.Counter() && name != p.Block() ==>
        (name in store <==> name in old(store)) && (name in store ==> store[name] == old(store)[name])
    {
      OnceIsTold(cfg, store, p, now);
      var blocked := TimeLeft(store, p.Block(), now);
      if blocked > 0 { return Denied(blocked); }
      store := Incr(store, p.Counter(), now);
      var count := store[p.Counter()].value;
      if count == 1 {
        store := SetExpiry(store, p.Counter(), now, cfg.window);
      }
      if count > cfg.limit {
        if cfg.block <= 0 { return Unavailable; }
        store := SetBlock(store, p.Block(), now, cfg.block);
        return Denied(cfg.block);
      }
      var ttl := TimeLeft(store, p.Counter(), now);
      answer := Allowed(if ttl < 1 then 1 else ttl);
    }
  }

  // ----- concurrent calls -----

  datatype Call = Call(pair: Pair, cfg: Config, phase: RateLane.Call)

  /** An admission: which call it was, when the call started and when it was decided. */
  datatype Admission = Admission(pair: Pair, id: nat, started: int, at: int)

  datatype System = System(store: Keyspace, now: int, calls: map<nat, Call>, log: seq<Admission>)

  /** `Write` is any command of somebody else on the store. */
  datatype Event =
    | Start(c: nat, pair: Pair, cfg: Config)
    | Count(c: nat)
    | Expire(c: nat)
    | Block(c: nat)
    | Lose(c: nat)
    | Pass(seconds: nat)
    | Write(name: string, cell: Option<Cell>)

  predicate Enabled(s: System, e: Event) {
    match e
    case Start(c, _, _) => c !in s.calls
    case Count(c) => c in s.calls && s.calls[c].phase.Passed?
    case Expire(c) => c in s.calls && s.calls[c].phase.MustExpire?
    case Block(c) => c in s.calls && s.calls[c].phase.MustBlock?
    case Lose(c) => c in s.calls
    case Pass(_) => true
    case Write(_, _) => true
  }

  function Counted(s: System, c: nat): System
    requires c in s.calls && s.calls[c].phase.Passed?
  {
    var call := s.calls[c];
    var store := Incr(s.store, call.pair.Counter(), s.now);
    var count := store[call.pair.Counter()].value;
    var over := count > call.cfg.limit;
    s.(store := store,
       calls :=
         if count == 1 then s.calls[c := call.(phase := RateLane.MustExpire(over))]
         else if over then s.calls[c := call.(phase := RateLane.MustBlock)] else s.calls - {c},
       log := if over then s.log else s.log + [Admission(call.pair, c, call.phase.started, s.now)])
  }

  function Expired(s: System, c: nat): System
    requires c in s.calls && s.calls[c].phase.MustExpire?
  {
    var call := s.calls[c];
    s.(store := SetExpiry(s.store, call.pair.Counter(), s.now, call.cfg.window),
       calls := if call.phase.over then s.calls[c := call.(phase := RateLane.MustBlock)] else s.calls - {c})
  }

  function Do(s: System, e: Event): System
    requires Enabled(s, e)
  {
    match e
    case Start(c, pair, cfg) =>
      if TimeLeft(s.store, pair.Block(), s.now) > 0 then s
        else s.(calls := s.calls[c := Call(pair, cfg, RateLane.Passed(s.now))])
    case Count(c) => Counted(s, c)
    case Expire(c) => Expired(s, c)
    case Block(c) =>
      s.(store := SetBlock(s.store, s.calls[c].pair.Block(), s.now, s.calls[c].cfg.block), calls := s.calls - {c})
    case Lose(c) => s.(calls := s.calls - {c})
    case Pass(seconds) => s.(now := s.now + seconds)
    case Write(name, cell) => s.(store := if cell.None? then s.store - {name} else s.store[name := cell.value])
  }

  predicate Legal(s: System, es: seq<Event>)
    decreases |es|
  {
    |es| == 0 || (Enabled(s, es[0]) && Legal(Do(s, es[0]), es[1..]))
  }

  function After(s: System, es: seq<Event>): System
    requires Legal(s, es)
    decreases |es|
  {
    if |es| == 0 then s else After(Do(s, es[0]), es[1..])
  }

  function Fresh(now: int): System {
    System(map[], now, map[], [])
  }

  /** An uninterrupted call is these steps one after the other. */
  lemma OnceIsARun(cfg: Config, s: System, p: Pair, c: nat)
    requires c !in s.calls
    ensures var (store, answer) := Once(cfg, s.store, p, s.now);
      && (TimeLeft(s.store, p.Block(), s.now) > 0 ==> Do(s, Start(c, p, cfg)) == s && store == s.store)
      && (TimeLeft(s.store, p.Block(), s.now) <= 0 ==>
            var s1 := Do(s, Start(c, p, cfg));
            var s2 := Do(s1, Count(c));
            var s3 := if c in s2.calls && s2.calls[c].phase.MustExpire? then Do(s2, Expire(c)) else s2;
            var s4 := if c in s3.calls && s3.calls[c].phase.MustBlock? then Do(s3, Block(c)) else s3;
            s4.store == store && s4.calls == s.calls && (answer.Allowed? <==> |s4.log| == |s.log| + 1))
  {
  }

  // ----- the lane of one pair -----

  /** The event leaves the pair to itself: its own calls have the one configuration, others have other cells. */
  predicate Apart(e: Event, p: Pair, cfg: Config) {
    match e
    case Start(_, q, other) => if q == p then other == cfg else !SharesCells(p, q)
    case Write(name, _) => name != p.Counter() && name != p.Block()
    case _ => true
  }

  predicate AllApart(es: seq<Event>, p: Pair, cfg: Config) {
    |es| == 0 || (Apart(es[0], p, cfg) && AllApart(es[1..], p, cfg))
  }

  function CellsOf(m: Keyspace, p: Pair): RateLane.Cells {
    RateLane.Cells(
      if p.Counter() in m then Some(RateLane.Counter(m[p.Counter()].value, m[p.Counter()].expires)) else None,
      if p.Block() in m then m[p.Block()].expires else None)
  }

  function CallsOf(calls: map<nat, Call>, p: Pair): map<nat, RateLane.Call> {
    map c | c in calls && calls[c].pair == p :: calls[c].phase
  }

  function LogOf(log: seq<Admission>, p: Pair): seq<Admission> {
    if |log| == 0 then []
    else LogOf(log[..|log| - 1], p) + if log[|log| - 1].pair == p then [log[|log| - 1]] else []
  }

  /** What the pair's own machine does while the store takes this step. */
  function LaneOf(s: System, e: Event, p: Pair): seq<RateLane.Event>
    requires Enabled(s, e)
  {
    match e
    case Start(c, q, _) => if q == p then [RateLane.Start(c)] else []
    case Count(c) => if s.calls[c].pair == p then [RateLane.Count(c)] else []
    case Expire(c) => if s.calls[c].pair == p then [RateLane.Expire(c)] else []
    case Block(c) => if s.calls[c].pair == p then [RateLane.Block(c)] else []
    case Lose(c) => if s.calls[c].pair == p then [RateLane.Lose(c)] else []
    case Pass(seconds) => [RateLane.Pass(seconds)]
    case Write(_, _) => []
  }

  function LaneRun(s: System, es: seq<Event>, p: Pair): seq<RateLane.Event>
    requires Legal(s, es)
    decreases |es|
  {
    if |es| == 0 then [] else LaneOf(s, es[0], p) + LaneRun(Do(s, es[0]), es[1..], p)
  }

  predicate SameAdmission(a: Admission, b: RateLane.Admission) {
    a.id == b.id && a.started == b.started && a.at == b.at
  }

  predicate SameLog(mine: seq<Admission>, lane: seq<RateLane.Admission>) {
    |mine| == |lane| && forall i :: 0 <= i < |mine| ==> SameAdmission(mine[i], lane[i])
  }

  predicate CallsApart(calls: map<nat, Call>, p: Pair, cfg: Config) {
    forall c :: c in calls ==> if calls[c].pair == p then calls[c].cfg == cfg else !SharesCells(p, calls[c].pair)
  }

  /** `l` is what the pair sees of the store. */
  predicate Sees(s: System, l: RateLane.System, p: Pair) {
    && l.cells == CellsOf(s.store, p) && l.now == s.now && l.calls == CallsOf(s.calls, p)
    && SameLog(LogOf(s.log, p), l.log)
  }

  ghost predicate Shows(s: System, l: RateLane.System, p: Pair, cfg: Config) {
    Sees(s, l, p) && CallsApart(s.calls, p, cfg) && RateLane.Consistent(cfg, l)
  }

  // ----- the store's commands as the pair sees them -----

  lemma {:induction false} OwnCommands(m: Keyspace, p: Pair, now: int, seconds: int)
    ensures TimeLeft(m, p.Block(), now) > 0 <==> RateLane.Blocked(CellsOf(m, p), now) && Lives(m, p.Block(), now)
    ensures RateLane.Blocked(CellsOf(m, p), now) ==> Lives(m, p.Block(), now)
    ensures Lives(m, p.Counter(), now) <==> RateLane.CounterLives(CellsOf(m, p), now)
    ensures CellsOf(Incr(m, p.Counter(), now), p) == RateLane.Bump(CellsOf(m, p), now)
    ensures CellsOf(SetExpiry(m, p.Counter(), now, seconds), p) == RateLane.SetExpiry(CellsOf(m, p), now, seconds)
    ensures CellsOf(SetBlock(m, p.Block(), now, seconds), p) == RateLane.SetBlock(CellsOf(m, p), now, seconds)
  {
    BlockIsACounter(p);
  }

  /** Commands on other cells the pair does not see. */
  lemma ForeignCommands(m: Keyspace, p: Pair, name: string, now: int, seconds: int, cell: Cell)
    requires name != p.Counter() && name != p.Block()
    ensures CellsOf(Incr(m, name, now), p) == CellsOf(m, p)
    ensures CellsOf(SetExpiry(m, name, now, seconds), p) == CellsOf(m, p)
    ensures CellsOf(SetBlock(m, name, now, seconds), p) == CellsOf(m, p)
    ensures CellsOf(m - {name}, p) == CellsOf(m, p) && CellsOf(m[name := cell], p) == CellsOf(m, p)
  {
  }

  lemma {:induction false} LogGrows(log: seq<Admission>, a: Admission, p: Pair)
    ensures LogOf(log + [a], p) == LogOf(log, p) + if a.pair == p then [a] else []
  {
    assert (log + [a])[..|log|] == log;
  }

  lemma {:induction false} OneLaneStep(cfg: Config, l: RateLane.System, e: RateLane.Event)
    requires RateLane.Consistent(cfg, l) && RateLane.Enabled(l, e)
    ensures RateLane.Legal(cfg, l, [e]) && RateLane.After(cfg, l, [e]) == RateLane.Do(cfg, l, e)
    ensures RateLane.Consistent(cfg, RateLane.Do(cfg, l, e))
  {
    assert [e][1..] == [] && RateLane.Legal(cfg, RateLane.Do(cfg, l, e), []);
    RateLane.EventKeeps(cfg, l, e);
  }

  lemma {:induction false} CallMoves(calls: map<nat, Call>, p: Pair, c: nat, call: Call)
    ensures CallsOf(calls[c := call], p) == if call.pair == p then CallsOf(calls, p)[c := call.phase]
      else CallsOf(calls, p) - {c}
    ensures CallsOf(calls - {c}, p) == CallsOf(calls, p) - {c}
    ensures c in CallsOf(calls, p) <==> c in calls && calls[c].pair == p
    ensures c !in CallsOf(calls, p) ==> CallsOf(calls, p) - {c} == CallsOf(calls, p)
  {
  }

  lemma StepKeepsApart(s: System, p: Pair, cfg: Config, e: Event)
    requires CallsApart(s.calls, p, cfg) && Enabled(s, e) && Apart(e, p, cfg)
    ensures CallsApart(Do(s, e).calls, p, cfg)
  {
  }

  lemma ForeignCount(s: System, l: RateLane.System, p: Pair, c: nat)
    requires Sees(s, l, p) && c in s.calls && s.calls[c].phase.Passed? && s.calls[c].pair != p
    requires !SharesCells(p, s.calls[c].pair)
    ensures Sees(Counted(s, c), l, p)
  {
    var call := s.calls[c];
    ForeignCommands(s.store, p, call.pair.Counter(), s.now, 0, Cell(0, None));
    LogGrows(s.log, Admission(call.pair, c, call.phase.started, s.now), p);
    CallMoves(s.calls, p, c, call.(phase := RateLane.MustBlock));
    CallMoves(s.calls, p, c, call.(phase := RateLane.MustExpire(true)));
    CallMoves(s.calls, p, c, call.(phase := RateLane.MustExpire(false)));
  }

  lemma ForeignExpire(s: System, l: RateLane.System, p: Pair, c: nat)
    requires Sees(s, l, p) && c in s.calls && s.calls[c].phase.MustExpire? && s.calls[c].pair != p
    requires !SharesCells(p, s.calls[c].pair)
    ensures Sees(Expired(s, c), l, p)
  {
    var call := s.calls[c];
    ForeignCommands(s.store, p, call.pair.Counter(), s.now, call.cfg.window, Cell(0, None));
    CallMoves(s.calls, p, c, call.(phase := RateLane.MustBlock));
  }

  /** A step of another pair, or of nobody's call, does not show. */
  lemma ForeignStep(s: System, l: RateLane.System, p: Pair, cfg: Config, e: Event)
    requires Sees(s, l, p) && CallsApart(s.calls, p, cfg) && Enabled(s, e) && Apart(e, p, cfg) && LaneOf(s, e, p) == []
    ensures Sees(Do(s, e), l, p)
  {
    match e
    case Start(c, q, other) => CallMoves(s.calls, p, c, Call(q, other, RateLane.Passed(s.now)));
    case Count(c) => ForeignCount(s, l, p, c);
    case Expire(c) => ForeignExpire(s, l, p, c);
    case Block(c) =>
      ForeignCommands(s.store, p, s.calls[c].pair.Block(), s.now, s.calls[c].cfg.block, Cell(0, None));
      CallMoves(s.calls, p, c, s.calls[c]);
    case Lose(c) => CallMoves(s.calls, p, c, s.calls[c]);
    case Write(name, cell) =>
      ForeignCommands(s.store, p, name, s.now, 0, if cell.None? then Cell(0, None) else cell.value);
  }

  lemma OwnCount(s: System, l: RateLane.System, p: Pair, cfg: Config, c: nat)
    requires Sees(s, l, p) && RateLane.LivesApart(cfg, l)
    requires c in s.calls && s.calls[c].phase.Passed? && s.calls[c].pair == p && s.calls[c].cfg == cfg
    requires c in l.calls && l.calls[c] == s.calls[c].phase
    ensures Sees(Counted(s, c), RateLane.Counted(cfg, l, c), p)
  {
    var call := s.calls[c];
    OwnCommands(s.store, p, s.now, 0);
    LogGrows(s.log, Admission(p, c, call.phase.started, s.now), p);
    CallMoves(s.calls, p, c, call.(phase := RateLane.MustBlock));
    CallMoves(s.calls, p, c, call.(phase := RateLane.MustExpire(true)));
    CallMoves(s.calls, p, c, call.(phase := RateLane.MustExpire(false)));
  }

  lemma OwnExpire(s: System, l: RateLane.System, p: Pair, cfg: Config, c: nat)
    requires Sees(s, l, p)
    requires c in s.calls && s.calls[c].phase.MustExpire? && s.calls[c].pair == p && s.calls[c].cfg == cfg
    requires c in l.calls && l.calls[c] == s.calls[c].phase
    ensures Sees(Expired(s, c), RateLane.Do(cfg, l, RateLane.Expire(c)), p)
  {
    OwnCommands(s.store, p, s.now, cfg.window);
    CallMoves(s.calls, p, c, s.calls[c].(phase := RateLane.MustBlock));
  }

  /** A step of the pair's own is one of its machine. */
  lemma OwnStep(s: System, l: RateLane.System, p: Pair, cfg: Config, e: Event, own: RateLane.Event)
    requires Sees(s, l, p) && CallsApart(s.calls, p, cfg) && RateLane.LivesApart(cfg, l)
    requires Enabled(s, e) && Apart(e, p, cfg) && LaneOf(s, e, p) == [own]
    ensures RateLane.Enabled(l, own) && Sees(Do(s, e), RateLane.Do(cfg, l, own), p)
  {
    match e
    case Start(c, q, other) =>
      OwnCommands(s.store, p, s.now, 0);
      CallMoves(s.calls, p, c, Call(q, other, RateLane.Passed(s.now)));
    case Count(c) => OwnCount(s, l, p, cfg, c);
    case Expire(c) => OwnExpire(s, l, p, cfg, c);
    case Block(c) =>
      OwnCommands(s.store, p, s.now, cfg.block);
      CallMoves(s.calls, p, c, s.calls[c]);
    case Lose(c) => CallMoves(s.calls, p, c, s.calls[c]);
    case Pass(seconds) =>
  }

  lemma {:induction false} StepShows(s: System, l: RateLane.System, p: Pair, cfg: Config, e: Event)
    requires Shows(s, l, p, cfg) && Enabled(s, e) && Apart(e, p, cfg)
    ensures RateLane.Legal(cfg, l, LaneOf(s, e, p))
    ensures Shows(Do(s, e), RateLane.After(cfg, l, LaneOf(s, e, p)), p, cfg)
  {
    StepKeepsApart(s, p, cfg, e);
    if LaneOf(s, e, p) == [] {
      ForeignStep(s, l, p, cfg, e);
    } else {
      var own := LaneOf(s, e, p)[0];
      assert LaneOf(s, e, p) == [own];
      OwnStep(s, l, p, cfg, e, own);
      OneLaneStep(cfg, l, own);
    }
  }

  lemma {:induction false} LaneAppend(cfg: Config, l: RateLane.System, xs: seq<RateLane.Event>, ys: seq<RateLane.Event>)
    requires |xs| <= 1 && RateLane.Legal(cfg, l, xs) && RateLane.Legal(cfg, RateLane.After(cfg, l, xs), ys)
    ensures RateLane.Legal(cfg, l, xs + ys)
    ensures RateLane.After(cfg, l, xs + ys) == RateLane.After(cfg, RateLane.After(cfg, l, xs), ys)
  {
    if |xs| == 0 {
      assert xs + ys == ys;
    } else {
      var l1 := RateLane.Do(cfg, l, xs[0]);
      assert RateLane.After(cfg, l1, xs[1..]) == l1;
      assert (xs + ys)[0] == xs[0] && (xs + ys)[1..] == ys;
    }
  }

  lemma {:induction false} LaneRunUnfolds(s: System, l: RateLane.System, p: Pair, cfg: Config, es: seq<Event>)
    requires |es| > 0 && Legal(s, es)
    requires RateLane.Legal(cfg, l, LaneOf(s, es[0], p))
    requires var l1 := RateLane.After(cfg, l, LaneOf(s, es[0], p));
      RateLane.Legal(cfg, l1, LaneRun(Do(s, es[0]), es[1..], p))
    ensures RateLane.Legal(cfg, l, LaneRun(s, es, p))
    ensures var l1 := RateLane.After(cfg, l, LaneOf(s, es[0], p));
      RateLane.After(cfg, l, LaneRun(s, es, p)) == RateLane.After(cfg, l1, LaneRun(Do(s, es[0]), es[1..], p))
  {
    LaneAppend(cfg, l, LaneOf(s, es[0], p), LaneRun(Do(s, es[0]), es[1..], p));
  }

  /** As long as everything else keeps apart, what the pair sees is a run of its own machine. */
  lemma {:induction false} RunShows(s: System, l: RateLane.System, p: Pair, cfg: Config, es: seq<Event>)
    returns (l': RateLane.System)
    requires Shows(s, l, p, cfg) && Legal(s, es) && AllApart(es, p, cfg)
    ensures RateLane.Legal(cfg, l, LaneRun(s, es, p)) && l' == RateLane.After(cfg, l, LaneRun(s, es, p))
    ensures Shows(After(s, es), l', p, cfg)
    decreases |es|
  {
    if |es| == 0 {
      l' := l;
    } else {
      StepShows(s, l, p, cfg, es[0]);
      l' := RunShows(Do(s, es[0]), RateLane.After(cfg, l, LaneOf(s, es[0], p)), p, cfg, es[1..]);
      LaneRunUnfolds(s, l, p, cfg, es);
    }
  }

  lemma FreshShows(now: int, p: Pair, cfg: Config)
    ensures Shows(Fresh(now), RateLane.Fresh(now), p, cfg)
  {
    RateLane.FreshIsConsistent(cfg, now);
  }

  lemma {:induction false} ReachableShows(now: int, es: seq<Event>, p: Pair, cfg: Config) returns (l: RateLane.System)
    requires Legal(Fresh(now), es) && AllApart(es, p, cfg)
    ensures Shows(After(Fresh(now), es), l, p, cfg)
  {
    FreshShows(now, p, cfg);
    l := RunShows(Fresh(now), RateLane.Fresh(now), p, cfg, es);
  }

  // ----- admissions -----

  /** Admissions decided in the half-open interval from `a` to `b`. */
  function AdmittedIn(log: seq<Admission>, a: int, b: int): nat {
    if |log| == 0 then 0 else AdmittedIn(log[..|log| - 1], a, b) + if a <= log[|log| - 1].at < b then 1 else 0
  }

  /** Admissions from position `from` on of calls that started before `until`. */
  function Late(log: seq<Admission>, from: nat, until: int): nat {
    if |log| <= from then 0
    else Late(log[..|log| - 1], from, until) + if log[|log| - 1].started < until then 1 else 0
  }

  lemma {:induction false} SameCounts(mine: seq<Admission>, lane: seq<RateLane.Admission>, a: int, b: int, from: nat)
    requires SameLog(mine, lane)
    ensures AdmittedIn(mine, a, b) == RateLane.AdmittedIn(lane, a, b)
    ensures Late(mine, from, b) == RateLane.Late(lane, from, b)
  {
    if |mine| > 0 {
      var n := |mine| - 1;
      assert SameAdmission(mine[n], lane[n]);
      assert SameLog(mine[..n], lane[..n]);
      SameCounts(mine[..n], lane[..n], a, b, from);
    }
  }

  /** The calls of the pair that have passed the check for a block. */
  function Passed(s: System, p: Pair): set<nat> {
    set c | c in s.calls && s.calls[c].pair == p && s.calls[c].phase.Passed?
  }

  /**
   * Once a block stands, no call that starts before its end is ever admitted, whatever else runs apart
   * from the pair: each admission of such a call is of one that had passed the check before the block,
   * and there are no more of those admissions than such calls.
   */
  lemma {:induction false} NobodyEntersABlock(now: int, before: seq<Event>, es: seq<Event>, p: Pair, cfg: Config)
    requires Legal(Fresh(now), before) && AllApart(before, p, cfg)
    requires TimeLeft(After(Fresh(now), before).store, p.Block(), After(Fresh(now), before).now) > 0
    requires Legal(After(Fresh(now), before), es) && AllApart(es, p, cfg)
    ensures var s := After(Fresh(now), before);
      var until, was, log := s.store[p.Block()].expires.value, LogOf(s.log, p), LogOf(After(s, es).log, p);
      && |was| <= |log|
      && (forall i :: |was| <= i < |log| && log[i].started < until ==>
            log[i].id in Passed(s, p) && s.calls[log[i].id].phase.started == log[i].started)
      && Late(log, |was|, until) <= |Passed(s, p)|
  {
    var l := ReachableShows(now, before, p, cfg);
    BlockHolds(After(Fresh(now), before), l, p, cfg, es);
  }

  lemma {:induction false} BlockHolds(s: System, l: RateLane.System, p: Pair, cfg: Config, es: seq<Event>)
    requires Shows(s, l, p, cfg) && TimeLeft(s.store, p.Block(), s.now) > 0
    requires Legal(s, es) && AllApart(es, p, cfg)
    ensures var until, was, log := s.store[p.Block()].expires.value, LogOf(s.log, p), LogOf(After(s, es).log, p);
      && |was| <= |log|
      && (forall i :: |was| <= i < |log| && log[i].started < until ==>
            log[i].id in Passed(s, p) && s.calls[log[i].id].phase.started == log[i].started)
      && Late(log, |was|, until) <= |Passed(s, p)|
  {
    var until, log := s.store[p.Block()].expires.value, LogOf(After(s, es).log, p);
    var l' := RunShows(s, l, p, cfg, es);
    RateLane.NobodyEntersABlock(cfg, l, LaneRun(s, es, p));
    SameCounts(log, l'.log, 0, until, |LogOf(s.log, p)|);
    forall i | |LogOf(s.log, p)| <= i < |log| && log[i].started < until
      ensures log[i].id in Passed(s, p) && s.calls[log[i].id].phase.started == log[i].started
    {
      assert SameAdmission(log[i], l'.log[i]);
      assert RateLane.HadPassed(l, l'.log[i].id, l'.log[i].started);
    }
    RateLane.FewerWait(RateLane.Waiting(l, until), Passed(s, p));
  }
}
