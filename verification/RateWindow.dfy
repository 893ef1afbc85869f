/**
 * The bound on the admissions of one window, and exactly which other pairs break it. It concerns the
 * counter alone: what becomes of the block of a pair does not matter to it.
 */
module RateWindow {
  import opened Base
  import RateLane
  import opened RateKeys
  import opened RateLimiter
  import opened RateFailures

  /** A caller of `q` works on the counter of `p`. */
  predicate TouchesCounter(q: Pair, p: Pair) {
    q.Counter() == p.Counter() || q.Block() == p.Counter()
  }

  /** The event leaves the pair's counter to its own calls, which have the one configuration. */
  predicate SparesCounter(e: Event, p: Pair, cfg: Config) {
    match e
    case Start(_, q, other) => if q == p then other == cfg else !TouchesCounter(q, p)
    case Write(name, _) => name != p.Counter()
    case _ => true
  }

  predicate AllSpareCounter(es: seq<Event>, p: Pair, cfg: Config) {
    |es| == 0 || (SparesCounter(es[0], p, cfg) && AllSpareCounter(es[1..], p, cfg))
  }

  predicate CallsSpareCounter(calls: map<nat, Call>, p: Pair, cfg: Config) {
    forall c :: c in calls ==> if calls[c].pair == p then calls[c].cfg == cfg else !TouchesCounter(calls[c].pair, p)
  }

  /** The pair's cells without the block. */
  function CounterOf(m: Keyspace, p: Pair): RateLane.Cells {
    CellsOf(m, p).(block := None)
  }

  /** `l` is a lane in which nobody is ever blocked, and counts as the pair does. */
  predicate Counts(s: System, l: RateLane.System, p: Pair) {
    && l.cells == CounterOf(s.store, p) && l.now == s.now && l.calls == CallsOf(s.calls, p)
    && SameLog(LogOf(s.log, p), l.log)
  }

  ghost predicate CountsTrue(s: System, l: RateLane.System, p: Pair, cfg: Config) {
    Counts(s, l, p) && CallsSpareCounter(s.calls, p, cfg) && RateLane.Consistent(cfg, l)
  }

  lemma {:induction false} OwnCounter(m: Keyspace, p: Pair, now: int, seconds: int)
    ensures CounterOf(Incr(m, p.Counter(), now), p) == RateLane.Bump(CounterOf(m, p), now)
    ensures CounterOf(SetExpiry(m, p.Counter(), now, seconds), p) == RateLane.SetExpiry(CounterOf(m, p), now, seconds)
    ensures CounterOf(SetBlock(m, p.Block(), now, seconds), p) == CounterOf(m, p)
    ensures Lives(m, p.Counter(), now) <==> RateLane.CounterLives(CounterOf(m, p), now)
  {
    BlockIsACounter(p);
  }

  lemma ForeignCell(m: Keyspace, p: Pair, name: string, now: int, seconds: int, cell: Cell)
    requires name != p.Counter()
    ensures CounterOf(Incr(m, name, now), p) == CounterOf(m, p)
    ensures CounterOf(SetExpiry(m, name, now, seconds), p) == CounterOf(m, p)
    ensures CounterOf(SetBlock(m, name, now, seconds), p) == CounterOf(m, p)
    ensures CounterOf(m - {name}, p) == CounterOf(m, p) && CounterOf(m[name := cell], p) == CounterOf(m, p)
  {
  }

  lemma StepSparesCounter(s: System, p: Pair, cfg: Config, e: Event)
    requires CallsSpareCounter(s.calls, p, cfg) && Enabled(s, e) && SparesCounter(e, p, cfg)
    ensures CallsSpareCounter(Do(s, e).calls, p, cfg)
  {
  }

  // ----- steps of others -----

  lemma ForeignCount(s: System, l: RateLane.System, p: Pair, c: nat)
    requires Counts(s, l, p) && c in s.calls && s.calls[c].phase.Passed?
    requires s.calls[c].pair != p && !TouchesCounter(s.calls[c].pair, p)
    ensures Counts(Counted(s, c), l, p)
  {
    var call := s.calls[c];
    ForeignCell(s.store, p, call.pair.Counter(), s.now, 0, Cell(0, None));
    LogGrows(s.log, Admission(call.pair, c, call.phase.started, s.now), p);
    CallMoves(s.calls, p, c, call.(phase := RateLane.MustBlock));
    CallMoves(s.calls, p, c, call.(phase := RateLane.MustExpire(true)));
    CallMoves(s.calls, p, c, call.(phase := RateLane.MustExpire(false)));
  }

  lemma ForeignExpire(s: System, l: RateLane.System, p: Pair, c: nat)
    requires Counts(s, l, p) && c in s.calls && s.calls[c].phase.MustExpire?
    requires s.calls[c].pair != p && !TouchesCounter(s.calls[c].pair, p)
    ensures Counts(Expired(s, c), l, p)
  {
    var call := s.calls[c];
    ForeignCell(s.store, p, call.pair.Counter(), s.now, call.cfg.window, Cell(0, None));
    CallMoves(s.calls, p, c, call.(phase := RateLane.MustBlock));
  }

  /** The event is somebody else's, or a call that is turned away. */
  predicate Unseen(s: System, e: Event, p: Pair)
    requires Enabled(s, e)
  {
    match e
    case Start(_, q, _) => q != p || TimeLeft(s.store, p.Block(), s.now) > 0
    case Pass(_) => false
    case Write(_, _) => true
    case _ => s.calls[e.c].pair != p
  }

  lemma UnseenStep(s: System, l: RateLane.System, p: Pair, cfg: Config, e: Event)
    requires Counts(s, l, p) && CallsSpareCounter(s.calls, p, cfg) && Enabled(s, e) && SparesCounter(e, p, cfg)
    requires Unseen(s, e, p)
    ensures Counts(Do(s, e), l, p)
  {
    match e
    case Start(c, q, other) => CallMoves(s.calls, p, c, Call(q, other, RateLane.Passed(s.now)));
    case Count(c) => ForeignCount(s, l, p, c);
    case Expire(c) => ForeignExpire(s, l, p, c);
    case Block(c) =>
      ForeignCell(s.store, p, s.calls[c].pair.Block(), s.now, s.calls[c].cfg.block, Cell(0, None));
      CallMoves(s.calls, p, c, s.calls[c]);
    case Lose(c) => CallMoves(s.calls, p, c, s.calls[c]);
    case Write(name, cell) => ForeignCell(s.store, p, name, s.now, 0, if cell.None? then Cell(0, None) else cell.value);
  }

  // ----- steps of the pair -----

  /** What the lane does: a block is nothing to it, so a call that has to block just ends. */
  function Own(e: Event): RateLane.Event
    requires !e.Write?
  {
    match e
    case Start(c, _, _) => RateLane.Start(c)
    case Count(c) => RateLane.Count(c)
    case Expire(c) => RateLane.Expire(c)
    case Block(c) => RateLane.Lose(c)
    case Lose(c) => RateLane.Lose(c)
    case Pass(seconds) => RateLane.Pass(seconds)
  }

  lemma OwnCount(s: System, l: RateLane.System, p: Pair, cfg: Config, c: nat)
    requires Counts(s, l, p) && RateLane.LivesApart(cfg, l)
    requires c in s.calls && s.calls[c].phase.Passed? && s.calls[c].pair == p && s.calls[c].cfg == cfg
    requires c in l.calls && l.calls[c] == s.calls[c].phase
    ensures Counts(Counted(s, c), RateLane.Counted(cfg, l, c), p)
  {
    var call := s.calls[c];
    OwnCounter(s.store, p, s.now, 0);
    LogGrows(s.log, Admission(p, c, call.phase.started, s.now), p);
    CallMoves(s.calls, p, c, call.(phase := RateLane.MustBlock));
    CallMoves(s.calls, p, c, call.(phase := RateLane.MustExpire(true)));
    CallMoves(s.calls, p, c, call.(phase := RateLane.MustExpire(false)));
  }

  lemma OwnExpire(s: System, l: RateLane.System, p: Pair, cfg: Config, c: nat)
    requires Counts(s, l, p)
    requires c in s.calls && s.calls[c].phase.MustExpire? && s.calls[c].pair == p && s.calls[c].cfg == cfg
    requires c in l.calls && l.calls[c] == s.calls[c].phase
    ensures Counts(Expired(s, c), RateLane.Do(cfg, l, RateLane.Expire(c)), p)
  {
    OwnCounter(s.store, p, s.now, cfg.window);
    CallMoves(s.calls, p, c, s.calls[c].(phase := RateLane.MustBlock));
  }

  lemma OwnStep(s: System, l: RateLane.System, p: Pair, cfg: Config, e: Event)
    requires Counts(s, l, p) && CallsSpareCounter(s.calls, p, cfg) && RateLane.LivesApart(cfg, l)
    requires Enabled(s, e) && SparesCounter(e, p, cfg) && !Unseen(s, e, p)
    ensures RateLane.Enabled(l, Own(e)) && Counts(Do(s, e), RateLane.Do(cfg, l, Own(e)), p)
  {
    match e
    case Start(c, q, other) => CallMoves(s.calls, p, c, Call(q, other, RateLane.Passed(s.now)));
    case Count(c) => OwnCount(s, l, p, cfg, c);
    case Expire(c) => OwnExpire(s, l, p, cfg, c);
    case Block(c) =>
      OwnCounter(s.store, p, s.now, cfg.block);
      CallMoves(s.calls, p, c, s.calls[c]);
    case Lose(c) => CallMoves(s.calls, p, c, s.calls[c]);
    case Pass(seconds) =>
  }

  lemma StepCounts(s: System, l: RateLane.System, p: Pair, cfg: Config, e: Event) returns (l': RateLane.System)
    requires CountsTrue(s, l, p, cfg) && Enabled(s, e) && SparesCounter(e, p, cfg)
    ensures CountsTrue(Do(s, e), l', p, cfg)
  {
    StepSparesCounter(s, p, cfg, e);
    if Unseen(s, e, p) {
      UnseenStep(s, l, p, cfg, e);
      l' := l;
    } else {
      OwnStep(s, l, p, cfg, e);
      RateLane.EventKeeps(cfg, l, Own(e));
      l' := RateLane.Do(cfg, l, Own(e));
    }
  }

  lemma {:induction false} RunCounts(s: System, l: RateLane.System, p: Pair, cfg: Config, es: seq<Event>)
    returns (l': RateLane.System)
    requires CountsTrue(s, l, p, cfg) && Legal(s, es) && AllSpareCounter(es, p, cfg)
    ensures CountsTrue(After(s, es), l', p, cfg)
    decreases |es|
  {
    if |es| == 0 {
      l' := l;
    } else {
      var l1 := StepCounts(s, l, p, cfg, es[0]);
      l' := RunCounts(Do(s, es[0]), l1, p, cfg, es[1..]);
    }
  }

  // ----- the bound -----

  /** The pair's admissions in the window from `a` on are at most twice the limit. */
  predicate Bounded(s: System, p: Pair, cfg: Config, a: int) {
    AdmittedIn(LogOf(s.log, p), a, a + cfg.window) <= 2 * RateLane.Max0(cfg.limit)
  }

  /**
   * In any run in which nobody else works on the pair's counter, any half-open interval of one window's
   * length sees at most twice the limit of its admissions, whatever becomes of its block.
   */
  lemma {:induction false} WindowAdmitsAtMostTwiceTheLimit(now: int, es: seq<Event>, p: Pair, cfg: Config, a: int)
    requires Legal(Fresh(now), es) && AllSpareCounter(es, p, cfg)
    ensures Bounded(After(Fresh(now), es), p, cfg, a)
  {
    RateLane.FreshIsConsistent(cfg, now);
    var l := RunCounts(Fresh(now), RateLane.Fresh(now), p, cfg, es);
    WindowHolds(After(Fresh(now), es), l, p, cfg, a);
  }

  lemma WindowHolds(s: System, l: RateLane.System, p: Pair, cfg: Config, a: int)
    requires CountsTrue(s, l, p, cfg)
    ensures Bounded(s, p, cfg, a)
  {
    SameCounts(LogOf(s.log, p), l.log, a, a + cfg.window, 0);
    RateLane.WindowBound(cfg, l, a);
  }

  /** Every run of calls of `p`, under whatever one configuration, and of `q`, under any, keeps the bound for `p`. */
  ghost predicate KeepsTheBound(q: Pair, p: Pair) {
    forall now: int, es: seq<Event>, cfg: Config, a: int |
      Legal(Fresh(now), es) && Between(es, p, q, cfg) :: Bounded(After(Fresh(now), es), p, cfg, a)
  }

  lemma {:induction false} SparedByBoth(es: seq<Event>, q: Pair, p: Pair, cfg: Config)
    requires Between(es, p, q, cfg) && (q == p || !TouchesCounter(q, p))
    ensures AllSpareCounter(es, p, cfg)
  {
    if |es| > 0 {
      assert Between(es[1..], p, q, cfg);
      SparedByBoth(es[1..], q, p, cfg);
    }
  }

  /**
   * The other pair leaves the bound alone exactly when neither its counter nor its block is the pair's
   * counter, or it is the pair itself.
   */
  lemma {:induction false} BoundIsKeptExactly(q: Pair, p: Pair)
    ensures KeepsTheBound(q, p) <==> q == p || (q.Counter() != p.Counter() && q.Block() != p.Counter())
  {
    if q == p || !TouchesCounter(q, p) {
      BlockIsACounter(p);
      forall now: int, es: seq<Event>, cfg: Config, a: int |
        Legal(Fresh(now), es) && Between(es, p, q, cfg)
        ensures Bounded(After(Fresh(now), es), p, cfg, a)
      {
        SparedByBoth(es, q, p, cfg);
        WindowAdmitsAtMostTwiceTheLimit(now, es, p, cfg, a);
      }
    } else if q.Block() == p.Counter() {
      var es := ForeignBlockPassesTheBound(0, q, p);
      assert !Bounded(After(Fresh(0), es), p, RateLane.Config(1, 100, 100), 0);
    } else {
      var es := ForeignCounterPassesTheBound(0, q, p);
      assert !Bounded(After(Fresh(0), es), p, RateLane.Config(2, 100, 100), 0);
    }
  }

  /** The condition in terms of namespaces and keys. */
  lemma WhoTouchesTheCounter(q: Pair, p: Pair)
    ensures TouchesCounter(q, p) <==> Collide(q, p) || Collide(Blocking(q), p)
  {
    BlockIsACounter(q);
    CountersCollideExactly(q, p);
    CountersCollideExactly(Blocking(q), p);
  }

  /** So in terms of namespaces and keys: the bound is kept exactly under these. */
  lemma {:induction false} BoundIsKeptExactlyByName(q: Pair, p: Pair)
    ensures KeepsTheBound(q, p) <==> q == p || !(Slides(q, p) || Slides(p, q) || Collide(Blocking(q), p))
  {
    BoundIsKeptExactly(q, p);
    WhoTouchesTheCounter(q, p);
  }
}
