/**
 * Exactly when a block that stands can still see an admission before its end: some call has passed
 * the check already, and the counter has room, or is gone, or can be gone in time.
 */
module RateBlocks {
  import opened Base
  import RateLane
  import opened RateKeys
  import opened RateLimiter
  import opened RateFailures

  type Lane = RateLane.System

  /** The counter admits now, or its life can end before `until`. */
  predicate GivesWay(cfg: Config, l: Lane, until: int) {
    || !RateLane.CounterLives(l.cells, l.now)
    || l.cells.counter.value.count < cfg.limit
    || (l.cells.counter.value.expires.Some? && l.cells.counter.value.expires.value < until)
    || (exists d :: d in l.calls && l.calls[d].MustExpire? && l.now + RateLane.Max0(cfg.window) < until)
  }

  predicate CanAdmit(cfg: Config, l: Lane, until: int) {
    1 <= cfg.limit && (exists c :: c in l.calls && l.calls[c].Passed?) && GivesWay(cfg, l, until)
  }

  /** Before `until` the block stands, and nothing can be admitted. */
  predicate Barred(cfg: Config, l: Lane, until: int) {
    && until <= l.now + cfg.block
    && (l.now < until ==> l.cells.block.Some? && until <= l.cells.block.value && !CanAdmit(cfg, l, until))
  }

  lemma CountStaysBarred(cfg: Config, l: Lane, c: nat, until: int)
    requires RateLane.LivesApart(cfg, l) && Barred(cfg, l, until) && c in l.calls && l.calls[c].Passed?
    ensures Barred(cfg, RateLane.Counted(cfg, l, c), until)
    ensures l.now < until ==> RateLane.Counted(cfg, l, c).log == l.log
  {
    var l' := RateLane.Counted(cfg, l, c);
    if l.now < until && 1 <= cfg.limit {
      assert l.cells.counter.value.count >= cfg.limit;
      assert forall d :: d in l'.calls && l'.calls[d].MustExpire? ==> d in l.calls && l.calls[d].MustExpire?;
    }
  }

  lemma ExpireStaysBarred(cfg: Config, l: Lane, c: nat, until: int)
    requires RateLane.LivesApart(cfg, l) && Barred(cfg, l, until) && c in l.calls && l.calls[c].MustExpire?
    ensures Barred(cfg, RateLane.Do(cfg, l, RateLane.Expire(c)), until)
  {
    var l' := RateLane.Do(cfg, l, RateLane.Expire(c));
    assert forall d :: d in l'.calls && !l'.calls[d].MustBlock? ==> d in l.calls && l.calls[d] == l'.calls[d];
  }

  lemma EventStaysBarred(cfg: Config, l: Lane, e: RateLane.Event, until: int)
    requires RateLane.LivesApart(cfg, l) && Barred(cfg, l, until) && RateLane.Enabled(l, e)
    ensures Barred(cfg, RateLane.Do(cfg, l, e), until)
    ensures l.now < until ==> RateLane.Do(cfg, l, e).log == l.log
  {
    match e
    case Start(c) =>
    case Count(c) => CountStaysBarred(cfg, l, c, until);
    case Expire(c) => ExpireStaysBarred(cfg, l, c, until);
    case Block(c) => OtherStaysBarred(cfg, l, e, until);
    case Lose(c) => OtherStaysBarred(cfg, l, e, until);
    case Pass(seconds) => OtherStaysBarred(cfg, l, e, until);
  }

  lemma OtherStaysBarred(cfg: Config, l: Lane, e: RateLane.Event, until: int)
    requires RateLane.LivesApart(cfg, l) && Barred(cfg, l, until) && RateLane.Enabled(l, e)
    requires e.Block? || e.Lose? || e.Pass?
    ensures Barred(cfg, RateLane.Do(cfg, l, e), until)
  {
    var l' := RateLane.Do(cfg, l, e);
    assert forall d :: d in l'.calls ==> d in l.calls && l.calls[d] == l'.calls[d];
  }

  /** What is added to the log of a barred lane is decided at `until` or later. */
  lemma {:induction false} RunStaysBarred(cfg: Config, l: Lane, es: seq<RateLane.Event>, until: int)
    requires RateLane.Consistent(cfg, l) && Barred(cfg, l, until) && RateLane.Legal(cfg, l, es)
    ensures var l' := RateLane.After(cfg, l, es);
      l.log <= l'.log && forall i :: |l.log| <= i < |l'.log| ==> until <= l'.log[i].at
    decreases |es|
  {
    if |es| != 0 {
      var l1 := RateLane.Do(cfg, l, es[0]);
      EventStaysBarred(cfg, l, es[0], until);
      RateLane.EventKeeps(cfg, l, es[0]);
      RunStaysBarred(cfg, l1, es[1..], until);
      OneAdmissionAtOnce(cfg, l, es[0]);
    }
  }

  lemma OneAdmissionAtOnce(cfg: Config, l: Lane, e: RateLane.Event)
    requires RateLane.Enabled(l, e)
    ensures var l1 := RateLane.Do(cfg, l, e);
      l.log <= l1.log && forall i :: |l.log| <= i < |l1.log| ==> l1.log[i].at == l.now
  {
  }

  // ----- over the store -----

  /** Under these events one more call of the pair is admitted before `until`. */
  predicate AdmitsBefore(s: System, es: seq<Event>, p: Pair, until: int)
    requires Legal(s, es)
  {
    var was, log := LogOf(s.log, p), LogOf(After(s, es).log, p);
    |was| < |log| && exists i :: |was| <= i < |log| && log[i].at < until
  }

  /**
   * Some call of the pair has passed the check, and its counter is gone, has room, expires in time, or
   * still gets an expiry that comes in time.
   */
  predicate MayStillAdmit(s: System, p: Pair, cfg: Config, until: int) {
    && 1 <= cfg.limit && (exists c :: c in Passed(s, p))
    && (|| !Lives(s.store, p.Counter(), s.now)
        || s.store[p.Counter()].value < cfg.limit
        || (s.store[p.Counter()].expires.Some? && s.store[p.Counter()].expires.value < until)
        || (exists d :: d in s.calls && s.calls[d].pair == p && s.calls[d].phase.MustExpire?
                        && s.now + RateLane.Max0(cfg.window) < until))
  }

  lemma LaneAgrees(s: System, l: Lane, p: Pair, cfg: Config, until: int)
    requires Sees(s, l, p)
    ensures MayStillAdmit(s, p, cfg, until) <==> CanAdmit(cfg, l, until)
  {
    OwnCommands(s.store, p, s.now, 0);
    if MayStillAdmit(s, p, cfg, until) {
      var c :| c in Passed(s, p);
      assert c in l.calls;
      if d :| d in s.calls && s.calls[d].pair == p && s.calls[d].phase.MustExpire? { assert d in l.calls; }
    }
    if CanAdmit(cfg, l, until) {
      var c :| c in l.calls && l.calls[c].Passed?;
      assert c in Passed(s, p);
    }
  }

  /** A waiting call that finds room is admitted. */
  lemma {:induction false} CountAdmits(s: System, es: seq<Event>, p: Pair, cfg: Config, c: nat, until: int)
    returns (more: seq<Event>)
    requires Legal(s, es) && LogOf(After(s, es).log, p) == LogOf(s.log, p) && After(s, es).now < until
    requires c in Passed(After(s, es), p) && After(s, es).calls[c].cfg == cfg && 1 <= cfg.limit
    requires var now := After(s, es);
      Lives(now.store, p.Counter(), now.now) ==> now.store[p.Counter()].value < cfg.limit
    ensures more == es + [Count(c)] && Legal(s, more) && AdmitsBefore(s, more, p, until)
  {
    var now := After(s, es);
    more := es + [Count(c)];
    OneMore(s, es, Count(c));
    var a := Admission(p, c, now.calls[c].phase.started, now.now);
    LogGrows(now.log, a, p);
    assert LogOf(After(s, more).log, p)[|LogOf(s.log, p)|] == a;
  }

  lemma {:induction false} ExpiryAdmits(s: System, p: Pair, cfg: Config, c: nat, d: nat, until: int)
    returns (es: seq<Event>)
    requires CallsApart(s.calls, p, cfg) && c in Passed(s, p) && 1 <= cfg.limit
    requires d in s.calls && s.calls[d].pair == p && s.calls[d].phase.MustExpire?
    requires s.now + RateLane.Max0(cfg.window) < until
    ensures Legal(s, es) && AllApart(es, p, cfg) && AdmitsBefore(s, es, p, until)
  {
    var wait := Pass(RateLane.Max0(cfg.window));
    OneMore(s, [], Expire(d));
    OneMore(s, [] + [Expire(d)], wait);
    es := CountAdmits(s, [] + [Expire(d)] + [wait], p, cfg, c, until);
    ApartEverywhere(es, p, cfg);
  }

  /** Where the condition holds, there is a run to show it. */
  lemma {:induction false} SomeRunAdmits(s: System, p: Pair, cfg: Config, until: int) returns (es: seq<Event>)
    requires CallsApart(s.calls, p, cfg) && MayStillAdmit(s, p, cfg, until) && s.now < until
    ensures Legal(s, es) && AllApart(es, p, cfg) && AdmitsBefore(s, es, p, until)
  {
    var c :| c in Passed(s, p);
    if !Lives(s.store, p.Counter(), s.now) || s.store[p.Counter()].value < cfg.limit {
      es := CountAdmits(s, [], p, cfg, c, until);
      ApartEverywhere(es, p, cfg);
    } else if s.store[p.Counter()].expires.Some? && s.store[p.Counter()].expires.value < until {
      var wait := Pass(s.store[p.Counter()].expires.value - s.now);
      OneMore(s, [], wait);
      es := CountAdmits(s, [] + [wait], p, cfg, c, until);
      ApartEverywhere(es, p, cfg);
    } else {
      var d :| d in s.calls && s.calls[d].pair == p && s.calls[d].phase.MustExpire?;
      es := ExpiryAdmits(s, p, cfg, c, d, until);
    }
  }

  /** Where it does not hold, there is none. */
  lemma {:induction false} NoRunAdmits(s: System, l: Lane, p: Pair, cfg: Config, es: seq<Event>)
    requires Shows(s, l, p, cfg) && TimeLeft(s.store, p.Block(), s.now) > 0
    requires var until := s.store[p.Block()].expires.value; !MayStillAdmit(s, p, cfg, until)
    requires Legal(s, es) && AllApart(es, p, cfg)
    ensures !AdmitsBefore(s, es, p, s.store[p.Block()].expires.value)
  {
    var until := s.store[p.Block()].expires.value;
    LaneAgrees(s, l, p, cfg, until);
    var l' := RunShows(s, l, p, cfg, es);
    RunStaysBarred(cfg, l, LaneRun(s, es, p), until);
    var log := LogOf(After(s, es).log, p);
    forall i | |LogOf(s.log, p)| <= i < |log| ensures until <= log[i].at {
      assert SameAdmission(log[i], l'.log[i]);
    }
  }

  /**
   * In every state that the callers of a pair can reach while nobody else touches its cells: a block that
   * stands sees another admission before its end, in some continuation, if and only if a call has passed
   * the check and its counter is gone, has room, or can be gone in time.
   */
  lemma {:induction false} StandingBlockAdmitsExactly(now: int, before: seq<Event>, p: Pair, cfg: Config)
    requires Legal(Fresh(now), before) && AllApart(before, p, cfg)
    requires TimeLeft(After(Fresh(now), before).store, p.Block(), After(Fresh(now), before).now) > 0
    ensures var s := After(Fresh(now), before); var until := s.store[p.Block()].expires.value;
      (exists es :: Legal(s, es) && AllApart(es, p, cfg) && AdmitsBefore(s, es, p, until)) <==>
        MayStillAdmit(s, p, cfg, until)
  {
    var l := ReachableShows(now, before, p, cfg);
    BlockAdmitsExactly(After(Fresh(now), before), l, p, cfg);
  }

  lemma {:induction false} BlockAdmitsExactly(s: System, l: Lane, p: Pair, cfg: Config)
    requires Shows(s, l, p, cfg) && TimeLeft(s.store, p.Block(), s.now) > 0
    ensures var until := s.store[p.Block()].expires.value;
      (exists es :: Legal(s, es) && AllApart(es, p, cfg) && AdmitsBefore(s, es, p, until)) <==>
        MayStillAdmit(s, p, cfg, until)
  {
    var until := s.store[p.Block()].expires.value;
    if MayStillAdmit(s, p, cfg, until) {
      var es := SomeRunAdmits(s, p, cfg, until);
    } else {
      forall es | Legal(s, es) && AllApart(es, p, cfg) ensures !AdmitsBefore(s, es, p, until) {
        NoRunAdmits(s, l, p, cfg, es);
      }
    }
  }
}
