/** Runs in which the rate limiter does what its callers would not expect, step by step. */
module RateFailures {
  import opened Base
  import RateLane
  import opened RateKeys
  import opened RateLimiter

  lemma {:induction false} OneMore(s: System, es: seq<Event>, e: Event)
    requires Legal(s, es) && Enabled(After(s, es), e)
    ensures Legal(s, es + [e]) && After(s, es + [e]) == Do(After(s, es), e)
    decreases |es|
  {
    if |es| == 0 {
      assert es + [e] == [e] && [e][1..] == [];
      assert Legal(Do(s, e), []);
    } else {
      assert (es + [e])[1..] == es[1..] + [e];
      OneMore(Do(s, es[0]), es[1..], e);
    }
  }

  /** Nobody but the two pairs is at work. */
  predicate OnlyCalls(es: seq<Event>, p: Pair, q: Pair) {
    forall i :: 0 <= i < |es| ==> !es[i].Write? && (es[i].Start? ==> es[i].pair == p || es[i].pair == q)
  }

  /** All calls of the pair come with this configuration. */
  predicate AllUse(es: seq<Event>, p: Pair, cfg: Config) {
    forall i :: 0 <= i < |es| && es[i].Start? && es[i].pair == p ==> es[i].cfg == cfg
  }

  /** The events so far are all between the two pairs, and `p` is called with one configuration. */
  predicate Between(es: seq<Event>, p: Pair, q: Pair, cfg: Config) {
    AllUse(es, p, cfg) && OnlyCalls(es, p, q)
  }

  lemma {:induction false} OneMoreBetween(s: System, es: seq<Event>, e: Event, p: Pair, q: Pair, cfg: Config)
    requires Legal(s, es) && Enabled(After(s, es), e) && Between(es, p, q, cfg)
    requires !e.Write? && (e.Start? ==> (e.pair == p && e.cfg == cfg) || (e.pair == q && q != p))
    ensures Legal(s, es + [e]) && After(s, es + [e]) == Do(After(s, es), e) && Between(es + [e], p, q, cfg)
  {
    OneMore(s, es, e);
  }

  lemma {:induction false} ThreeAdmitted(a: Admission, b: Admission, c: Admission, from: int, to: int)
    requires a.pair == b.pair == c.pair && from <= a.at < to && from <= b.at < to && from <= c.at < to
    ensures AdmittedIn(LogOf([a, b, c], a.pair), from, to) == 3
  {
    assert LogOf([a], a.pair) == [a] by { assert [a][..0] == []; }
    assert [a, b][..1] == [a] && [a, b, c][..2] == [a, b];
    assert LogOf([a, b, c], a.pair) == [a, b, c];
    assert AdmittedIn([a], from, to) == 1;
    assert AdmittedIn([a, b], from, to) == 2;
  }

  /** A call that finds neither block nor counter is admitted and starts a window. */
  lemma {:induction false} FirstCall(s: System, es: seq<Event>, p: Pair, q: Pair, cfg: Config, c: nat)
    returns (more: seq<Event>)
    requires Legal(s, es) && c !in After(s, es).calls && 1 <= cfg.limit && 0 < cfg.window
    requires var now := After(s, es);
      TimeLeft(now.store, p.Block(), now.now) <= 0 && !Lives(now.store, p.Counter(), now.now)
    ensures Legal(s, more) && (Between(es, p, q, cfg) ==> Between(more, p, q, cfg))
    ensures var was, now := After(s, es), After(s, more);
      && now.store == was.store[p.Counter() := Cell(1, Some(was.now + cfg.window))] && now.now == was.now
      && now.calls == was.calls && now.log == was.log + [Admission(p, c, was.now, was.now)]
  {
    OneMore(s, es, Start(c, p, cfg));
    var es1 := es + [Start(c, p, cfg)];
    OneMore(s, es1, Count(c));
    OneMore(s, es1 + [Count(c)], Expire(c));
    more := es1 + [Count(c)] + [Expire(c)];
  }

  /**
   * One admitted call on the key `K:block` blocks the key `K` for a window, though nobody ever called
   * with `K`.
   */
  lemma OneCallBlocksAnotherKey(now: int, p: Pair, cfg: Config, other: Config) returns (es: seq<Event>)
    requires 1 <= cfg.limit && 0 < cfg.window
    ensures Legal(Fresh(now), es)
    ensures var s := After(Fresh(now), es);
      && s.log == [Admission(Blocking(p), 0, now, now)]
      && TimeLeft(s.store, p.Block(), s.now) == cfg.window
      && Once(other, s.store, p, s.now) == (s.store, Denied(cfg.window))
  {
    BlockIsACounter(p);
    es := FirstCall(Fresh(now), [], Blocking(p), p, cfg, 0);
  }

  /**
   * The bound on a window fails for a key whose counter is another key's block: two late blocks cut its
   * window short, and it admits three calls where its limit is one in a hundred seconds.
   */
  lemma ForeignBlockPassesTheBound(now: int, q: Pair, p: Pair) returns (es: seq<Event>)
    requires q.Block() == p.Counter()
    ensures Legal(Fresh(now), es) && Between(es, p, q, RateLane.Config(1, 100, 100))
    ensures var cfg, log := RateLane.Config(1, 100, 100), LogOf(After(Fresh(now), es).log, p);
      AdmittedIn(log, now, now + cfg.window) == 3 > 2 * cfg.limit
  {
    var cfg := RateLane.Config(1, 100, 100);
    ThreeCells(q, p);
    es := TwoAdmitted(now, q, p);
    es := LateBlock(Fresh(now), es, q, p, cfg, 1);
    es := FirstCall(Fresh(now), es, p, q, cfg, 4);
    var log := [Admission(p, 2, now, now), Admission(p, 3, now + 1, now + 1), Admission(p, 4, now + 2, now + 2)];
    ThreeAdmitted(log[0], log[1], log[2], now, now + cfg.window);
    assert After(Fresh(now), es).log == log;
  }

  lemma ThreeCells(q: Pair, p: Pair)
    requires q.Block() == p.Counter()
    ensures q != p && q.Counter() != p.Counter() && p.Block() != p.Counter() && p.Block() != q.Counter()
  {
    BlockIsACounter(p);
    BlockIsACounter(q);
    assert |p.Block()| == |q.Counter()| + 12;
  }

  lemma OneAdmitted(now: int, q: Pair, p: Pair) returns (es: seq<Event>)
    requires q.Block() == p.Counter()
    ensures Legal(Fresh(now), es) && Between(es, p, q, RateLane.Config(1, 100, 100))
    ensures var s := After(Fresh(now), es);
      && s.store == map[q.Counter() := Cell(2, Some(now + 10)), p.Counter() := Cell(1, Some(now + 1))]
      && s.now == now + 1
      && s.calls == map[1 := Call(q, RateLane.Config(0, 10, 1), RateLane.MustBlock)]
      && s.log == [Admission(p, 2, now, now)]
  {
    ThreeCells(q, p);
    es := TwoLateBlocks(now, q, p);
    es := FirstCall(Fresh(now), es, p, q, RateLane.Config(1, 100, 100), 2);
    es := LateBlock(Fresh(now), es, q, p, RateLane.Config(1, 100, 100), 0);
  }

  lemma TwoAdmitted(now: int, q: Pair, p: Pair) returns (es: seq<Event>)
    requires q.Block() == p.Counter()
    ensures Legal(Fresh(now), es) && Between(es, p, q, RateLane.Config(1, 100, 100))
    ensures var s := After(Fresh(now), es);
      && s.store == map[q.Counter() := Cell(2, Some(now + 10)), p.Counter() := Cell(1, Some(now + 101))]
      && s.now == now + 1
      && s.calls == map[1 := Call(q, RateLane.Config(0, 10, 1), RateLane.MustBlock)]
      && s.log == [Admission(p, 2, now, now), Admission(p, 3, now + 1, now + 1)]
  {
    ThreeCells(q, p);
    es := OneAdmitted(now, q, p);
    es := FirstCall(Fresh(now), es, p, q, RateLane.Config(1, 100, 100), 3);
  }

  /** A waiting call blocks its key for a second, and the second passes. */
  lemma {:induction false} LateBlock(s: System, es: seq<Event>, q: Pair, p: Pair, cfg: Config, c: nat)
    returns (more: seq<Event>)
    requires Legal(s, es) && Between(es, p, q, cfg)
    requires c in After(s, es).calls && After(s, es).calls[c] == Call(q, RateLane.Config(0, 10, 1), RateLane.MustBlock)
    ensures Legal(s, more) && Between(more, p, q, cfg)
    ensures var was, now := After(s, es), After(s, more);
      && now.store == was.store[q.Block() := Cell(1, Some(was.now + 1))] && now.now == was.now + 1
      && now.calls == was.calls - {c} && now.log == was.log
  {
    OneMoreBetween(s, es, Block(c), p, q, cfg);
    OneMoreBetween(s, es + [Block(c)], Pass(1), p, q, cfg);
    more := es + [Block(c)] + [Pass(1)];
  }

  /** Two calls on a key without any allowance are over their limit and have yet to block. */
  lemma TwoLateBlocks(now: int, q: Pair, p: Pair) returns (es: seq<Event>)
    requires q != p
    ensures Legal(Fresh(now), es) && Between(es, p, q, RateLane.Config(1, 100, 100))
    ensures var s, none := After(Fresh(now), es), RateLane.Config(0, 10, 1);
      && s.store == map[q.Counter() := Cell(2, Some(now + 10))] && s.now == now && s.log == []
      && s.calls == map[0 := Call(q, none, RateLane.MustBlock), 1 := Call(q, none, RateLane.MustBlock)]
  {
    var s, none := Fresh(now), RateLane.Config(0, 10, 1);
    es := [];
    OneMore(s, es, Start(0, q, none));
    es := es + [Start(0, q, none)];
    OneMore(s, es, Start(1, q, none));
    es := es + [Start(1, q, none)];
    OneMore(s, es, Count(0));
    es := es + [Count(0)];
    OneMore(s, es, Expire(0));
    es := es + [Expire(0)];
    OneMore(s, es, Count(1));
    es := es + [Count(1)];
  }

  /**
   * It fails for a key whose counter is another key's counter: each round the other key starts the
   * window, with no length, and ends it, so that none of the admissions in between counts for long.
   */
  lemma ForeignCounterPassesTheBound(now: int, q: Pair, p: Pair) returns (es: seq<Event>)
    requires q != p && q.Counter() == p.Counter()
    ensures Legal(Fresh(now), es) && Between(es, p, q, RateLane.Config(2, 100, 100))
    ensures var cfg, log := RateLane.Config(2, 100, 100), LogOf(After(Fresh(now), es).log, p);
      AdmittedIn(log, now, now + cfg.window) == 5 > 2 * cfg.limit
  {
    es := [];
    var k := 0;
    while k < 5
      invariant 0 <= k <= 5 && Legal(Fresh(now), es)
      invariant Between(es, p, q, RateLane.Config(2, 100, 100))
      invariant var s := After(Fresh(now), es);
        && s.store == map[] && s.calls == map[] && s.now == now
        && AdmittedIn(LogOf(s.log, p), now, now + 100) == k
    {
      es := Round(now, es, q, p);
      k := k + 1;
    }
  }

  /** A round begins: both keys' calls have passed the check, and the other key's has counted. */
  lemma {:induction false} HalfRound(now: int, es: seq<Event>, q: Pair, p: Pair) returns (more: seq<Event>)
    requires q != p && q.Counter() == p.Counter() && Legal(Fresh(now), es)
    requires var s := After(Fresh(now), es); s.store == map[] && s.calls == map[] && s.now == now
    requires Between(es, p, q, RateLane.Config(2, 100, 100))
    ensures Legal(Fresh(now), more) && Between(more, p, q, RateLane.Config(2, 100, 100))
    ensures var was, s := After(Fresh(now), es), After(Fresh(now), more);
      && s.store == map[p.Counter() := Cell(1, None)] && s.now == now
      && s.calls.Keys == {0, 1} && s.calls[0] == Call(q, RateLane.Config(9, 0, 1), RateLane.MustExpire(false))
      && s.calls[1] == Call(p, RateLane.Config(2, 100, 100), RateLane.Passed(now))
      && s.log == was.log + [Admission(q, 0, now, now)]
  {
    var s, other, cfg := Fresh(now), RateLane.Config(9, 0, 1), RateLane.Config(2, 100, 100);
    OneMoreBetween(s, es, Start(0, q, other), p, q, cfg);
    more := es + [Start(0, q, other)];
    OneMoreBetween(s, more, Start(1, p, cfg), p, q, cfg);
    more := more + [Start(1, p, cfg)];
    OneMoreBetween(s, more, Count(0), p, q, cfg);
    more := more + [Count(0)];
  }

  /** It ends with the store as empty as before. */
  lemma {:induction false} Round(now: int, es: seq<Event>, q: Pair, p: Pair) returns (more: seq<Event>)
    requires q != p && q.Counter() == p.Counter() && Legal(Fresh(now), es)
    requires var s := After(Fresh(now), es); s.store == map[] && s.calls == map[] && s.now == now
    requires Between(es, p, q, RateLane.Config(2, 100, 100))
    ensures Legal(Fresh(now), more) && Between(more, p, q, RateLane.Config(2, 100, 100))
    ensures var was, s := After(Fresh(now), es), After(Fresh(now), more);
      && s.store == map[] && s.calls == map[] && s.now == now
      && AdmittedIn(LogOf(s.log, p), now, now + 100) == AdmittedIn(LogOf(was.log, p), now, now + 100) + 1
  {
    var s, cfg := Fresh(now), RateLane.Config(2, 100, 100);
    more := HalfRound(now, es, q, p);
    OneMoreBetween(s, more, Count(1), p, q, cfg);
    more := more + [Count(1)];
    OneMoreBetween(s, more, Expire(0), p, q, cfg);
    more := more + [Expire(0)];
    RoundLog(After(s, es).log, Admission(q, 0, now, now), Admission(p, 1, now, now), p, now, now + 100);
  }

  lemma {:induction false} RoundLog(log: seq<Admission>, a: Admission, b: Admission, p: Pair, from: int, to: int)
    requires a.pair != p && b.pair == p && from <= b.at < to
    ensures AdmittedIn(LogOf(log + [a] + [b], p), from, to) == AdmittedIn(LogOf(log, p), from, to) + 1
  {
    LogGrows(log, a, p);
    LogGrows(log + [a], b, p);
    assert LogOf(log + [a] + [b], p) == LogOf(log, p) + [b];
    assert (LogOf(log, p) + [b])[..|LogOf(log, p)|] == LogOf(log, p);
  }

  /**
   * A call that passed the check before a block can be admitted while the block stands: the counter
   * that led to the block has expired by then.
   */
  lemma AdmittedDuringABlock(now: int, p: Pair) returns (before: seq<Event>, es: seq<Event>)
    ensures Legal(Fresh(now), before) && Legal(After(Fresh(now), before), es)
    ensures var s := After(Fresh(now), before);
      && AllApart(before, p, RateLane.Config(1, 10, 100)) && AllApart(es, p, RateLane.Config(1, 10, 100))
      && TimeLeft(s.store, p.Block(), s.now) > 0 && s.log == [Admission(p, 0, now, now)] && 2 in Passed(s, p)
      && TimeLeft(After(s, es).store, p.Block(), After(s, es).now) > 0
      && After(s, es).log == s.log + [Admission(p, 2, now, now + 10)]
  {
    BlockIsACounter(p);
    before := BlockedWithOneWaiting(now, p);
    var s := After(Fresh(now), before);
    OneMore(s, [], Pass(10));
    OneMore(s, [] + [Pass(10)], Count(2));
    es := [Pass(10)] + [Count(2)];
    assert es == [] + [Pass(10)] + [Count(2)];
    ApartEverywhere(es, p, RateLane.Config(1, 10, 100));
  }

  lemma {:induction false} ApartEverywhere(es: seq<Event>, p: Pair, cfg: Config)
    requires forall i :: 0 <= i < |es| ==> Apart(es[i], p, cfg)
    ensures AllApart(es, p, cfg)
  {
    if |es| > 0 { ApartEverywhere(es[1..], p, cfg); }
  }

  lemma BlockedWithOneWaiting(now: int, p: Pair) returns (es: seq<Event>)
    ensures Legal(Fresh(now), es) && AllApart(es, p, RateLane.Config(1, 10, 100))
    ensures var s, cfg := After(Fresh(now), es), RateLane.Config(1, 10, 100);
      && s.store == map[p.Counter() := Cell(2, Some(now + 10)), p.Block() := Cell(1, Some(now + 100))] && s.now == now
      && s.calls == map[2 := Call(p, cfg, RateLane.Passed(now))] && s.log == [Admission(p, 0, now, now)]
  {
    var s, cfg := Fresh(now), RateLane.Config(1, 10, 100);
    BlockIsACounter(p);
    es := [];
    OneMore(s, es, Start(1, p, cfg));
    es := es + [Start(1, p, cfg)];
    OneMore(s, es, Start(2, p, cfg));
    es := es + [Start(2, p, cfg)];
    OneMore(s, es, Start(0, p, cfg));
    es := es + [Start(0, p, cfg)];
    OneMore(s, es, Count(0));
    es := es + [Count(0)];
    OneMore(s, es, Expire(0));
    es := es + [Expire(0)];
    OneMore(s, es, Count(1));
    es := es + [Count(1)];
    OneMore(s, es, Block(1));
    es := es + [Block(1)];
    ApartEverywhere(es, p, cfg);
  }
}
