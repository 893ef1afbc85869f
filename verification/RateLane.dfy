/**
 * The calls of one rate limited key whose two cells nobody else touches: `RateLimiter` says when that
 * is so. A call is a few separate commands, so the commands of concurrent calls interleave; the
 * decision falls at the increment. Time is in whole seconds.
 */
module RateLane {
  import opened Base

  /** `allowed`, window and block length are the same for every call with the key. */
  datatype Config = Config(limit: int, window: int, block: int)

  datatype Counter = Counter(count: nat, expires: Option<int>)

  /** The two cells of a key; one whose expiry has come does not exist any more. */
  datatype Cells = Cells(counter: Option<Counter>, block: Option<int>)

  predicate Blocked(c: Cells, now: int) {
    c.block.Some? && now < c.block.value
  }

  predicate CounterLives(c: Cells, now: int) {
    c.counter.Some? && (c.counter.value.expires.Some? ==> now < c.counter.value.expires.value)
  }

  /** `INCR` */
  function Bump(c: Cells, now: int): Cells {
    if CounterLives(c, now) then c.(counter := Some(c.counter.value.(count := c.counter.value.count + 1)))
    else c.(counter := Some(Counter(1, None)))
  }

  /** `EXPIRE`, which removes the counter at once when the time given is not positive. */
  function SetExpiry(c: Cells, now: int, window: int): Cells {
    if !CounterLives(c, now) then c
    else if window <= 0 then c.(counter := None)
    else c.(counter := Some(c.counter.value.(expires := Some(now + window))))
  }

  /** `SET ... EX`, which the store refuses for a time that is not positive. */
  function SetBlock(c: Cells, now: int, seconds: int): Cells {
    if seconds <= 0 then c else c.(block := Some(now + seconds))
  }

  // ----- concurrent calls -----

  /** A call remembers when it found no block; then what its increment left to do. */
  datatype Call = Passed(started: int) | MustExpire(over: bool) | MustBlock

  /** `log` records each admission: of which call, when it started, when it was decided, and in which counter's life. */
  datatype Admission = Admission(id: nat, started: int, at: int, life: nat)

  /** `births` holds the time each successive counter came into being. */
  datatype System = System(cells: Cells, now: int, calls: map<nat, Call>, births: seq<int>, log: seq<Admission>)

  datatype Event = Start(c: nat) | Count(c: nat) | Expire(c: nat) | Block(c: nat) | Lose(c: nat) | Pass(seconds: nat)

  predicate Enabled(s: System, e: Event) {
    match e
    case Start(c) => c !in s.calls
    case Count(c) => c in s.calls && s.calls[c].Passed?
    case Expire(c) => c in s.calls && s.calls[c].MustExpire?
    case Block(c) => c in s.calls && s.calls[c].MustBlock?
    case Lose(c) => c in s.calls
    case Pass(_) => true
  }

  function Counted(cfg: Config, s: System, c: nat): System
    requires c in s.calls && s.calls[c].Passed?
  {
    var cells := Bump(s.cells, s.now);
    var count := cells.counter.value.count;
    var births := if CounterLives(s.cells, s.now) then s.births else s.births + [s.now];
    var over := count > cfg.limit;
    s.(cells := cells, births := births,
       calls :=
         if count == 1 then s.calls[c := MustExpire(over)] else if over then s.calls[c := MustBlock] else s.calls - {c},
       log := if over || |births| == 0 then s.log else s.log + [Admission(c, s.calls[c].started, s.now, |births| - 1)])
  }

  function Do(cfg: Config, s: System, e: Event): System
    requires Enabled(s, e)
  {
    match e
    case Start(c) => if Blocked(s.cells, s.now) then s else s.(calls := s.calls[c := Passed(s.now)])
    case Count(c) => Counted(cfg, s, c)
    case Expire(c) =>
      s.(cells := SetExpiry(s.cells, s.now, cfg.window),
         calls := if s.calls[c].over then s.calls[c := MustBlock] else s.calls - {c})
    case Block(c) => s.(cells := SetBlock(s.cells, s.now, cfg.block), calls := s.calls - {c})
    case Lose(c) => s.(calls := s.calls - {c})
    case Pass(seconds) => s.(now := s.now + seconds)
  }

  predicate Legal(cfg: Config, s: System, es: seq<Event>)
    decreases |es|
  {
    |es| == 0 || (Enabled(s, es[0]) && Legal(cfg, Do(cfg, s, es[0]), es[1..]))
  }

  function After(cfg: Config, s: System, es: seq<Event>): System
    requires Legal(cfg, s, es)
    decreases |es|
  {
    if |es| == 0 then s else After(cfg, Do(cfg, s, es[0]), es[1..])
  }

  function Fresh(now: int): System {
    System(Cells(None, None), now, map[], [], [])
  }

  function Admitted(log: seq<Admission>, life: nat): nat {
    if |log| == 0 then 0 else Admitted(log[..|log| - 1], life) + if log[|log| - 1].life == life then 1 else 0
  }

  /** Admissions decided in the half-open interval from `a` to `b`. */
  function AdmittedIn(log: seq<Admission>, a: int, b: int): nat {
    if |log| == 0 then 0 else AdmittedIn(log[..|log| - 1], a, b) + if a <= log[|log| - 1].at < b then 1 else 0
  }

  function Max0(n: int): nat {
    if n < 0 then 0 else n
  }

  function Min(a: int, b: int): int {
    if a < b then a else b
  }

  predicate LivesApart(cfg: Config, s: System) {
    && (forall i :: 0 <= i < |s.births| ==> s.births[i] <= s.now)
    && (forall i, j :: 0 <= i < j < |s.births| ==> s.births[i] + Max0(cfg.window) <= s.births[j])
    && (s.cells.counter.Some? ==>
          && s.births != [] && s.cells.counter.value.count > 0
          && (s.cells.counter.value.expires.Some? ==>
                s.births[|s.births| - 1] + Max0(cfg.window) <= s.cells.counter.value.expires.value))
    && (s.cells.counter.None? && s.births != [] ==> cfg.window <= 0)
  }

  predicate LogInLives(s: System) {
    && (forall i :: 0 <= i < |s.log| ==> s.log[i].life < |s.births| && s.births[s.log[i].life] <= s.log[i].at <= s.now)
    && (forall i, k :: 0 <= i < |s.log| && s.log[i].life < k < |s.births| ==> s.log[i].at <= s.births[k])
  }

  ghost predicate LivesBounded(cfg: Config, s: System) {
    && (forall life :: 0 <= life < |s.births| ==> Admitted(s.log, life) <= Max0(cfg.limit))
    && (forall life :: |s.births| <= life ==> Admitted(s.log, life) == 0)
    && (s.cells.counter.Some? && s.births != [] ==>
          Admitted(s.log, |s.births| - 1) == Min(s.cells.counter.value.count, Max0(cfg.limit)))
  }

  ghost predicate Consistent(cfg: Config, s: System) {
    LivesApart(cfg, s) && LogInLives(s) && LivesBounded(cfg, s) && BlockTrue(cfg, s)
  }

  predicate BlockTrue(cfg: Config, s: System) {
    s.cells.block.Some? ==> s.cells.block.value <= s.now + cfg.block
  }

  lemma {:induction false} OneMoreAdmission(log: seq<Admission>, a: Admission, life: nat)
    ensures Admitted(log + [a], life) == Admitted(log, life) + if a.life == life then 1 else 0
  {
    assert (log + [a])[..|log|] == log;
  }

  /** One more count in the life of a counter, with or without an admission in it. */
  lemma SameLife(cfg: Config, s: System, s': System)
    requires LivesApart(cfg, s) && LogInLives(s) && CounterLives(s.cells, s.now)
    requires s'.now == s.now && s'.births == s.births && s'.cells == Bump(s.cells, s.now)
    requires
      || s'.log == s.log
      || exists a: Admission :: s'.log == s.log + [a] && a.at == s.now && a.life == |s.births| - 1
    ensures LivesApart(cfg, s') && LogInLives(s')
  {
  }

  /** The first count of a new life, which begins no sooner than the last one could end. */
  lemma NewLifeIsApart(cfg: Config, s: System, s': System)
    requires LivesApart(cfg, s) && !CounterLives(s.cells, s.now)
    requires s'.now == s.now && s'.births == s.births + [s.now] && s'.cells == Bump(s.cells, s.now)
    ensures LivesApart(cfg, s')
  {
    forall i, j | 0 <= i < j < |s'.births| ensures s'.births[i] + Max0(cfg.window) <= s'.births[j] {
      var last := |s.births| - 1;
      assert i < last ==> s.births[i] + Max0(cfg.window) <= s.births[last];
    }
  }

  lemma NewLifeKeepsLog(s: System, s': System)
    requires LogInLives(s) && s'.now == s.now && s'.births == s.births + [s.now]
    requires s'.log == s.log || exists a: Admission :: s'.log == s.log + [a] && a.at == s.now && a.life == |s.births|
    ensures LogInLives(s')
  {
  }

  lemma CountKeepsLives(cfg: Config, s: System, c: nat)
    requires LivesApart(cfg, s) && LogInLives(s) && c in s.calls && s.calls[c].Passed?
    ensures LivesApart(cfg, Counted(cfg, s, c)) && LogInLives(Counted(cfg, s, c))
  {
    var s' := Counted(cfg, s, c);
    assert s'.log == s.log || s'.log == s.log + [Admission(c, s.calls[c].started, s.now, |s'.births| - 1)];
    if CounterLives(s.cells, s.now) {
      SameLife(cfg, s, s');
    } else {
      NewLifeIsApart(cfg, s, s');
      NewLifeKeepsLog(s, s');
    }
  }

  lemma CountKeepsBounds(cfg: Config, s: System, c: nat)
    requires LivesApart(cfg, s) && LivesBounded(cfg, s) && c in s.calls && s.calls[c].Passed?
    ensures LivesBounded(cfg, Counted(cfg, s, c))
  {
    var s' := Counted(cfg, s, c);
    if s'.log != s.log {
      forall life: nat
        ensures Admitted(s'.log, life) == Admitted(s.log, life) + if life == |s'.births| - 1 then 1 else 0
      {
        OneMoreAdmission(s.log, Admission(c, s.calls[c].started, s.now, |s'.births| - 1), life);
      }
    }
  }

  lemma QuietKeeps(cfg: Config, s: System, s': System)
    requires Consistent(cfg, s) && s'.births == s.births && s'.log == s.log && s'.cells.counter == s.cells.counter
    requires s.now <= s'.now && BlockTrue(cfg, s')
    ensures Consistent(cfg, s')
  {
  }

  lemma ExpireKeepsLives(cfg: Config, s: System)
    requires LivesApart(cfg, s)
    ensures LivesApart(cfg, s.(cells := SetExpiry(s.cells, s.now, cfg.window)))
  {
  }

  lemma ExpireKeepsBounds(cfg: Config, s: System)
    requires LivesBounded(cfg, s)
    ensures LivesBounded(cfg, s.(cells := SetExpiry(s.cells, s.now, cfg.window)))
  {
  }

  lemma EventKeeps(cfg: Config, s: System, e: Event)
    requires Consistent(cfg, s) && Enabled(s, e)
    ensures Consistent(cfg, Do(cfg, s, e))
  {
    match e
    case Count(c) =>
      CountKeepsLives(cfg, s, c);
      CountKeepsBounds(cfg, s, c);
    case Expire(c) =>
      ExpireKeepsLives(cfg, s);
      ExpireKeepsBounds(cfg, s);
      QuietKeeps(cfg, s.(cells := SetExpiry(s.cells, s.now, cfg.window)), Do(cfg, s, e));
    case _ => QuietKeeps(cfg, s, Do(cfg, s, e));
  }

  lemma {:induction false} RunKeeps(cfg: Config, s: System, es: seq<Event>)
    requires Consistent(cfg, s) && Legal(cfg, s, es)
    ensures Consistent(cfg, After(cfg, s, es))
    decreases |es|
  {
    if |es| != 0 {
      EventKeeps(cfg, s, es[0]);
      RunKeeps(cfg, Do(cfg, s, es[0]), es[1..]);
    }
  }

  lemma FreshIsConsistent(cfg: Config, now: int)
    ensures Consistent(cfg, Fresh(now))
  {
  }

  /** Under any interleaving, one counter admits at most `limit` calls in its life. */
  lemma {:induction false} OneLifeAdmitsAtMostTheLimit(cfg: Config, now: int, es: seq<Event>, life: nat)
    requires Legal(cfg, Fresh(now), es)
    ensures Admitted(After(cfg, Fresh(now), es).log, life) <= Max0(cfg.limit)
  {
    FreshIsConsistent(cfg, now);
    RunKeeps(cfg, Fresh(now), es);
    LifeBound(cfg, After(cfg, Fresh(now), es), life);
  }

  lemma {:induction false} LifeBound(cfg: Config, s: System, life: nat)
    requires LivesBounded(cfg, s)
    ensures Admitted(s.log, life) <= Max0(cfg.limit)
  {
  }

  /** Two admissions less than a window apart fall in the same life or in adjoining ones. */
  lemma WindowMeetsTwoLives(cfg: Config, s: System, i: nat, j: nat)
    requires LivesApart(cfg, s) && LogInLives(s) && i < |s.log| && j < |s.log|
    requires s.log[j].at < s.log[i].at + cfg.window
    ensures s.log[j].life <= s.log[i].life + 1
  {
    var next, life := s.log[i].life + 1, s.log[j].life;
    assert next < |s.births| ==> s.log[i].at <= s.births[next];
    assert life < |s.births| && s.births[life] <= s.log[j].at;
  }

  lemma {:induction false} AdmittedInTwoLives(log: seq<Admission>, a: int, b: int, life: nat)
    requires forall i :: 0 <= i < |log| && a <= log[i].at < b ==> log[i].life == life || log[i].life == life + 1
    ensures AdmittedIn(log, a, b) <= Admitted(log, life) + Admitted(log, life + 1)
  {
    if |log| > 0 {
      var n := |log| - 1;
      assert forall i :: 0 <= i < n ==> log[..n][i] == log[i];
      AdmittedInTwoLives(log[..n], a, b, life);
    }
  }

  lemma {:induction false} EarliestLife(log: seq<Admission>, a: int, b: int) returns (k: nat)
    requires exists i :: 0 <= i < |log| && a <= log[i].at < b
    ensures k < |log| && a <= log[k].at < b
    ensures forall i :: 0 <= i < |log| && a <= log[i].at < b ==> log[k].life <= log[i].life
  {
    var n := |log| - 1;
    if exists i :: 0 <= i < n && a <= log[i].at < b {
      var i :| 0 <= i < n && a <= log[i].at < b;
      assert log[..n][i] == log[i];
      k := EarliestLife(log[..n], a, b);
      assert forall i :: 0 <= i < n ==> log[..n][i] == log[i];
      if a <= log[n].at < b && log[n].life < log[k].life { k := n; }
    } else {
      k := n;
    }
  }

  lemma {:induction false} NoneIn(log: seq<Admission>, a: int, b: int)
    requires forall i :: 0 <= i < |log| ==> !(a <= log[i].at < b)
    ensures AdmittedIn(log, a, b) == 0
  {
    if |log| > 0 {
      assert forall i :: 0 <= i < |log| - 1 ==> log[..|log| - 1][i] == log[i];
      NoneIn(log[..|log| - 1], a, b);
    }
  }

  lemma AdjoiningLives(cfg: Config, s: System, a: int, k: nat)
    requires LivesApart(cfg, s) && LogInLives(s) && k < |s.log| && a <= s.log[k].at
    requires forall i :: 0 <= i < |s.log| && a <= s.log[i].at < a + cfg.window ==> s.log[k].life <= s.log[i].life
    ensures forall i :: 0 <= i < |s.log| && a <= s.log[i].at < a + cfg.window ==>
      s.log[i].life == s.log[k].life || s.log[i].life == s.log[k].life + 1
  {
    forall i | 0 <= i < |s.log| && a <= s.log[i].at < a + cfg.window
      ensures s.log[i].life == s.log[k].life || s.log[i].life == s.log[k].life + 1
    {
      WindowMeetsTwoLives(cfg, s, k, i);
    }
  }

  /** What a window admits, two adjoining lives admitted. */
  lemma WindowSplits(cfg: Config, s: System, a: int) returns (life: nat)
    requires LivesApart(cfg, s) && LogInLives(s)
    ensures AdmittedIn(s.log, a, a + cfg.window) <= Admitted(s.log, life) + Admitted(s.log, life + 1)
  {
    if i :| 0 <= i < |s.log| && a <= s.log[i].at < a + cfg.window {
      var k := EarliestLife(s.log, a, a + cfg.window);
      AdjoiningLives(cfg, s, a, k);
      life := s.log[k].life;
      AdmittedInTwoLives(s.log, a, a + cfg.window, life);
    } else {
      NoneIn(s.log, a, a + cfg.window);
      life := 0;
    }
  }

  lemma WindowBound(cfg: Config, s: System, a: int)
    requires LivesApart(cfg, s) && LogInLives(s) && LivesBounded(cfg, s)
    ensures AdmittedIn(s.log, a, a + cfg.window) <= 2 * Max0(cfg.limit)
  {
    var life := WindowSplits(cfg, s, a);
    LifeBound(cfg, s, life);
    LifeBound(cfg, s, life + 1);
  }

  // ----- during a block -----

  /** The calls that had passed the check for a block and started before `until`. */
  function Waiting(s: System, until: int): set<nat> {
    set c | c in s.calls && s.calls[c].Passed? && s.calls[c].started < until
  }

  predicate HadPassed(s: System, id: nat, started: int) {
    id in s.calls && s.calls[id] == Passed(started)
  }

  /** Admissions from position `from` on of calls that started before `until`. */
  function Late(log: seq<Admission>, from: nat, until: int): nat {
    if |log| <= from then 0
    else Late(log[..|log| - 1], from, until) + if log[|log| - 1].started < until then 1 else 0
  }

  /**
   * A block until `until` stands or has been prolonged; whoever started before its end and passed the
   * check is a call of `s` that had passed it already, and each of those is admitted at most once.
   */
  ghost predicate Shut(cfg: Config, s: System, s': System, until: int) {
    && s.now <= s'.now && until <= s'.now + cfg.block
    && (s'.now < until ==> s'.cells.block.Some? && until <= s'.cells.block.value)
    && s.log <= s'.log
    && (forall c :: c in Waiting(s', until) ==> HadPassed(s, c, s'.calls[c].started))
    && (forall i :: |s.log| <= i < |s'.log| && s'.log[i].started < until ==>
          HadPassed(s, s'.log[i].id, s'.log[i].started))
    && Late(s'.log, |s.log|, until) + |Waiting(s', until)| <= |Waiting(s, until)|
  }

  lemma {:induction false} LateAfter(log: seq<Admission>, a: Admission, from: nat, until: int)
    requires from <= |log|
    ensures Late(log + [a], from, until) == Late(log, from, until) + if a.started < until then 1 else 0
  {
    assert (log + [a])[..|log|] == log;
  }

  lemma {:induction false} FewerWait(a: set<nat>, b: set<nat>)
    requires a <= b
    ensures |a| <= |b|
  {
    if c :| c in a { FewerWait(a - {c}, b - {c}); }
  }

  lemma CountEndsWaiting(cfg: Config, s: System, c: nat, until: int)
    requires c in s.calls && s.calls[c].Passed?
    ensures Waiting(Counted(cfg, s, c), until) == Waiting(s, until) - {c}
  {
  }

  lemma CountKeepsShut(cfg: Config, s: System, s': System, c: nat, until: int)
    requires Shut(cfg, s, s', until) && c in s'.calls && s'.calls[c].Passed?
    ensures Shut(cfg, s, Counted(cfg, s', c), until)
  {
    var t := Counted(cfg, s', c);
    CountEndsWaiting(cfg, s', c, until);
    if t.log != s'.log {
      var a := Admission(c, s'.calls[c].started, s'.now, |t.births| - 1);
      LateAfter(s'.log, a, |s.log|, until);
      assert s'.calls[c].started < until ==> c in Waiting(s', until);
      forall i | |s.log| <= i < |t.log| && t.log[i].started < until
        ensures HadPassed(s, t.log[i].id, t.log[i].started)
      {
        if i < |s'.log| { assert t.log[i] == s'.log[i]; }
      }
    }
  }

  lemma QuietKeepsShut(cfg: Config, s: System, s': System, e: Event, until: int)
    requires Shut(cfg, s, s', until) && Enabled(s', e) && !e.Count?
    ensures Shut(cfg, s, Do(cfg, s', e), until)
  {
    FewerWait(Waiting(Do(cfg, s', e), until), Waiting(s', until));
  }

  lemma {:induction false} RunKeepsShut(cfg: Config, s: System, s': System, es: seq<Event>, until: int)
    requires Shut(cfg, s, s', until) && Legal(cfg, s', es)
    ensures Shut(cfg, s, After(cfg, s', es), until)
    decreases |es|
  {
    if |es| != 0 {
      if es[0].Count? { CountKeepsShut(cfg, s, s', es[0].c, until); } else { QuietKeepsShut(cfg, s, s', es[0], until); }
      RunKeepsShut(cfg, s, Do(cfg, s', es[0]), es[1..], until);
    }
  }

  lemma {:induction false} NoneLate(log: seq<Admission>, until: int)
    ensures Late(log, |log|, until) == 0
  {
  }

  /**
   * Once a block stands, no call that starts before its end is ever admitted, whatever else runs: each
   * admission of such a call is of one that had passed the check before the block, once for each.
   */
  lemma {:induction false} NobodyEntersABlock(cfg: Config, s: System, es: seq<Event>)
    requires Consistent(cfg, s) && s.cells.block.Some? && Legal(cfg, s, es)
    ensures var until, log := s.cells.block.value, After(cfg, s, es).log;
      && s.log <= log
      && (forall i :: |s.log| <= i < |log| && log[i].started < until ==> HadPassed(s, log[i].id, log[i].started))
      && Late(log, |s.log|, until) <= |Waiting(s, until)|
  {
    NoneLate(s.log, s.cells.block.value);
    RunKeepsShut(cfg, s, s, es, s.cells.block.value);
  }

  // ----- a counter that lost its expiry -----

  /** The counter has no expiry, and no call is left that would give it one. */
  predicate Immortal(s: System) {
    && s.cells.counter.Some? && s.cells.counter.value.expires.None? && 1 <= s.cells.counter.value.count
    && forall c :: c in s.calls ==> !s.calls[c].MustExpire?
  }

  lemma ImmortalStep(cfg: Config, s: System, e: Event)
    requires Immortal(s) && Enabled(s, e)
    ensures var s' := Do(cfg, s, e);
      && Immortal(s')
      && |s.log| <= |s'.log| && s.cells.counter.value.count <= s'.cells.counter.value.count
      && |s'.log| - |s.log| <=
           Max0(cfg.limit - s.cells.counter.value.count) - Max0(cfg.limit - s'.cells.counter.value.count)
  {
  }

  /**
   * A call lost between its increment and its expiry leaves such a counter, when the increment was the
   * first: it admits what is left of its limit and after that nobody, for ever.
   */
  lemma {:induction false} LostExpiryDeniesForever(cfg: Config, s: System, es: seq<Event>)
    requires Immortal(s) && Legal(cfg, s, es)
    ensures var s' := After(cfg, s, es);
      Immortal(s') && |s'.log| - |s.log| <= Max0(cfg.limit - s.cells.counter.value.count)
    decreases |es|
  {
    if |es| != 0 {
      ImmortalStep(cfg, s, es[0]);
      LostExpiryDeniesForever(cfg, Do(cfg, s, es[0]), es[1..]);
    }
  }

  /** Exactly the loss of the one call that still owes the expiry makes a live counter immortal. */
  lemma LosingTheExpiry(cfg: Config, s: System, c: nat)
    requires c in s.calls && s.calls[c].MustExpire? && s.cells.counter.Some? && 1 <= s.cells.counter.value.count
    requires s.cells.counter.value.expires.None?
    ensures Immortal(Do(cfg, s, Lose(c))) <==> forall d :: d in s.calls && d != c ==> !s.calls[d].MustExpire?
  {
    assert forall d :: d in s.calls && d != c ==>
      d in Do(cfg, s, Lose(c)).calls && Do(cfg, s, Lose(c)).calls[d] == s.calls[d];
  }

  /** It happens on a fresh key: the first call is lost after its increment. */
  lemma {:induction false} LostOnAFreshKey(cfg: Config, now: int)
    ensures var es := [Start(0), Count(0), Lose(0)];
      && Legal(cfg, Fresh(now), es) && Immortal(After(cfg, Fresh(now), es))
      && After(cfg, Fresh(now), es).cells.counter.value.count == 1
  {
    var s1 := Do(cfg, Fresh(now), Start(0));
    var s2 := Do(cfg, s1, Count(0));
    var s3 := Do(cfg, s2, Lose(0));
    assert [Lose(0)][1..] == [] && [Count(0), Lose(0)][1..] == [Lose(0)];
    assert [Start(0), Count(0), Lose(0)][1..] == [Count(0), Lose(0)];
    assert Legal(cfg, s3, []) && Legal(cfg, s2, [Lose(0)]) && Legal(cfg, s1, [Count(0), Lose(0)]);
  }
}
