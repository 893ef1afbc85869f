/**
 * The enrollment deadline on the client: the server clock as an offset to the browser's, the overdue
 * gate, and the timer that ticks towards the deadline. Milliseconds are integers; a reading that is
 * not a finite number is `None`.
 */
module EnrollmentClock {
  import opened Base
  import opened Timestamp

  datatype User = User(role: Option<string>, enabled: bool, requiredAt: Option<string>)

  predicate Staff(u: User) {
    u.role == Some("owner") || u.role == Some("admin") || u.role == Some("cs")
  }

  function ParseOptional(value: Option<string>): Option<int> {
    if value.None? then None else Parse(value.value)
  }

  function ServerOffset(serverTime: Option<string>, now: Option<int>): Option<int> {
    match (ParseOptional(serverTime), now)
    case (Some(server), Some(client)) => Some(server - client)
    case _ => None
  }

  function AuthoritativeNow(now: Option<int>, offset: Option<int>): Option<int> {
    if offset.None? || now.None? then None else Some(now.value + offset.value)
  }

  function Overdue(user: Option<User>, now: Option<int>, offset: Option<int>): bool {
    if user.None? || user.value.enabled || !Staff(user.value) then false
    else
      match ParseOptional(user.value.requiredAt)
      case None => false
      case Some(deadline) =>
        match AuthoritativeNow(now, offset)
        case None => true
        case Some(time) => time >= deadline
  }

  function Remaining(user: Option<User>, now: Option<int>, offset: Option<int>): Option<int> {
    if user.None? || user.value.enabled || !Staff(user.value) then None
    else
      match (ParseOptional(user.value.requiredAt), AuthoritativeNow(now, offset))
      case (Some(deadline), Some(time)) => Some(deadline - time)
      case _ => None
  }

  /** The three roles of staff who have not activated the second factor and have a readable deadline. */
  predicate OwesActivation(user: Option<User>) {
    && user.Some? && !user.value.enabled
    && user.value.role in {Some("owner"), Some("admin"), Some("cs")}
    && ParseOptional(user.value.requiredAt).Some?
  }

  /**
   * Nobody else is ever gated. Who owes the activation is overdue from the deadline on, and whenever the
   * authoritative time is not known.
   */
  lemma WhoIsOverdue(user: Option<User>, now: Option<int>, offset: Option<int>)
    ensures Overdue(user, now, offset) <==>
      && OwesActivation(user)
      && (now.None? || offset.None? || now.value + offset.value >= ParseOptional(user.value.requiredAt).value)
  {
    match user
    case None =>
    case Some(u) => GatedByDeadline(u, ParseOptional(u.requiredAt), now, offset);
  }

  lemma GatedByDeadline(u: User, deadline: Option<int>, now: Option<int>, offset: Option<int>)
    requires deadline == ParseOptional(u.requiredAt)
    ensures Overdue(Some(u), now, offset) <==>
      && !u.enabled && u.role in {Some("owner"), Some("admin"), Some("cs")} && deadline.Some?
      && (now.None? || offset.None? || now.value + offset.value >= deadline.value)
  {
  }

  /**
   * The gate and the countdown agree, and the browser's own clock cancels out: with an offset taken
   * when the server said `at`, the user is overdue exactly when the time elapsed since then reaches
   * the deadline. Without a usable server time a pending duty counts as overdue.
   */
  lemma OverdueIgnoresTheBrowserClock(user: User, serverTime: Option<string>, then0: int, now: int)
    requires Staff(user) && !user.enabled && ParseOptional(user.requiredAt).Some?
    ensures var offset, deadline := ServerOffset(serverTime, Some(then0)), ParseOptional(user.requiredAt).value;
      && Overdue(Some(user), Some(now), offset) ==
           (ParseOptional(serverTime).None? || ParseOptional(serverTime).value + (now - then0) >= deadline)
      && (Overdue(Some(user), Some(now), offset) <==>
           var left := Remaining(Some(user), Some(now), offset); left.None? || left.value <= 0)
  {
  }

  // ----- the timer -----

  const CADENCE_MS := 60_000

  function NextDelay(remaining: Option<int>, cadence: int): Option<int> {
    if remaining.None? then None
    else if remaining.value <= 0 then Some(0)
    else if remaining.value <= cadence then remaining
    else Some(if cadence < remaining.value then cadence else remaining.value)
  }

  datatype Pending = Pending(token: nat, delay: int)

  /** `pending` is the browser's table of timeouts, `ticks` counts the calls of `onTick`. */
  datatype State = State(
    generation: nat, stopped: bool, timer: Option<nat>, deadline: Option<int>, offset: Option<int>,
    pending: map<nat, Pending>, nextId: nat, ticks: nat)

  function Initial(): State {
    State(0, true, None, None, None, map[], 0, 0)
  }

  function Clear(s: State): State {
    if s.timer.None? then s else s.(pending := s.pending - {s.timer.value}, timer := None)
  }

  function Schedule(s: State, token: nat, now: Option<int>): State {
    if s.stopped || token != s.generation then s
    else
      var c := Clear(s);
      match (c.deadline, AuthoritativeNow(now, c.offset))
      case (Some(deadline), Some(time)) =>
        if deadline - time <= 0 then c.(ticks := c.ticks + 1)
        else
          var delay := NextDelay(Some(deadline - time), CADENCE_MS).value;
          if delay <= 0 then c
          else c.(timer := Some(c.nextId), nextId := c.nextId + 1,
            pending := c.pending[c.nextId := Pending(token, delay)])
      case _ => c
  }

  /** `start` and `replace` */
  function Start(s: State, deadline: Option<int>, offset: Option<int>, now: Option<int>): State {
    Schedule(s.(generation := s.generation + 1, stopped := false, deadline := deadline, offset := offset),
      s.generation + 1, now)
  }

  function Stop(s: State): State {
    Clear(s.(stopped := true, generation := s.generation + 1)).(deadline := None, offset := None)
  }

  /** What the tick handler does to the timer while it runs. */
  datatype Action = Leave | Halt | Restart(deadline: Option<int>, offset: Option<int>, now: Option<int>)

  function Perform(s: State, a: Action): State {
    match a
    case Leave => s
    case Halt => Stop(s)
    case Restart(deadline, offset, now) => Start(s, deadline, offset, now)
  }

  /** After the handler: on to the next timeout, if there is time left. */
  function Continue(s: State, token: nat, after: Option<int>, again: Option<int>): State {
    if s.stopped || token != s.generation then s
    else
      match (s.deadline, AuthoritativeNow(after, s.offset))
      case (Some(deadline), Some(time)) => if deadline - time > 0 then Schedule(s, token, again) else s
      case _ => s
  }

  /** A timeout fires; the clock is read once to decide and once to schedule. */
  function Fire(s: State, id: nat, inner: Action, after: Option<int>, again: Option<int>): State
    requires id in s.pending
  {
    var token := s.pending[id].token;
    var s1 := s.(pending := s.pending - {id});
    if s1.stopped || token != s1.generation then s1
    else Continue(Perform(s1.(ticks := s1.ticks + 1), inner), token, after, again)
  }

  datatype Event =
    | Act(action: Action)
    | Timeout(id: nat, inner: Action, after: Option<int>, again: Option<int>)

  predicate Legal(s: State, es: seq<Event>)
    decreases |es|
  {
    |es| == 0 || ((es[0].Timeout? ==> es[0].id in s.pending) && Legal(Do(s, es[0]), es[1..]))
  }

  function Do(s: State, e: Event): State
    requires e.Timeout? ==> e.id in s.pending
  {
    match e
    case Act(action) => Perform(s, action)
    case Timeout(id, inner, after, again) => Fire(s, id, inner, after, again)
  }

  function After(s: State, es: seq<Event>): State
    requires Legal(s, es)
    decreases |es|
  {
    if |es| == 0 then s else After(Do(s, es[0]), es[1..])
  }

  /** At most one timeout is pending: the remembered one, of the current generation, within the cadence. */
  predicate Guarded(s: State) {
    && (s.timer.Some? ==> s.timer.value < s.nextId)
    && (forall id :: id in s.pending ==>
          && s.timer == Some(id) && !s.stopped && s.pending[id].token == s.generation
          && 0 < s.pending[id].delay <= CADENCE_MS)
  }

  lemma ActionKeeps(s: State, a: Action)
    requires Guarded(s)
    ensures Guarded(Perform(s, a)) && s.generation <= Perform(s, a).generation
  {
  }

  lemma ScheduleKeeps(s: State, token: nat, now: Option<int>)
    requires Guarded(s)
    ensures Guarded(Schedule(s, token, now)) && Schedule(s, token, now).generation == s.generation
  {
  }

  lemma FiredKeeps(s: State, id: nat)
    requires Guarded(s) && id in s.pending
    ensures Guarded(s.(pending := s.pending - {id})) && Guarded(s.(pending := s.pending - {id}, ticks := s.ticks + 1))
  {
  }

  lemma FireKeeps(s: State, id: nat, inner: Action, after: Option<int>, again: Option<int>)
    requires Guarded(s) && id in s.pending
    ensures Guarded(Fire(s, id, inner, after, again))
  {
    FiredKeeps(s, id);
    var s1 := s.(pending := s.pending - {id}, ticks := s.ticks + 1);
    ActionKeeps(s1, inner);
    var s2 := Perform(s1, inner);
    ScheduleKeeps(s2, s.pending[id].token, again);
    assert Fire(s, id, inner, after, again) in
      {s.(pending := s.pending - {id}), s2, Schedule(s2, s.pending[id].token, again)};
  }

  lemma StaysGuarded(s: State, id: nat, inner: Action, after: Option<int>, again: Option<int>)
    requires id in s.pending
    ensures Guarded(s) ==> Guarded(Fire(s, id, inner, after, again))
  {
    if Guarded(s) { FireKeeps(s, id, inner, after, again); }
  }

  lemma {:induction false} RunKeeps(s: State, es: seq<Event>)
    requires Guarded(s) && Legal(s, es)
    ensures Guarded(After(s, es))
    decreases |es|
  {
    if |es| != 0 {
      match es[0] {
        case Act(action) => ActionKeeps(s, action);
        case Timeout(id, inner, after, again) => FireKeeps(s, id, inner, after, again);
      }
      RunKeeps(Do(s, es[0]), es[1..]);
    }
  }

  /** After any starts, stops, replacements and timeouts: one live timeout at most, none from an earlier generation. */
  lemma {:induction false} OneLiveTimeout(es: seq<Event>, id: nat, other: nat)
    requires Legal(Initial(), es)
    requires id in After(Initial(), es).pending && other in After(Initial(), es).pending
    ensures var s := After(Initial(), es);
      && id == other && !s.stopped && s.pending[id].token == s.generation && 0 < s.pending[id].delay <= 60_000
  {
    RunKeeps(Initial(), es);
  }

  /** A countdown scheduled at `now` with `left` milliseconds to go. */
  predicate Counting(s: State, now: int) {
    && Guarded(s) && !s.stopped && s.deadline.Some? && s.offset.Some? && s.timer.Some? && s.timer.value in s.pending
    && var left := s.deadline.value - (now + s.offset.value);
    && left > 0 && s.pending[s.timer.value].delay == (if left < 60_000 then left else 60_000)
  }

  function Left(s: State, now: int): int
    requires s.deadline.Some? && s.offset.Some?
  {
    s.deadline.value - (now + s.offset.value)
  }

  /** No timeout is due after the deadline: the tick that can be due then is due exactly then. */
  lemma StartCounts(s: State, deadline: int, offset: int, now: int)
    requires Guarded(s)
    ensures var s' := Start(s, Some(deadline), Some(offset), Some(now));
      if deadline - (now + offset) > 0
      then Counting(s', now) && s'.ticks == s.ticks && s'.pending[s'.timer.value].delay <= Left(s', now)
      else s'.pending == map[] && s'.ticks == s.ticks + 1
  {
    ActionKeeps(s, Restart(Some(deadline), Some(offset), Some(now)));
    var s1 := s.(generation := s.generation + 1, stopped := false, deadline := Some(deadline), offset := Some(offset));
    forall id | id in s.pending ensures s.timer == Some(id) {}
    assert Clear(s1).pending == map[];
  }

  /** One undisturbed timeout, no earlier than due: it ticks once, and goes on only before the deadline. */
  lemma TimeoutCounts(s: State, now: int, read: int)
    requires Counting(s, now) && read >= now + s.pending[s.timer.value].delay
    ensures var s' := Fire(s, s.timer.value, Leave, Some(read), Some(read));
      && s'.ticks == s.ticks + 1
      && (if Left(s, read) > 0 then Counting(s', read) && s'.deadline == s.deadline && s'.offset == s.offset
          else s'.pending == map[])
      && (Left(s, read) > 0 ==> Left(s, read) <= Left(s, now) - 60_000)
  {
    FireKeeps(s, s.timer.value, Leave, Some(read), Some(read));
    forall id | id in s.pending ensures s.timer == Some(id) {}
    assert s.pending - {s.timer.value} == map[];
  }

  /** The readings of a countdown nobody disturbs: each timeout fires when due or later. */
  predicate Undisturbed(s: State, now: int, readings: seq<int>)
    decreases |readings|
  {
    && Counting(s, now)
    && (|readings| > 0 ==>
          && readings[0] >= now + s.pending[s.timer.value].delay
          && (|readings| > 1 ==>
                var fired := Fire(s, s.timer.value, Leave, Some(readings[0]), Some(readings[0]));
                Undisturbed(fired, readings[0], readings[1..])))
  }

  /** It never spins: a countdown of `left` milliseconds is over after at most one tick a minute, and one. */
  lemma {:induction false} CountdownEnds(s: State, now: int, readings: seq<int>)
    requires Undisturbed(s, now, readings)
    ensures |readings| > 0 ==> (|readings| - 1) * 60_000 < Left(s, now)
    decreases |readings|
  {
    if |readings| > 1 {
      TimeoutCounts(s, now, readings[0]);
      CountdownEnds(Fire(s, s.timer.value, Leave, Some(readings[0]), Some(readings[0])), readings[0], readings[1..]);
    }
  }

  class DeadlineTimer {
    var generation: nat
    var stopped: bool
    var timer: Option<nat>
    var deadlineMs: Option<int>
    var offsetMs: Option<int>
    var pending: map<nat, Pending>
    var nextId: nat
    var ticks: nat

    function View(): State
      reads this
    {
      State(generation, stopped, timer, deadlineMs, offsetMs, pending, nextId, ticks)
    }

    constructor ()
      ensures View() == Initial()
    {
      generation, stopped, timer, deadlineMs, offsetMs := 0, true, None, None, None;
      pending, nextId, ticks := map[], 0, 0;
    }

    method ClearTimer()
      modifies `timer, `pending
      ensures View() == Clear(old(View()))
    {
      if timer.Some? {
        pending := pending - {timer.value};
        timer := None;
      }
    }

    method ScheduleNext(token: nat, now: Option<int>)
      modifies `timer, `pending, `nextId, `ticks
      ensures View() == Schedule(old(View()), token, now)
      ensures old(Guarded(View())) ==> Guarded(View())
    {
      if Guarded(View()) { ScheduleKeeps(View(), token, now); }
      if stopped || token != generation { return; }
      ClearTimer();
      if deadlineMs.None? || offsetMs.None? || now.None? { return; }
      var remaining := deadlineMs.value - (now.value + offsetMs.value);
      if remaining <= 0 {
        ticks := ticks + 1;
        return;
      }
      var delay := NextDelay(Some(remaining), CADENCE_MS);
      if delay.None? || delay.value <= 0 { return; }
      pending := pending[nextId := Pending(token, delay.value)];
      timer := Some(nextId);
      nextId := nextId + 1;
    }

    method StartCountdown(deadline: Option<int>, offset: Option<int>, now: Option<int>) returns (token: nat)
      modifies this
      ensures View() == Start(old(View()), deadline, offset, now)
      ensures token == generation == old(generation) + 1 && !stopped
    {
      generation := generation + 1;
      stopped := false;
      deadlineMs := deadline;
      offsetMs := offset;
      ScheduleNext(generation, now);
      token := generation;
    }

    method StopCountdown()
      modifies this
      ensures View() == Stop(old(View()))
      ensures old(Guarded(View())) ==> pending == map[]
    {
      ghost var before := View();
      stopped := true;
      generation := generation + 1;
      ClearTimer();
      deadlineMs := None;
      offsetMs := None;
      if Guarded(before) {
        forall id | id in before.pending ensures before.timer == Some(id) {}
        assert pending == map[];
      }
    }

    /** The tick handler, which may stop the timer or start it anew. */
    method Handle(inner: Action)
      modifies this
      ensures View() == Perform(old(View()), inner)
    {
      match inner {
        case Leave =>
        case Halt => StopCountdown();
        case Restart(deadline, offset, now) => var restarted := StartCountdown(deadline, offset, now);
      }
    }

    method GoOn(token: nat, after: Option<int>, again: Option<int>)
      modifies this
      ensures View() == Continue(old(View()), token, after, again)
    {
      if stopped || token != generation || deadlineMs.None? || offsetMs.None? { return; }
      if after.None? { return; }
      if deadlineMs.value - (after.value + offsetMs.value) > 0 {
        ScheduleNext(token, again);
      }
    }

    method Tick(token: nat, inner: Action, after: Option<int>, again: Option<int>)
      modifies this
      ensures View() == Continue(Perform(old(View()).(ticks := old(ticks) + 1), inner), token, after, again)
    {
      ticks := ticks + 1;
      Handle(inner);
      GoOn(token, after, again);
    }

    method Fired(id: nat, inner: Action, after: Option<int>, again: Option<int>)
      requires id in pending
      modifies this
      ensures View() == Fire(old(View()), id, inner, after, again)
      ensures old(Guarded(View())) ==> Guarded(View())
    {
      ghost var before := View();
      var token := pending[id].token;
      pending := pending - {id};
      if !stopped && token == generation { Tick(token, inner, after, again); }
      assert View() == Fire(before, id, inner, after, again);
      StaysGuarded(before, id, inner, after, again);
    }
  }
}
