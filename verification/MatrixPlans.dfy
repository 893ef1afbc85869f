/**
 * What a check does, as a plan: its effects in order, cut short after the first that fails, and then,
 * for an isolated check, the cleanup, come what may.
 */
module MatrixPlans {
  import opened MatrixSpec
  import opened MatrixGuarantees

  function StopPlan(active: Profile): seq<Action> {
    if active == Bare then [] else [Stop]
  }

  /** The effects of the check itself, when `active` is up. */
  function Plan(active: Profile, item: Item): seq<Action> {
    match item.profile
    case Stopped => StopPlan(active) + [VerifyStopped]
    case SelfManaged => StopPlan(active) + [Prepare, Command(item)]
    case Bare => [Command(item)]
    case Host(_) =>
      if active == item.profile && !item.isolated then [Command(item)]
      else StopPlan(active) + [Prepare, Start(item.profile), Command(item)]
  }

  /** The plan carried out as the entries from number `from` on, up to the first failure. */
  function CarriedOut(plan: seq<Action>, from: nat, fails: nat -> bool): seq<Entry>
    decreases |plan|
  {
    if |plan| == 0 then []
    else
      [Entry(plan[0], !fails(from))] + if fails(from) then [] else CarriedOut(plan[1..], from + 1, fails)
  }

  lemma {:induction false} OneOf(a: Action, from: nat, fails: nat -> bool)
    ensures CarriedOut([a], from, fails) == [Entry(a, !fails(from))]
  {
  }

  lemma TwoOf(a: Action, b: Action, from: nat, fails: nat -> bool)
    ensures CarriedOut([a, b], from, fails) ==
      [Entry(a, !fails(from))] + if fails(from) then [] else [Entry(b, !fails(from + 1))]
  {
    assert [a, b][1..] == [b];
    OneOf(b, from + 1, fails);
  }

  lemma {:induction false} ThreeOf(a: Action, b: Action, c: Action, from: nat, fails: nat -> bool)
    ensures CarriedOut([a, b, c], from, fails) ==
      [Entry(a, !fails(from))] + if fails(from) then [] else CarriedOut([b, c], from + 1, fails)
  {
    assert [a, b, c][1..] == [b, c];
  }

  lemma StopThen(active: Profile, plan: seq<Action>, from: nat, fails: nat -> bool)
    ensures CarriedOut(StopPlan(active) + plan, from, fails) ==
      if active == Bare then CarriedOut(plan, from, fails)
      else [Entry(Stop, !fails(from))] + if fails(from) then [] else CarriedOut(plan, from + 1, fails)
  {
    if active == Bare {
      assert StopPlan(active) + plan == plan;
    } else {
      assert (StopPlan(active) + plan)[1..] == plan;
    }
  }

  lemma StoppedFollows(r: Run, fails: nat -> bool)
    ensures RunStopped(r, fails).run.trace ==
      r.trace + CarriedOut(StopPlan(r.active) + [VerifyStopped], |r.trace|, fails)
  {
    StopThen(r.active, [VerifyStopped], |r.trace|, fails);
    OneOf(VerifyStopped, |r.trace|, fails);
    OneOf(VerifyStopped, |r.trace| + 1, fails);
  }

  lemma SelfManagedFollows(r: Run, fails: nat -> bool, item: Item)
    ensures RunSelfManaged(r, fails, item).run.trace ==
      r.trace + CarriedOut(StopPlan(r.active) + [Prepare, Command(item)], |r.trace|, fails)
  {
    StopThen(r.active, [Prepare, Command(item)], |r.trace|, fails);
    TwoOf(Prepare, Command(item), |r.trace|, fails);
    TwoOf(Prepare, Command(item), |r.trace| + 1, fails);
  }

  lemma HostedFollows(r: Run, fails: nat -> bool, item: Item)
    requires item.profile.Host? && !(item.profile == r.active && !item.isolated)
    ensures RunHosted(r, fails, item).run.trace ==
      r.trace + CarriedOut(StopPlan(r.active) + [Prepare, Start(item.profile), Command(item)], |r.trace|, fails)
  {
    var n := if r.active == Bare then |r.trace| else |r.trace| + 1;
    StopThen(r.active, [Prepare, Start(item.profile), Command(item)], |r.trace|, fails);
    ThreeOf(Prepare, Start(item.profile), Command(item), n, fails);
    TwoOf(Start(item.profile), Command(item), n + 1, fails);
  }

  /** The check itself does what its plan says, up to the first failure. */
  lemma BodyFollowsThePlan(r: Run, fails: nat -> bool, item: Item)
    ensures RunBody(r, fails, item).run.trace == r.trace + CarriedOut(Plan(r.active, item), |r.trace|, fails)
  {
    match item.profile
    case Stopped => StoppedFollows(r, fails);
    case SelfManaged => SelfManagedFollows(r, fails, item);
    case Bare => OneOf(Command(item), |r.trace|, fails);
    case Host(_) =>
      if item.profile == r.active && !item.isolated { OneOf(Command(item), |r.trace|, fails); }
      else { HostedFollows(r, fails, item); }
  }

  /** And then an isolated check stops what is up and resets the database, whether it passed or not. */
  lemma CleanupFollows(r: Run, fails: nat -> bool, item: Item)
    ensures var body := RunBody(r, fails, item).run;
      RunItem(r, fails, item).run.trace == body.trace +
        if item.isolated && (item.profile == Bare || item.profile.Host?)
        then CarriedOut(StopPlan(body.active) + [Reset], |body.trace|, fails) else []
  {
    var body := RunBody(r, fails, item).run;
    StopThen(body.active, [Reset], |body.trace|, fails);
    OneOf(Reset, |body.trace|, fails);
    OneOf(Reset, |body.trace| + 1, fails);
  }

  /** The trace ends with a reset under an idle host, or with a stop that failed. */
  predicate CleanedUp(trace: seq<Entry>) {
    && |trace| > 0
    && var last := trace[|trace| - 1];
    || (last.action == Reset && HostAfter(trace[..|trace| - 1]) == Idle)
    || last == Entry(Stop, false)
  }

  /**
   * After an isolated check, however it went and whatever fails, the last effect is a reset of the
   * database under an idle host, unless the host could not be stopped.
   */
  lemma IsolatedChecksAlwaysCleanUp(r: Run, fails: nat -> bool, item: Item)
    requires InOrder(r) && CleansUp(item)
    ensures CleanedUp(RunItem(r, fails, item).run.trace)
  {
    var body := RunBody(r, fails, item).run;
    BodyKeepsOrder(r, fails, item);
    CleanupFollows(r, fails, item);
    StopThen(body.active, [Reset], |body.trace|, fails);
    OneOf(Reset, |body.trace|, fails);
    OneOf(Reset, |body.trace| + 1, fails);
    var trace := RunItem(r, fails, item).run.trace;
    if body.active == Bare {
      assert trace[..|trace| - 1] == body.trace;
    } else if !fails(|body.trace|) {
      OneMoreEntry(body.trace, Entry(Stop, true));
      assert trace[..|trace| - 1] == body.trace + [Entry(Stop, true)];
    }
  }

  /** The run of a matrix is what the last check that ran left. */
  lemma {:induction false} LastCheckEndsIt(r: Run, fails: nat -> bool, matrix: seq<Item>)
    requires InOrder(r) && |matrix| > 0
    ensures InOrder(LastStart(r, fails, matrix))
    ensures var report := Execute(r, fails, matrix);
      && 0 < |report.checks| <= |matrix|
      && report.run == RunItem(LastStart(r, fails, matrix), fails, matrix[|report.checks| - 1]).run
    decreases |matrix|
  {
    var a := RunItem(r, fails, matrix[0]);
    if a.ok && |matrix| > 1 {
      ItemKeepsOrder(r, fails, matrix[0]);
      LastCheckEndsIt(a.run, fails, matrix[1..]);
    }
  }

  lemma CleanedAfter(r: Run, fails: nat -> bool, item: Item, trace: seq<Entry>)
    requires InOrder(r) && trace == RunItem(r, fails, item).run.trace
    ensures CleansUp(item) ==> CleanedUp(trace)
  {
    if CleansUp(item) { IsolatedChecksAlwaysCleanUp(r, fails, item); }
  }

  /** So over any matrix: when the last check that ran is isolated, passed or not, it was cleaned up after. */
  lemma {:induction false} MatrixAlwaysCleansUp(r: Run, fails: nat -> bool, matrix: seq<Item>)
    requires InOrder(r) && |matrix| > 0
    ensures var report := Execute(r, fails, matrix);
      && 0 < |report.checks| <= |matrix|
      && (CleansUp(matrix[|report.checks| - 1]) ==> CleanedUp(report.run.trace))
  {
    LastCheckEndsIt(r, fails, matrix);
    var report, last := Execute(r, fails, matrix), LastStart(r, fails, matrix);
    CleanedAfter(last, fails, matrix[|report.checks| - 1], report.run.trace);
  }
}
