/**
 * The verification matrix and its executor. Every effect is one entry of a trace, and an arbitrary
 * pattern says which entries fail. What the host is doing is read off the trace alone.
 */
module MatrixSpec {
  import opened Base

  datatype Profile = Bare | Host(name: string) | SelfManaged | Stopped

  /** `required` is true of every check by its type. */
  datatype Item = Item(name: string, profile: Profile, isolated: bool)

  datatype Action = Prepare | Reset | Start(profile: Profile) | Stop | Command(item: Item) | VerifyStopped

  datatype Entry = Entry(action: Action, ok: bool)

  datatype Phase = Preparing | Starting | Running | Stopping | VerifyingStopped

  datatype Verdict = Verified | Failed | NotRun

  /** Only a check that ran and failed has a phase. */
  datatype Check = Check(name: string, result: Verdict, phase: Option<Phase>)

  // ----- the host, as the trace tells it -----

  datatype HostState = Idle | Up(profile: Profile)

  /**
   * What the executor may conclude: a start or a stop that fails leaves the host as it was. Where a
   * failed start leaves processes behind, it is the reset itself that stops them first.
   */
  function HostAfter(trace: seq<Entry>): HostState {
    if |trace| == 0 then Idle
    else
      var last := trace[|trace| - 1];
      if last.ok && last.action.Start? then Up(last.action.profile)
      else if last.ok && last.action.Stop? then Idle
      else HostAfter(trace[..|trace| - 1])
  }

  /** The database changes hands only under an idle host, and a host check meets its own profile. */
  predicate Allowed(host: HostState, action: Action) {
    match action
    case Prepare => host == Idle
    case Reset => host == Idle
    case Start(profile) => host == Idle && profile.Host?
    case Stop => host.Up?
    case VerifyStopped => host == Idle
    case Command(item) =>
      && (item.profile.Host? ==> host == Up(item.profile))
      && (item.profile.SelfManaged? ==> host == Idle)
      && !item.profile.Stopped?
  }

  predicate Orderly(trace: seq<Entry>) {
    forall i :: 0 <= i < |trace| ==> Allowed(HostAfter(trace[..i]), trace[i].action)
  }

  predicate AllOk(trace: seq<Entry>) {
    forall i :: 0 <= i < |trace| ==> trace[i].ok
  }

  // ----- one check -----

  /** The executor's own idea of the active profile, and the effects so far. */
  datatype Run = Run(trace: seq<Entry>, active: Profile)

  /** Whether the effect that comes next succeeds. */
  predicate Succeeds(r: Run, fails: nat -> bool) {
    !fails(|r.trace|)
  }

  function Did(r: Run, fails: nat -> bool, action: Action): Run {
    r.(trace := r.trace + [Entry(action, Succeeds(r, fails))])
  }

  datatype Attempt = Attempt(run: Run, ok: bool, phase: Phase)

  function StopIfActive(r: Run, fails: nat -> bool): (Run, bool) {
    if r.active == Bare then (r, true)
    else if Succeeds(r, fails) then (Did(r, fails, Stop).(active := Bare), true)
    else (Did(r, fails, Stop), false)
  }

  function RunStopped(r: Run, fails: nat -> bool): Attempt {
    var (r1, stopped) := StopIfActive(r, fails);
    if !stopped then Attempt(r1, false, Stopping)
    else Attempt(Did(r1, fails, VerifyStopped), Succeeds(r1, fails), VerifyingStopped)
  }

  function RunSelfManaged(r: Run, fails: nat -> bool, item: Item): Attempt {
    var (r1, stopped) := StopIfActive(r, fails);
    if !stopped then Attempt(r1, false, Running)
    else
      var r2 := Did(r1, fails, Prepare);
      if !Succeeds(r1, fails) then Attempt(r2, false, Preparing)
      else Attempt(Did(r2, fails, Command(item)), Succeeds(r2, fails), Running)
  }

  function RunCommand(r: Run, fails: nat -> bool, item: Item): Attempt {
    Attempt(Did(r, fails, Command(item)), Succeeds(r, fails), Running)
  }

  function RunHosted(r: Run, fails: nat -> bool, item: Item): Attempt {
    if item.profile == Bare || (item.profile == r.active && !item.isolated) then RunCommand(r, fails, item)
    else
      var (r1, stopped) := StopIfActive(r, fails);
      if !stopped then Attempt(r1, false, Stopping)
      else
        var r2 := Did(r1, fails, Prepare);
        if !Succeeds(r1, fails) then Attempt(r2, false, Preparing)
        else
          var r3 := Did(r2, fails, Start(item.profile));
          if !Succeeds(r2, fails) then Attempt(r3, false, Starting)
          else RunCommand(r3.(active := item.profile), fails, item)
  }

  function RunBody(r: Run, fails: nat -> bool, item: Item): Attempt {
    match item.profile
    case Stopped => RunStopped(r, fails)
    case SelfManaged => RunSelfManaged(r, fails, item)
    case _ => RunHosted(r, fails, item)
  }

  /** The `finally` of an isolated check: stop, then reset, and any failure there is the check's. */
  function CleanUp(a: Attempt, fails: nat -> bool, item: Item): Attempt {
    if !item.isolated || item.profile == SelfManaged || item.profile == Stopped then a
    else
      var (r1, stopped) := StopIfActive(a.run, fails);
      if !stopped then a.(run := r1, ok := false)
      else a.(run := Did(r1, fails, Reset), ok := a.ok && Succeeds(r1, fails))
  }

  function RunItem(r: Run, fails: nat -> bool, item: Item): Attempt {
    CleanUp(RunBody(r, fails, item), fails, item)
  }

  datatype Report = Report(run: Run, checks: seq<Check>)

  function CheckOf(a: Attempt, item: Item): Check {
    Check(item.name, if a.ok then Verified else Failed, if a.ok then None else Some(a.phase))
  }

  /** The loop: one check after the other until one fails. */
  function Execute(r: Run, fails: nat -> bool, matrix: seq<Item>): Report
    decreases |matrix|
  {
    if |matrix| == 0 then Report(r, [])
    else
      var a := RunItem(r, fails, matrix[0]);
      if !a.ok then Report(a.run, [CheckOf(a, matrix[0])])
      else
        var rest := Execute(a.run, fails, matrix[1..]);
        Report(rest.run, [CheckOf(a, matrix[0])] + rest.checks)
  }

  // ----- the aggregate -----

  predicate Passes(checks: seq<Check>) {
    forall i :: 0 <= i < |checks| ==> checks[i].result == Verified
  }

  predicate Reported(checks: seq<Check>, name: string) {
    exists i :: 0 <= i < |checks| && checks[i].name == name
  }

  /** Names of the matrix without a check are reported as not run, in matrix order. */
  function Completed(checks: seq<Check>, done: seq<Check>, matrix: seq<Item>): seq<Check>
    decreases |matrix|
  {
    if |matrix| == 0 then checks
    else if Reported(done, matrix[0].name) then Completed(checks, done, matrix[1..])
    else Completed(checks + [Check(matrix[0].name, NotRun, None)], done, matrix[1..])
  }

  const CLEANUP := "cleanup"

  function Full(matrix: seq<Item>, fails: nat -> bool, stopsFirst: bool, stopsLast: bool): seq<Check> {
    var ran := if stopsFirst then Execute(Run([], Bare), fails, matrix).checks else [];
    var checks := if stopsFirst && stopsLast then ran else ran + [Check(CLEANUP, Failed, None)];
    Completed(checks, checks, matrix)
  }

  /** The result: passed, and the report of it written. */
  function Result(matrix: seq<Item>, fails: nat -> bool, stopsFirst: bool, stopsLast: bool, written: bool): Verdict {
    if written && Passes(Full(matrix, fails, stopsFirst, stopsLast)) then Verified else Failed
  }
}
