/** What the executor does over every matrix and every pattern of failing effects. */
module MatrixGuarantees {
  import opened Base
  import opened MatrixSpec

  // ----- the host -----

  /** The effects so far were in order, and the executor's idea of the active profile is the host's state. */
  predicate InOrder(r: Run) {
    && Orderly(r.trace)
    && (if r.active == Bare then HostAfter(r.trace) == Idle else r.active.Host? && HostAfter(r.trace) == Up(r.active))
  }

  lemma {:induction false} OneMoreEntry(trace: seq<Entry>, e: Entry)
    requires Orderly(trace) && Allowed(HostAfter(trace), e.action)
    ensures Orderly(trace + [e])
    ensures HostAfter(trace + [e]) ==
      if e.ok && e.action.Start? then Up(e.action.profile)
      else if e.ok && e.action.Stop? then Idle
      else HostAfter(trace)
  {
    var longer := trace + [e];
    assert longer[..|trace|] == trace;
    forall i | 0 <= i < |longer| ensures Allowed(HostAfter(longer[..i]), longer[i].action) {
      if i < |trace| { assert longer[..i] == trace[..i]; }
    }
  }

  lemma StopKeepsOrder(r: Run, fails: nat -> bool)
    requires InOrder(r)
    ensures var (r1, stopped) := StopIfActive(r, fails); InOrder(r1) && (stopped ==> r1.active == Bare)
  {
    if r.active != Bare { OneMoreEntry(r.trace, Entry(Stop, Succeeds(r, fails))); }
  }

  /** Effects that leave the host alone. */
  lemma StayKeepsOrder(r: Run, fails: nat -> bool, action: Action)
    requires InOrder(r) && Allowed(HostAfter(r.trace), action) && !action.Start? && !action.Stop?
    ensures InOrder(Did(r, fails, action)) && Did(r, fails, action).active == r.active
  {
    OneMoreEntry(r.trace, Entry(action, Succeeds(r, fails)));
  }

  lemma StartKeepsOrder(r: Run, fails: nat -> bool, profile: Profile)
    requires InOrder(r) && r.active == Bare && profile.Host?
    ensures var started := Did(r, fails, Start(profile));
      InOrder(if Succeeds(r, fails) then started.(active := profile) else started)
  {
    OneMoreEntry(r.trace, Entry(Start(profile), Succeeds(r, fails)));
  }

  lemma HostedKeepsOrder(r: Run, fails: nat -> bool, item: Item)
    requires InOrder(r) && (item.profile.Host? || item.profile == Bare)
    ensures InOrder(RunHosted(r, fails, item).run)
  {
    if item.profile == Bare || (item.profile == r.active && !item.isolated) {
      StayKeepsOrder(r, fails, Command(item));
    } else {
      StopKeepsOrder(r, fails);
      var (r1, stopped) := StopIfActive(r, fails);
      if stopped {
        StayKeepsOrder(r1, fails, Prepare);
        var r2 := Did(r1, fails, Prepare);
        if Succeeds(r1, fails) {
          StartKeepsOrder(r2, fails, item.profile);
          var r3 := Did(r2, fails, Start(item.profile)).(active := item.profile);
          if Succeeds(r2, fails) { StayKeepsOrder(r3, fails, Command(item)); }
        }
      }
    }
  }

  lemma StoppedKeepsOrder(r: Run, fails: nat -> bool)
    requires InOrder(r)
    ensures InOrder(RunStopped(r, fails).run)
  {
    StopKeepsOrder(r, fails);
    var (r1, stopped) := StopIfActive(r, fails);
    if stopped { StayKeepsOrder(r1, fails, VerifyStopped); }
  }

  lemma SelfManagedKeepsOrder(r: Run, fails: nat -> bool, item: Item)
    requires InOrder(r) && item.profile == SelfManaged
    ensures InOrder(RunSelfManaged(r, fails, item).run)
  {
    StopKeepsOrder(r, fails);
    var (r1, stopped) := StopIfActive(r, fails);
    if stopped {
      StayKeepsOrder(r1, fails, Prepare);
      if Succeeds(r1, fails) { StayKeepsOrder(Did(r1, fails, Prepare), fails, Command(item)); }
    }
  }

  lemma BodyKeepsOrder(r: Run, fails: nat -> bool, item: Item)
    requires InOrder(r)
    ensures InOrder(RunBody(r, fails, item).run)
  {
    match item.profile
    case Stopped => StoppedKeepsOrder(r, fails);
    case SelfManaged => SelfManagedKeepsOrder(r, fails, item);
    case _ => HostedKeepsOrder(r, fails, item);
  }

  lemma ItemKeepsOrder(r: Run, fails: nat -> bool, item: Item)
    requires InOrder(r)
    ensures InOrder(RunItem(r, fails, item).run)
  {
    BodyKeepsOrder(r, fails, item);
    var a := RunBody(r, fails, item);
    StopKeepsOrder(a.run, fails);
    var (r1, stopped) := StopIfActive(a.run, fails);
    if stopped { StayKeepsOrder(r1, fails, Reset); }
  }

  lemma {:induction false} MatrixKeepsOrder(r: Run, fails: nat -> bool, matrix: seq<Item>)
    requires InOrder(r)
    ensures InOrder(Execute(r, fails, matrix).run)
    decreases |matrix|
  {
    if |matrix| > 0 {
      ItemKeepsOrder(r, fails, matrix[0]);
      var a := RunItem(r, fails, matrix[0]);
      if a.ok { MatrixKeepsOrder(a.run, fails, matrix[1..]); }
    }
  }

  /**
   * Whatever the matrix and whatever fails: a command with a host profile runs only while that
   * profile is up, the database is prepared or reset only while nothing is up, a profile is started
   * only on an idle host, and the stopped state is verified only when nothing is up.
   */
  lemma {:induction false} EveryTraceIsOrderly(matrix: seq<Item>, fails: nat -> bool, i: nat)
    requires i < |Execute(Run([], Bare), fails, matrix).run.trace|
    ensures var trace := Execute(Run([], Bare), fails, matrix).run.trace;
      Allowed(HostAfter(trace[..i]), trace[i].action)
  {
    MatrixKeepsOrder(Run([], Bare), fails, matrix);
  }

  // ----- results and failures -----

  /** An attempt goes wrong exactly when one of its effects failed. */
  predicate Honest(r: Run, a: Attempt) {
    r.trace <= a.run.trace && (a.ok <==> AllOk(a.run.trace[|r.trace|..]))
  }

  lemma StopIsHonest(r: Run, fails: nat -> bool)
    ensures var (r1, stopped) := StopIfActive(r, fails); Honest(r, Attempt(r1, stopped, Running))
  {
    if r.active == Bare {
      assert r.trace[|r.trace|..] == [];
    } else {
      OneEffectIsHonest(r, fails, Stop, r.active, Running);
    }
  }

  lemma Tails(a: seq<Entry>, b: seq<Entry>, c: seq<Entry>)
    requires a <= b <= c
    ensures c[|a|..] == b[|a|..] + c[|b|..]
  {
  }

  lemma AndThen(r: Run, a: Attempt, b: Attempt)
    requires Honest(r, a) && a.ok && Honest(a.run, b)
    ensures Honest(r, b)
  {
    Tails(r.trace, a.run.trace, b.run.trace);
  }

  lemma OneEffectIsHonest(r: Run, fails: nat -> bool, action: Action, active: Profile, phase: Phase)
    ensures Honest(r, Attempt(Did(r, fails, action).(active := active), Succeeds(r, fails), phase))
  {
    var tail := Did(r, fails, action).trace[|r.trace|..];
    assert tail == [Entry(action, Succeeds(r, fails))] && tail[0].ok == Succeeds(r, fails);
  }

  lemma HostedIsHonest(r: Run, fails: nat -> bool, item: Item)
    ensures Honest(r, RunHosted(r, fails, item))
  {
    OneEffectIsHonest(r, fails, Command(item), r.active, Running);
    if !(item.profile == Bare || (item.profile == r.active && !item.isolated)) {
      StopIsHonest(r, fails);
      var (r1, stopped) := StopIfActive(r, fails);
      if stopped {
        var r2 := Did(r1, fails, Prepare);
        OneEffectIsHonest(r1, fails, Prepare, r1.active, Preparing);
        AndThen(r, Attempt(r1, true, Stopping), Attempt(r2, Succeeds(r1, fails), Preparing));
        if Succeeds(r1, fails) {
          var r3 := Did(r2, fails, Start(item.profile)).(active := item.profile);
          OneEffectIsHonest(r2, fails, Start(item.profile), item.profile, Starting);
          AndThen(r, Attempt(r2, true, Preparing), Attempt(r3, Succeeds(r2, fails), Starting));
          if Succeeds(r2, fails) {
            OneEffectIsHonest(r3, fails, Command(item), item.profile, Running);
            AndThen(r, Attempt(r3, true, Starting), RunCommand(r3, fails, item));
          }
        }
      }
    }
  }

  lemma BodyIsHonest(r: Run, fails: nat -> bool, item: Item)
    ensures Honest(r, RunBody(r, fails, item))
  {
    StopIsHonest(r, fails);
    var (r1, stopped) := StopIfActive(r, fails);
    match item.profile
    case Stopped =>
      if stopped {
        OneEffectIsHonest(r1, fails, VerifyStopped, r1.active, VerifyingStopped);
        AndThen(r, Attempt(r1, true, Stopping), RunStopped(r, fails));
      }
    case SelfManaged =>
      if stopped {
        var r2 := Did(r1, fails, Prepare);
        OneEffectIsHonest(r1, fails, Prepare, r1.active, Preparing);
        AndThen(r, Attempt(r1, true, Running), Attempt(r2, Succeeds(r1, fails), Preparing));
        if Succeeds(r1, fails) {
          OneEffectIsHonest(r2, fails, Command(item), r2.active, Running);
          AndThen(r, Attempt(r2, true, Preparing), RunSelfManaged(r, fails, item));
        }
      }
    case _ => HostedIsHonest(r, fails, item);
  }

  lemma FailureSticks(r: Run, a: Attempt, b: Attempt)
    requires Honest(r, a) && !a.ok && a.run.trace <= b.run.trace && !b.ok
    ensures Honest(r, b)
  {
    var i :| 0 <= i < |a.run.trace[|r.trace|..]| && !a.run.trace[|r.trace|..][i].ok;
    assert b.run.trace[|r.trace|..][i] == a.run.trace[|r.trace|..][i];
  }

  lemma ItemIsHonest(r: Run, fails: nat -> bool, item: Item)
    ensures Honest(r, RunItem(r, fails, item))
  {
    BodyIsHonest(r, fails, item);
    var a, b := RunBody(r, fails, item), RunItem(r, fails, item);
    if item.isolated && item.profile != SelfManaged && item.profile != Stopped {
      StopIsHonest(a.run, fails);
      var (r1, stopped) := StopIfActive(a.run, fails);
      OneEffectIsHonest(r1, fails, Reset, r1.active, a.phase);
      if !a.ok {
        FailureSticks(r, a, b);
      } else {
        AndThen(r, a, Attempt(r1, stopped, a.phase));
        if stopped { AndThen(r, Attempt(r1, true, a.phase), b); }
      }
    }
  }

  /** The checks are the first ones of the matrix in order; all but the last passed, and it did unless cut short. */
  lemma {:induction false} ResultsAreAPrefix(r: Run, fails: nat -> bool, matrix: seq<Item>)
    ensures var checks := Execute(r, fails, matrix).checks;
      && |checks| <= |matrix|
      && (forall i :: 0 <= i < |checks| ==> checks[i].name == matrix[i].name && checks[i].result != NotRun)
      && (forall i :: 0 <= i < |checks| - 1 ==> checks[i].result == Verified)
      && (|checks| < |matrix| ==> |checks| > 0 && checks[|checks| - 1].result == Failed)
      && (forall i :: 0 <= i < |checks| ==> (checks[i].phase.Some? <==> checks[i].result == Failed))
    decreases |matrix|
  {
    if |matrix| > 0 {
      var a := RunItem(r, fails, matrix[0]);
      if a.ok { ResultsAreAPrefix(a.run, fails, matrix[1..]); }
    }
  }

  /** All checks passed exactly when no effect failed. */
  lemma {:induction false} ChecksPassExactlyWhenEffectsDo(r: Run, fails: nat -> bool, matrix: seq<Item>)
    ensures r.trace <= Execute(r, fails, matrix).run.trace
    ensures Passes(Execute(r, fails, matrix).checks) <==> AllOk(Execute(r, fails, matrix).run.trace[|r.trace|..])
    decreases |matrix|
  {
    if |matrix| > 0 {
      var a := RunItem(r, fails, matrix[0]);
      ItemIsHonest(r, fails, matrix[0]);
      var head := CheckOf(a, matrix[0]);
      if a.ok {
        ChecksPassExactlyWhenEffectsDo(a.run, fails, matrix[1..]);
        var rest := Execute(a.run, fails, matrix[1..]);
        Tails(r.trace, a.run.trace, rest.run.trace);
        PassesCons(head, rest.checks);
        AllOkConcat(a.run.trace[|r.trace|..], rest.run.trace[|a.run.trace|..]);
      } else {
        assert [head][0].result == Failed;
      }
    }
  }

  lemma PassesCons(head: Check, rest: seq<Check>)
    ensures Passes([head] + rest) <==> head.result == Verified && Passes(rest)
  {
    var checks := [head] + rest;
    assert checks[0] == head && forall i :: 0 <= i < |rest| ==> checks[i + 1] == rest[i];
  }

  lemma AllOkConcat(a: seq<Entry>, b: seq<Entry>)
    ensures AllOk(a + b) <==> AllOk(a) && AllOk(b)
  {
    if AllOk(a + b) {
      forall i | 0 <= i < |a| ensures a[i].ok { assert (a + b)[i] == a[i]; }
      forall i | 0 <= i < |b| ensures b[i].ok { assert (a + b)[|a| + i] == b[i]; }
    }
  }

  // ----- commands -----

  function Commands(trace: seq<Entry>): seq<Item> {
    if |trace| == 0 then []
    else
      var last := trace[|trace| - 1];
      Commands(trace[..|trace| - 1]) + if last.action.Command? then [last.action.item] else []
  }

  function Commanded(matrix: seq<Item>): seq<Item> {
    if |matrix| == 0 then []
    else (if matrix[0].profile == Stopped then [] else [matrix[0]]) + Commanded(matrix[1..])
  }

  lemma {:induction false} CommandsAfter(trace: seq<Entry>, e: Entry)
    ensures Commands(trace + [e]) == Commands(trace) + if e.action.Command? then [e.action.item] else []
  {
    assert (trace + [e])[..|trace|] == trace;
  }

  lemma QuietCommands(r: Run, fails: nat -> bool, action: Action)
    requires !action.Command?
    ensures Commands(Did(r, fails, action).trace) == Commands(r.trace)
  {
    CommandsAfter(r.trace, Entry(action, Succeeds(r, fails)));
  }

  lemma LoudCommands(r: Run, fails: nat -> bool, item: Item)
    ensures Commands(Did(r, fails, Command(item)).trace) == Commands(r.trace) + [item]
  {
    CommandsAfter(r.trace, Entry(Command(item), Succeeds(r, fails)));
  }

  lemma StopCommands(r: Run, fails: nat -> bool)
    ensures Commands(StopIfActive(r, fails).0.trace) == Commands(r.trace)
  {
    if r.active != Bare { QuietCommands(r, fails, Stop); }
  }

  /** The command issued by an attempt of `item` that got so far: its own, if it has one. */
  predicate IssuesOwn(r: Run, a: Attempt, item: Item) {
    var before, after := Commands(r.trace), Commands(a.run.trace);
    if item.profile == Stopped then after == before
    else (after == before && !a.ok) || after == before + [item]
  }

  lemma HostedCommands(r: Run, fails: nat -> bool, item: Item)
    requires item.profile != Stopped
    ensures IssuesOwn(r, RunHosted(r, fails, item), item)
  {
    if item.profile == Bare || (item.profile == r.active && !item.isolated) {
      LoudCommands(r, fails, item);
    } else {
      StopCommands(r, fails);
      var (r1, stopped) := StopIfActive(r, fails);
      if stopped {
        QuietCommands(r1, fails, Prepare);
        var r2 := Did(r1, fails, Prepare);
        if Succeeds(r1, fails) {
          QuietCommands(r2, fails, Start(item.profile));
          if Succeeds(r2, fails) {
            LoudCommands(Did(r2, fails, Start(item.profile)).(active := item.profile), fails, item);
          }
        }
      }
    }
  }

  lemma SelfManagedCommands(r: Run, fails: nat -> bool, item: Item)
    requires item.profile != Stopped
    ensures IssuesOwn(r, RunSelfManaged(r, fails, item), item)
  {
    StopCommands(r, fails);
    var (r1, stopped) := StopIfActive(r, fails);
    if stopped {
      QuietCommands(r1, fails, Prepare);
      if Succeeds(r1, fails) { LoudCommands(Did(r1, fails, Prepare), fails, item); }
    }
  }

  lemma StoppedCommands(r: Run, fails: nat -> bool)
    ensures Commands(RunStopped(r, fails).run.trace) == Commands(r.trace)
  {
    StopCommands(r, fails);
    var (r1, stopped) := StopIfActive(r, fails);
    if stopped { QuietCommands(r1, fails, VerifyStopped); }
  }

  lemma BodyCommands(r: Run, fails: nat -> bool, item: Item)
    ensures IssuesOwn(r, RunBody(r, fails, item), item)
  {
    match item.profile
    case Stopped => StoppedCommands(r, fails);
    case SelfManaged => SelfManagedCommands(r, fails, item);
    case _ => HostedCommands(r, fails, item);
  }

  lemma ItemCommands(r: Run, fails: nat -> bool, item: Item)
    ensures IssuesOwn(r, RunItem(r, fails, item), item)
  {
    BodyCommands(r, fails, item);
    var a := RunBody(r, fails, item);
    StopCommands(a.run, fails);
    QuietCommands(StopIfActive(a.run, fails).0, fails, Reset);
  }

  lemma Associates(a: seq<Item>, b: seq<Item>, c: seq<Item>)
    ensures (a + b) + c == a + (b + c)
    ensures a <= a + (b + c) && a + b <= a + (b + c)
  {
  }

  /** Each check's command is issued once, in matrix order, and none after a failure; all of them if nothing fails. */
  lemma {:induction false} CommandsFollowTheMatrix(r: Run, fails: nat -> bool, matrix: seq<Item>)
    ensures var report := Execute(r, fails, matrix);
      && Commands(report.run.trace) <= Commands(r.trace) + Commanded(matrix)
      && (Passes(report.checks) ==> Commands(report.run.trace) == Commands(r.trace) + Commanded(matrix))
    decreases |matrix|
  {
    if |matrix| > 0 {
      var a, before := RunItem(r, fails, matrix[0]), Commands(r.trace);
      var own := if matrix[0].profile == Stopped then [] else [matrix[0]];
      ItemCommands(r, fails, matrix[0]);
      Associates(before, own, Commanded(matrix[1..]));
      if a.ok {
        assert Commands(a.run.trace) == before + own;
        CommandsFollowTheMatrix(a.run, fails, matrix[1..]);
        PassesCons(CheckOf(a, matrix[0]), Execute(a.run, fails, matrix[1..]).checks);
      } else {
        assert Commands(a.run.trace) == before || Commands(a.run.trace) == before + own;
        assert [CheckOf(a, matrix[0])][0].result == Failed;
      }
    }
  }

  /** After an isolated check that passed the host is idle and the database was reset last. */
  lemma IsolatedChecksLeaveNothing(r: Run, fails: nat -> bool, item: Item)
    requires InOrder(r) && item.isolated && (item.profile.Host? || item.profile == Bare)
    ensures var a := RunItem(r, fails, item);
      a.ok ==>
        && a.run.active == Bare && HostAfter(a.run.trace) == Idle && |a.run.trace| > 0
        && a.run.trace[|a.run.trace| - 1] == Entry(Reset, true)
  {
    ItemKeepsOrder(r, fails, item);
  }

  // ----- the aggregate -----

  predicate Lists(matrix: seq<Item>, name: string) {
    exists i :: 0 <= i < |matrix| && matrix[i].name == name
  }

  lemma {:induction false} CompletionReports(checks: seq<Check>, done: seq<Check>, matrix: seq<Item>)
    ensures var full := Completed(checks, done, matrix);
      && checks <= full
      && (forall i :: |checks| <= i < |full| ==> full[i] == Check(full[i].name, NotRun, None))
      && (forall i :: |checks| <= i < |full| ==> Lists(matrix, full[i].name) && !Reported(done, full[i].name))
      && (forall i :: 0 <= i < |matrix| ==> Reported(done, matrix[i].name) || Reported(full, matrix[i].name))
      && ((forall i :: 0 <= i < |matrix| ==> Reported(done, matrix[i].name)) <==> full == checks)
    decreases |matrix|
  {
    if |matrix| > 0 {
      if Reported(done, matrix[0].name) {
        CompletionReports(checks, done, matrix[1..]);
      } else {
        var more := checks + [Check(matrix[0].name, NotRun, None)];
        CompletionReports(more, done, matrix[1..]);
        var full := Completed(more, done, matrix[1..]);
        assert full[|checks|] == more[|checks|];
      }
      forall i | 0 <= i < |matrix|
        ensures Reported(done, matrix[i].name) || Reported(Completed(checks, done, matrix), matrix[i].name)
      {
        if i > 0 { assert matrix[1..][i - 1] == matrix[i]; }
      }
      assert forall i :: 0 <= i < |matrix[1..]| ==> matrix[1..][i] == matrix[i + 1];
      assert Lists(matrix, matrix[0].name);
      forall name | Lists(matrix[1..], name) ensures Lists(matrix, name) {
        var i :| 0 <= i < |matrix[1..]| && matrix[1..][i].name == name;
        assert matrix[i + 1].name == name;
      }
    }
  }

  /**
   * Every check of the matrix appears in the report: first those that ran, then a failed cleanup if a
   * stop failed, and all others of the matrix, and no more, as not run.
   */
  lemma NothingGoesUnreported(matrix: seq<Item>, fails: nat -> bool, stopsFirst: bool, stopsLast: bool, i: nat)
    requires i < |matrix|
    ensures Reported(Full(matrix, fails, stopsFirst, stopsLast), matrix[i].name)
    ensures var full := Full(matrix, fails, stopsFirst, stopsLast);
      var checks := (if stopsFirst then Execute(Run([], Bare), fails, matrix).checks else [])
        + if stopsFirst && stopsLast then [] else [Check("cleanup", Failed, None)];
      && checks <= full
      && forall k :: |checks| <= k < |full| ==>
        full[k] == Check(full[k].name, NotRun, None) && Lists(matrix, full[k].name) && !Reported(checks, full[k].name)
  {
    var ran := if stopsFirst then Execute(Run([], Bare), fails, matrix).checks else [];
    var checks := if stopsFirst && stopsLast then ran else ran + [Check(CLEANUP, Failed, None)];
    CompletionReports(checks, checks, matrix);
    var full := Full(matrix, fails, stopsFirst, stopsLast);
    if Reported(checks, matrix[i].name) {
      var k :| 0 <= k < |checks| && checks[k].name == matrix[i].name;
      assert full[k] == checks[k];
    }
  }

  lemma PrefixPasses(checks: seq<Check>, full: seq<Check>)
    requires checks <= full && Passes(full)
    ensures Passes(checks)
  {
    forall i | 0 <= i < |checks| ensures checks[i].result == Verified { assert checks[i] == full[i]; }
  }

  lemma {:induction false} AllPassMeansAllReported(fails: nat -> bool, matrix: seq<Item>, i: nat)
    requires Passes(Execute(Run([], Bare), fails, matrix).checks) && i < |matrix|
    ensures Reported(Execute(Run([], Bare), fails, matrix).checks, matrix[i].name)
  {
    ResultsAreAPrefix(Run([], Bare), fails, matrix);
    var checks := Execute(Run([], Bare), fails, matrix).checks;
    assert checks[i].name == matrix[i].name;
  }

  /**
   * The verdict is `Verified` exactly when the first and the last stop succeeded, no effect of the
   * whole matrix failed, and the report was written; then every command ran, once and in order.
   */
  lemma {:induction false} VerifiedExactlyWhenAllWentWell(
    matrix: seq<Item>, fails: nat -> bool, stopsFirst: bool, stopsLast: bool, written: bool)
    ensures var report := Execute(Run([], Bare), fails, matrix);
      Result(matrix, fails, stopsFirst, stopsLast, written) == Verified <==>
        stopsFirst && stopsLast && written && AllOk(report.run.trace)
    ensures Result(matrix, fails, stopsFirst, stopsLast, written) == Verified ==>
      Commands(Execute(Run([], Bare), fails, matrix).run.trace) == Commanded(matrix)
  {
    var start := Run([], Bare);
    var report := Execute(start, fails, matrix);
    ChecksPassExactlyWhenEffectsDo(start, fails, matrix);
    CommandsFollowTheMatrix(start, fails, matrix);
    assert report.run.trace[0..] == report.run.trace;
    var ran := if stopsFirst then report.checks else [];
    var checks := if stopsFirst && stopsLast then ran else ran + [Check(CLEANUP, Failed, None)];
    var full := Full(matrix, fails, stopsFirst, stopsLast);
    CompletionReports(checks, checks, matrix);
    if !(stopsFirst && stopsLast) {
      assert checks[|ran|].result == Failed;
      assert full[|ran|] == checks[|ran|];
    } else if Passes(full) {
      PrefixPasses(checks, full);
    } else if Passes(report.checks) {
      forall i | 0 <= i < |matrix|
        ensures Reported(checks, matrix[i].name)
      {
        AllPassMeansAllReported(fails, matrix, i);
      }
      assert false;
    }
  }

  // ----- the reported phase -----

  /** The phase that an effect belongs to. A reset belongs to none. */
  function PhasesOf(action: Action): set<Phase> {
    match action
    case Prepare => {Preparing}
    case Start(_) => {Starting}
    case Stop => {Stopping}
    case Command(_) => {Running}
    case VerifyStopped => {VerifyingStopped}
    case Reset => {}
  }

  predicate PhaseIs(check: Check, action: Action) {
    check.phase.Some? && check.phase.value in PhasesOf(action)
  }

  /** `i` is the first failing effect from `from` on. */
  predicate FirstFailing(trace: seq<Entry>, from: nat, i: nat) {
    from <= i < |trace| && !trace[i].ok && forall j :: from <= j < i ==> trace[j].ok
  }

  /** The check is cleaned up after in isolation. */
  predicate CleansUp(item: Item) {
    item.isolated && item.profile != SelfManaged && item.profile != Stopped
  }

  /**
   * What a failing `try` block leaves: its last effect is its first failing one; `told` is whether the phase
   * is that effect's.
   */
  predicate EndsAtFailure(r: Run, a: Attempt, told: bool) {
    && r.trace <= a.run.trace
    && if a.ok then forall j :: |r.trace| <= j < |a.run.trace| ==> a.run.trace[j].ok
       else
         && |r.trace| < |a.run.trace| && FirstFailing(a.run.trace, |r.trace|, |a.run.trace| - 1)
         && (a.phase in PhasesOf(a.run.trace[|a.run.trace| - 1].action) <==> told)
  }

  lemma StoppedEndsAtFailure(r: Run, fails: nat -> bool)
    ensures EndsAtFailure(r, RunStopped(r, fails), true)
  {
  }

  lemma SelfManagedEndsAtFailure(r: Run, fails: nat -> bool, item: Item)
    ensures EndsAtFailure(r, RunSelfManaged(r, fails, item), r.active == Bare || Succeeds(r, fails))
  {
  }

  lemma HostedEndsAtFailure(r: Run, fails: nat -> bool, item: Item)
    ensures EndsAtFailure(r, RunHosted(r, fails, item), true)
    ensures RunHosted(r, fails, item).ok ==> RunHosted(r, fails, item).phase == Running
  {
  }

  /**
   * The phase misleads: a self-managed check whose preliminary stop fails, or an isolated check whose
   * own effects succeed, so that what failed was its cleanup.
   */
  predicate PhaseMisleads(r: Run, fails: nat -> bool, item: Item) {
    || (item.profile == SelfManaged && r.active != Bare && !Succeeds(r, fails))
    || (CleansUp(item) && RunBody(r, fails, item).ok)
  }

  lemma BodyEndsAtFailure(r: Run, fails: nat -> bool, item: Item)
    ensures EndsAtFailure(
        r, RunBody(r, fails, item), item.profile != SelfManaged || r.active == Bare || Succeeds(r, fails))
    ensures CleansUp(item) && RunBody(r, fails, item).ok ==> RunBody(r, fails, item).phase == Running
  {
    StoppedEndsAtFailure(r, fails);
    SelfManagedEndsAtFailure(r, fails, item);
    HostedEndsAtFailure(r, fails, item);
  }

  lemma CleaningAppends(a: Attempt, fails: nat -> bool, item: Item)
    ensures var b := CleanUp(a, fails, item);
      && a.run.trace <= b.run.trace && b.phase == a.phase
      && (forall j :: |a.run.trace| <= j < |b.run.trace| ==>
            b.run.trace[j].action == Stop || b.run.trace[j].action == Reset)
      && (!CleansUp(item) ==> b == a)
  {
  }

  lemma PrefixFails(trace: seq<Entry>, longer: seq<Entry>, from: nat, i: nat)
    requires trace <= longer && FirstFailing(longer, from, i)
    ensures i < |trace| ==> FirstFailing(trace, from, i) && longer[i] == trace[i]
    ensures |trace| <= i ==> forall j :: from <= j < |trace| ==> trace[j].ok
  {
    assert forall j :: 0 <= j < |trace| ==> trace[j] == longer[j];
  }

  /** The first failing effect of a check is the last one of its `try` block, or comes after it. */
  lemma WhereItFails(r: Run, fails: nat -> bool, item: Item, i: nat)
    requires FirstFailing(RunItem(r, fails, item).run.trace, |r.trace|, i)
    ensures var body, a := RunBody(r, fails, item), RunItem(r, fails, item);
      && a.phase == body.phase && body.run.trace <= a.run.trace
      && (body.ok ==> |body.run.trace| <= i)
      && (!body.ok ==> i == |body.run.trace| - 1 && a.run.trace[i] == body.run.trace[i])
  {
    var body, a := RunBody(r, fails, item), RunItem(r, fails, item);
    BodyEndsAtFailure(r, fails, item);
    CleaningAppends(body, fails, item);
    PrefixFails(body.run.trace, a.run.trace, |r.trace|, i);
  }

  /**
   * A failed check reports the phase of its first failing effect exactly when that effect is neither
   * the preliminary stop of a self-managed check nor part of a cleanup, which can be told before.
   */
  lemma PhaseIsRightExactly(r: Run, fails: nat -> bool, item: Item, i: nat)
    requires FirstFailing(RunItem(r, fails, item).run.trace, |r.trace|, i)
    ensures var a := RunItem(r, fails, item);
      && (a.phase in PhasesOf(a.run.trace[i].action) <==> !PhaseMisleads(r, fails, item))
      && (PhaseMisleads(r, fails, item) <==>
            (item.profile == SelfManaged && a.run.trace[i].action == Stop) || |RunBody(r, fails, item).run.trace| <= i)
  {
    WhereItFails(r, fails, item, i);
    BodyEndsAtFailure(r, fails, item);
    CleaningAppends(RunBody(r, fails, item), fails, item);
    if item.profile == SelfManaged { SelfManagedStops(r, fails, item); }
  }

  lemma SelfManagedStops(r: Run, fails: nat -> bool, item: Item)
    requires item.profile == SelfManaged
    ensures var a := RunBody(r, fails, item);
      !a.ok ==> (a.run.trace[|a.run.trace| - 1].action == Stop <==> r.active != Bare && !Succeeds(r, fails))
  {
  }

  /** The executor's state when it comes to the last check that it runs. */
  function LastStart(r: Run, fails: nat -> bool, matrix: seq<Item>): Run
    decreases |matrix|
  {
    if |matrix| <= 1 || !RunItem(r, fails, matrix[0]).ok then r
    else LastStart(RunItem(r, fails, matrix[0]).run, fails, matrix[1..])
  }

  lemma {:induction false} PassedMeansNoFailure(r: Run, fails: nat -> bool, item: Item, trace: seq<Entry>, i: nat)
    requires RunItem(r, fails, item).ok && RunItem(r, fails, item).run.trace <= trace
    requires FirstFailing(trace, |r.trace|, i)
    ensures |RunItem(r, fails, item).run.trace| <= i && FirstFailing(trace, |RunItem(r, fails, item).run.trace|, i)
  {
    ItemIsHonest(r, fails, item);
    var a := RunItem(r, fails, item);
    PrefixFails(a.run.trace, trace, |r.trace|, i);
    assert forall j :: |r.trace| <= j < |a.run.trace| ==> a.run.trace[j] == a.run.trace[|r.trace|..][j - |r.trace|];
  }

  /**
   * So over any matrix: the one check that failed reports the phase of the first failing effect of all,
   * unless its phase misleads.
   */
  lemma {:induction false} ReportedPhaseIsRightExactly(r: Run, fails: nat -> bool, matrix: seq<Item>, i: nat)
    requires FirstFailing(Execute(r, fails, matrix).run.trace, |r.trace|, i)
    ensures var report := Execute(r, fails, matrix);
      && 0 < |report.checks| <= |matrix|
      && (PhaseIs(report.checks[|report.checks| - 1], report.run.trace[i].action) <==>
            !PhaseMisleads(LastStart(r, fails, matrix), fails, matrix[|report.checks| - 1]))
    decreases |matrix|
  {
    if |matrix| > 0 {
      var a := RunItem(r, fails, matrix[0]);
      if !a.ok {
        PhaseIsRightExactly(r, fails, matrix[0], i);
      } else {
        var rest := Execute(a.run, fails, matrix[1..]);
        ChecksPassExactlyWhenEffectsDo(a.run, fails, matrix[1..]);
        PassedMeansNoFailure(r, fails, matrix[0], rest.run.trace, i);
        ReportedPhaseIsRightExactly(a.run, fails, matrix[1..], i);
      }
    }
  }

  /** A self-managed check whose preliminary stop fails is reported in the phase `Running`, not `Stopping`. */
  lemma SelfManagedStopFailureIsMisreported(r: Run, fails: nat -> bool, item: Item)
    requires item.profile == SelfManaged && r.active != Bare && !Succeeds(r, fails)
    ensures var a := RunItem(r, fails, item);
      a.run.trace == r.trace + [Entry(Stop, false)] && CheckOf(a, item) == Check(item.name, Failed, Some(Running))
  {
  }

  /** And so is an isolated check whose command succeeds and whose stop in the cleanup fails. */
  lemma CleanupFailureIsMisreported(r: Run, fails: nat -> bool, item: Item)
    requires item.profile.Host? && item.isolated && r.active == Bare
    requires forall k: nat :: fails(k) <==> k == |r.trace| + 3
    ensures var a := RunItem(r, fails, item);
      && a.run.trace == r.trace +
           [Entry(Prepare, true), Entry(Start(item.profile), true), Entry(Command(item), true), Entry(Stop, false)]
      && CheckOf(a, item) == Check(item.name, Failed, Some(Running))
  {
    var r1 := Did(r, fails, Prepare);
    var r2 := Did(r1, fails, Start(item.profile)).(active := item.profile);
    var r3 := Did(r2, fails, Command(item));
    assert Succeeds(r, fails) && Succeeds(r1, fails) && Succeeds(r2, fails) && !Succeeds(r3, fails);
  }
}
