/** The executor's loops, with the variables they update. */
module MatrixExecutor {
  import opened Base
  import opened MatrixSpec
  import opened MatrixGuarantees

  lemma Regroup(done: seq<Check>, check: Check, rest: seq<Check>)
    ensures done + ([check] + rest) == (done + [check]) + rest
  {
  }

  class Executor {
    const fails: nat -> bool
    var trace: seq<Entry>
    var active: Profile

    function View(): Run
      reads this
    {
      Run(trace, active)
    }

    constructor (pattern: nat -> bool)
      ensures fails == pattern && View() == Run([], Bare)
    {
      fails, trace, active := pattern, [], Bare;
    }

    /** One effect: it is recorded, and reports whether it succeeded. */
    method Perform(action: Action) returns (ok: bool)
      modifies `trace
      ensures View() == Did(old(View()), fails, action) && ok == Succeeds(old(View()), fails)
    {
      ok := !fails(|trace|);
      trace := trace + [Entry(action, ok)];
    }

    method StopHost() returns (ok: bool)
      modifies this
      ensures (View(), ok) == StopIfActive(old(View()), fails)
    {
      if active == Bare { return true; }
      ok := Perform(Stop);
      if ok { active := Bare; }
    }

    /** The `try` block of one check. */
    method Body(item: Item) returns (ok: bool, phase: Phase)
      modifies this
      ensures Attempt(View(), ok, phase) == RunBody(old(View()), fails, item)
      ensures old(trace) <= trace && (ok <==> AllOk(trace[|old(trace)|..]))
    {
      BodyIsHonest(View(), fails, item);
      phase := Running;
      if item.profile == Stopped {
        phase := Stopping;
        ok := StopHost();
        if !ok { return; }
        phase := VerifyingStopped;
        ok := Perform(VerifyStopped);
      } else if item.profile == SelfManaged {
        ok := StopHost();
        if !ok { return; }
        phase := Preparing;
        ok := Perform(Prepare);
        if !ok { return; }
        phase := Running;
        ok := Perform(Command(item));
      } else {
        if item.profile != Bare && (item.profile != active || item.isolated) {
          if active != Bare {
            phase := Stopping;
            ok := StopHost();
            if !ok { return; }
          }
          phase := Preparing;
          ok := Perform(Prepare);
          if !ok { return; }
          phase := Starting;
          ok := Perform(Start(item.profile));
          if !ok { return; }
          active := item.profile;
        }
        phase := Running;
        ok := Perform(Command(item));
      }
    }

    method One(item: Item) returns (ok: bool, phase: Phase)
      modifies this
      ensures Attempt(View(), ok, phase) == RunItem(old(View()), fails, item)
      ensures old(trace) <= trace && (ok <==> AllOk(trace[|old(trace)|..]))
    {
      ItemIsHonest(View(), fails, item);
      ok, phase := Body(item);
      if item.isolated && item.profile != SelfManaged && item.profile != Stopped {
        var clean := StopHost();
        if clean {
          clean := Perform(Reset);
        }
        ok := ok && clean;
      }
    }

    method ExecuteMatrix(matrix: seq<Item>) returns (checks: seq<Check>)
      modifies this
      ensures Report(View(), checks) == Execute(old(View()), fails, matrix)
      ensures |checks| <= |matrix| && old(trace) <= trace && (Passes(checks) <==> AllOk(trace[|old(trace)|..]))
    {
      ResultsAreAPrefix(View(), fails, matrix);
      ChecksPassExactlyWhenEffectsDo(View(), fails, matrix);
      checks := [];
      ghost var whole := Execute(View(), fails, matrix);
      var i := 0;
      while i < |matrix|
        invariant 0 <= i <= |matrix|
        invariant whole.run == Execute(View(), fails, matrix[i..]).run
        invariant whole.checks == checks + Execute(View(), fails, matrix[i..]).checks
      {
        var item := matrix[i];
        ghost var left := matrix[i..];
        assert left[0] == item && left[1..] == matrix[i + 1..];
        ghost var before, done := View(), checks;
        var ok, phase := One(item);
        var check := Check(item.name, if ok then Verified else Failed, if ok then None else Some(phase));
        assert check == CheckOf(RunItem(before, fails, item), item);
        checks := checks + [check];
        if !ok { return; }
        Regroup(done, check, Execute(View(), fails, matrix[i + 1..]).checks);
        i := i + 1;
      }
    }
  }

  /** `runFullVerification`, given whether the first and the last stop and the report's writing succeed. */
  method RunFullVerification(matrix: seq<Item>, fails: nat -> bool, stopsFirst: bool, stopsLast: bool, written: bool)
    returns (result: Verdict, checks: seq<Check>)
    ensures checks == Full(matrix, fails, stopsFirst, stopsLast)
    ensures result == Result(matrix, fails, stopsFirst, stopsLast, written)
  {
    checks := [];
    var cleanupFailed := false;
    if stopsFirst {
      var executor := new Executor(fails);
      checks := executor.ExecuteMatrix(matrix);
    } else {
      cleanupFailed := true;
    }
    if !stopsLast { cleanupFailed := true; }
    if cleanupFailed { checks := checks + [Check(CLEANUP, Failed, None)]; }
    var done := checks;
    var i := 0;
    while i < |matrix|
      invariant 0 <= i <= |matrix|
      invariant Completed(done, done, matrix) == Completed(checks, done, matrix[i..])
    {
      assert matrix[i..][0] == matrix[i] && matrix[i..][1..] == matrix[i + 1..];
      if !Reported(done, matrix[i].name) {
        checks := checks + [Check(matrix[i].name, NotRun, None)];
      }
      i := i + 1;
    }
    result := if written && Passes(checks) then Verified else Failed;
  }
}
