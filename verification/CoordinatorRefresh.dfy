/**
 * The retry loop of one refresh, from its first call to its verdict. What happens at each call, and
 * whether the credential moved while it was pending, is an arbitrary script.
 */
module CoordinatorRefresh {
  import opened Base
  import opened CoordinatorSpec
  import opened CoordinatorOutcomes

  datatype Encounter = Encounter(outcome: Outcome, stale: bool)

  predicate Retries(e: Encounter) {
    !e.stale && e.outcome.Failure? && (e.outcome.code == Some(RACE) || e.outcome.code == Some(RECOVERY_UNAVAILABLE))
  }

  /** An undisturbed call that failed for want of recovery, or because another tab was faster. */
  predicate Recovers(e: Encounter) {
    !e.stale && e.outcome.Failure? && e.outcome.code == Some("AUTH_REFRESH_RECOVERY_UNAVAILABLE")
  }

  predicate LosesRace(e: Encounter) {
    !e.stale && e.outcome.Failure? && e.outcome.code == Some("AUTH_REFRESH_RACE")
  }

  function Races(script: nat -> Encounter, from: nat, to: nat): (n: nat)
    requires from <= to
    ensures n <= to - from
  {
    if from == to then 0
    else
      Races(script, from, to - 1)
        + if Retries(script(to - 1)) && script(to - 1).outcome.code == Some(RACE) then 1 else 0
  }

  lemma {:induction false} RacesSplit(script: nat -> Encounter, from: nat, mid: nat, to: nat)
    requires from <= mid <= to
    ensures Races(script, from, to) == Races(script, from, mid) + Races(script, mid, to)
  {
    if mid < to { RacesSplit(script, from, mid, to - 1); }
  }

  /**
   * `next` is the number of the first call not made; `race` and `attempt` describe the round it fell
   * in. All calls before the last one met a retryable failure, at most one of them a race, and the
   * last one decides: the verdict is the reaction to it.
   */
  method ClassifyAttempt(backoffs: nat, allowRace: bool, script: nat -> Encounter, first: nat)
    returns (verdict: Reaction, next: nat, race: bool, attempt: nat)
    ensures first < next <= first + (backoffs + 1) * (if allowRace then 2 else 1)
    ensures !verdict.AwaitWinner? && !verdict.AwaitDelay?
    ensures forall k :: first <= k < next - 1 ==> Retries(script(k))
    ensures Races(script, first, next - 1) <= if allowRace then 1 else 0
    ensures verdict == React(backoffs, race, attempt, script(next - 1).stale, script(next - 1).outcome)
    ensures attempt <= backoffs && (race <==> allowRace && Races(script, first, next - 1) == 0)
    ensures next >= first + attempt + 1 && (race == allowRace ==> next == first + attempt + 1)
    ensures Recovers(script(next - 1)) ==> attempt == backoffs
    ensures LosesRace(script(next - 1)) ==> !race
    decreases allowRace
  {
    attempt, race := 0, allowRace;
    while true
      invariant attempt <= backoffs && race == allowRace
      invariant forall k :: first <= k < first + attempt ==> Retries(script(k))
      invariant Races(script, first, first + attempt) == 0
      decreases backoffs - attempt
    {
      var met := script(first + attempt);
      verdict := React(backoffs, allowRace, attempt, met.stale, met.outcome);
      next := first + attempt + 1;
      match verdict {
        case AwaitWinner =>
          assert Races(script, first, next) == 1;
          var start := next;
          verdict, next, race, attempt := ClassifyAttempt(backoffs, false, script, start);
          RacesSplit(script, first, start, next - 1);
          return;
        case AwaitDelay =>
          attempt := attempt + 1;
        case _ => return;
      }
    }
  }

  lemma {:induction false} NoRaces(script: nat -> Encounter, from: nat, to: nat)
    requires from <= to && forall k :: from <= k < to ==> Recovers(script(k))
    ensures Races(script, from, to) == 0
  {
    if from < to { NoRaces(script, from, to - 1); }
  }

  /** One refresh makes at most twice as many calls as it has attempts. */
  method PerformRefresh(backoffs: nat, script: nat -> Encounter) returns (verdict: Reaction, calls: nat)
    ensures 1 <= calls <= 2 * (backoffs + 1)
    ensures !verdict.AwaitWinner? && !verdict.AwaitDelay?
    ensures Races(script, 0, calls - 1) <= 1
    ensures verdict.Hold? <==>
      && !script(calls - 1).stale && script(calls - 1).outcome.Success?
      && script(calls - 1).outcome.response.token.order.Some?
    ensures verdict.Supersede? <==> script(calls - 1).stale
    ensures verdict.Terminate? <==>
      !script(calls - 1).stale && script(calls - 1).outcome.Failure? && EndsSession(script(calls - 1).outcome.code)
    ensures calls > 1 || !LosesRace(script(0))
    ensures Recovers(script(calls - 1)) ==> calls >= backoffs + 1
    ensures (forall k :: 0 <= k < calls ==> Recovers(script(k))) ==> calls == backoffs + 1
  {
    var race, attempt;
    verdict, calls, race, attempt := ClassifyAttempt(backoffs, true, script, 0);
    if forall k :: 0 <= k < calls ==> Recovers(script(k)) { NoRaces(script, 0, calls - 1); }
  }
}
