/**
 * Reward claims and refunds running at the same time, one statement at a time, under the locks on
 * reward, user and claim rows. Callbacks, catalogue edits and wallet operations come in between where
 * those locks let them. Every run leaves the books of a serial run in commit order.
 */
module RewardInterleaving {
  import opened Base
  import opened WalletTables
  import opened SettlementSpec
  import opened SettlementRuns

  /**
   * How far a request has come, with what it read. A claim locks its reward, looks for its key, then
   * locks its user. A refund locks the claim's row, looks for an earlier refund, then locks and updates
   * the reward, then the user. What is updated reaches the tables at the commit.
   */
  datatype Flight =
    | RewardLocked(userRef: string, reward: int, key: string, seen: Reward)
    | KeyFree(userRef: string, reward: int, key: string, seen: Reward)
    | UserLocked(userRef: string, reward: int, key: string, seen: Reward, user: Uuid, balance: I64)
    | ClaimLocked(userRef: string, reward: int, key: string, pick: int, points: I64)
    | NotRefunded(userRef: string, reward: int, key: string, pick: int, points: I64)
    | StockBack(userRef: string, reward: int, key: string, pick: int, points: I64, seen: Reward)
    | PointsBack(userRef: string, reward: int, key: string, pick: int, points: I64, seen: Reward, user: Uuid,
      balance: I64)

  datatype System = System(books: Books, flights: map<nat, Flight>, history: seq<Event>)

  datatype Step =
    | LockReward(t: nat, userRef: string, reward: int, key: string)
    | LookForKey(t: nat)
    | LockUser(t: nat, member: bool)
    | CommitClaim(t: nat)
    | LockClaim(t: nat, userRef: string, key: string, pick: int)
    | LookForRefund(t: nat)
    | ReturnStock(t: nat)
    | ReturnPoints(t: nat)
    | CommitRefund(t: nat)
    | Abandon(t: nat)
    | Alone(event: Event)

  predicate HoldsReward(f: Flight, reward: int) {
    !f.ClaimLocked? && !f.NotRefunded? && f.reward == reward
  }

  predicate HoldsUser(f: Flight, user: Uuid) {
    (f.UserLocked? || f.PointsBack?) && f.user == user
  }

  predicate Refunds(f: Flight) {
    f.ClaimLocked? || f.NotRefunded? || f.StockBack? || f.PointsBack?
  }

  predicate HoldsRow(f: Flight, row: int) {
    Refunds(f) && f.pick == row
  }

  ghost predicate RewardFree(s: System, reward: int) {
    forall t :: t in s.flights ==> !HoldsReward(s.flights[t], reward)
  }

  ghost predicate UserFree(s: System, user: Uuid) {
    forall t :: t in s.flights ==> !HoldsUser(s.flights[t], user)
  }

  ghost predicate RowFree(s: System, row: int) {
    forall t :: t in s.flights ==> !HoldsRow(s.flights[t], row)
  }

  /** An event that runs alone needs the rows it updates; reward claims and refunds go step by step. */
  ghost predicate AloneEnabled(cfg: Config, s: System, e: Event) {
    && SettlementRuns.Enabled(s.books, e) && !e.Take? && !e.GiveBack?
    && (e.Hook? ==> UserFree(s, e.user))
    && (e.Drop? || e.Edit? ==> RewardFree(s, e.reward))
  }

  ghost predicate MayLockUser(cfg: Config, s: System, f: Flight) {
    cfg.parse(f.userRef).Some? && UserFree(s, cfg.parse(f.userRef).value)
  }

  ghost predicate Enabled(cfg: Config, s: System, step: Step) {
    match step
    case LockReward(t, userRef, reward, key) =>
      t !in s.flights && cfg.parse(userRef).Some? && key != "" && reward in s.books.rewards && RewardFree(s, reward)
    case LookForKey(t) => t in s.flights && s.flights[t].RewardLocked?
    case LockUser(t, _) => t in s.flights && s.flights[t].KeyFree? && MayLockUser(cfg, s, s.flights[t])
    case CommitClaim(t) => t in s.flights && s.flights[t].UserLocked?
    case LockClaim(t, userRef, key, pick) =>
      t !in s.flights && cfg.parse(userRef).Some? && Refundable(s.books.rows, pick, userRef, key) && RowFree(s, pick)
    case LookForRefund(t) => t in s.flights && s.flights[t].ClaimLocked?
    case ReturnStock(t) => t in s.flights && s.flights[t].NotRefunded? && RewardFree(s, s.flights[t].reward)
    case ReturnPoints(t) => t in s.flights && s.flights[t].StockBack? && MayLockUser(cfg, s, s.flights[t])
    case CommitRefund(t) => t in s.flights && s.flights[t].PointsBack?
    case Abandon(t) => t in s.flights
    case Alone(e) => AloneEnabled(cfg, s, e)
  }

  function Land(s: System, t: nat): System {
    s.(flights := s.flights - {t})
  }

  function Fly(s: System, t: nat, f: Flight): System {
    s.(flights := s.flights[t := f])
  }

  predicate ClaimWritable(f: Flight) {
    f.UserLocked? && 0 < f.seen.price <= f.balance
  }

  /** What a claim leaves: the locked rows with one unit and the price taken off, and one row more. */
  function ClaimWrites(b: Books, f: Flight): Books
    requires ClaimWritable(f)
  {
    b.(rewards := b.rewards[f.reward := f.seen.(stock := f.seen.stock - 1)],
       points := b.points[f.user := f.balance - f.seen.price],
       rows := b.rows + [PointRow(f.userRef, f.reward, f.key, -f.seen.price, Redeem)])
  }

  predicate RefundWritable(f: Flight) {
    f.PointsBack? && f.points < 0 && I64_MIN < f.points && 0 <= f.balance && f.balance - f.points <= I64_MAX
  }

  /** What a refund leaves: the locked rows with one unit and the claim's points put back, and one row more. */
  function RefundWrites(b: Books, f: Flight): Books
    requires RefundWritable(f)
  {
    b.(rewards := b.rewards[f.reward := f.seen.(stock := f.seen.stock + 1)],
       points := b.points[f.user := f.balance - f.points],
       rows := b.rows + [PointRow(f.userRef, f.reward, RefundKey(f.key), -f.points, Giveback)])
  }

  /**
   * A request that an earlier check or a constraint refuses lands without a trace. The insert of a
   * refund row is refused when the reward already has a row with that key.
   */
  ghost function Do(cfg: Config, s: System, step: Step): System
    requires Enabled(cfg, s, step)
  {
    match step
    case LockReward(t, userRef, reward, key) => Fly(s, t, RewardLocked(userRef, reward, key, s.books.rewards[reward]))
    case LookForKey(t) =>
      var f := s.flights[t];
      if RowExists(s.books.rows, f.reward, f.key) || !f.seen.status || f.seen.stock < 1 then Land(s, t)
      else Fly(s, t, KeyFree(f.userRef, f.reward, f.key, f.seen))
    case LockUser(t, member) =>
      var f := s.flights[t];
      var user := cfg.parse(f.userRef).value;
      if !member || user !in s.books.points || s.books.points[user] < f.seen.price then Land(s, t)
      else Fly(s, t, UserLocked(f.userRef, f.reward, f.key, f.seen, user, s.books.points[user]))
    case CommitClaim(t) =>
      var f := s.flights[t];
      if ClaimWritable(f)
      then Land(s, t).(books := ClaimWrites(s.books, f), history := s.history + [Take(f.userRef, f.reward, f.key,
        true)])
      else Land(s, t)
    case LockClaim(t, userRef, key, pick) =>
      var row := s.books.rows[pick];
      Fly(s, t, ClaimLocked(userRef, row.reward, key, pick, row.points))
    case LookForRefund(t) =>
      var f := s.flights[t];
      if RowExists(s.books.rows, f.reward, RefundKey(f.key)) then Land(s, t)
      else Fly(s, t, NotRefunded(f.userRef, f.reward, f.key, f.pick, f.points))
    case ReturnStock(t) =>
      var f := s.flights[t];
      if f.reward !in s.books.rewards || s.books.rewards[f.reward].stock == I32_MAX then Land(s, t)
      else Fly(s, t, StockBack(f.userRef, f.reward, f.key, f.pick, f.points, s.books.rewards[f.reward]))
    case ReturnPoints(t) =>
      var f := s.flights[t];
      var user := cfg.parse(f.userRef).value;
      if user !in s.books.points || I64_MAX < s.books.points[user] - f.points then Land(s, t)
      else Fly(s, t, PointsBack(f.userRef, f.reward, f.key, f.pick, f.points, f.seen, user, s.books.points[user]))
    case CommitRefund(t) =>
      var f := s.flights[t];
      if RefundWritable(f) && !RowExists(s.books.rows, f.reward, RefundKey(f.key))
      then Land(s, t).(books := RefundWrites(s.books, f), history := s.history + [GiveBack(f.userRef, f.key, f.pick)])
      else Land(s, t)
    case Abandon(t) => Land(s, t)
    case Alone(e) => s.(books := SettlementRuns.Do(cfg, s.books, e), history := s.history + [e])
  }

  ghost predicate Legal(cfg: Config, s: System, steps: seq<Step>)
    decreases |steps|
  {
    |steps| == 0 || (Enabled(cfg, s, steps[0]) && Legal(cfg, Do(cfg, s, steps[0]), steps[1..]))
  }

  ghost function After(cfg: Config, s: System, steps: seq<Step>): System
    requires Legal(cfg, s, steps)
    decreases |steps|
  {
    if |steps| == 0 then s else After(cfg, Do(cfg, s, steps[0]), steps[1..])
  }

  function Start(b: Books): System {
    System(b, map[], [])
  }

  // ----- what an open request knows stays true -----

  /**
   * The rows a request locked are as it read them; a key it found free is free. A refund that found no
   * earlier one may since meet a row with its key, but not one that another refund wrote.
   */
  predicate Knows(cfg: Config, b: Books, f: Flight) {
    match f
    case RewardLocked(userRef, reward, key, seen) =>
      cfg.parse(userRef).Some? && key != "" && reward in b.rewards && b.rewards[reward] == seen
    case KeyFree(userRef, reward, key, seen) => KnowsFree(cfg, b, userRef, reward, key, seen)
    case UserLocked(userRef, reward, key, seen, user, balance) =>
      && KnowsFree(cfg, b, userRef, reward, key, seen) && cfg.parse(userRef) == Some(user)
      && user in b.points && b.points[user] == balance && seen.price <= balance
    case ClaimLocked(userRef, reward, key, pick, points) => KnowsClaim(cfg, b, userRef, reward, key, pick, points)
    case NotRefunded(userRef, reward, key, pick, points) =>
      KnowsClaim(cfg, b, userRef, reward, key, pick, points) && NoGiveback(b.rows, reward, key)
    case StockBack(userRef, reward, key, pick, points, seen) =>
      && KnowsClaim(cfg, b, userRef, reward, key, pick, points) && NoGiveback(b.rows, reward, key)
      && reward in b.rewards && b.rewards[reward] == seen && seen.stock < I32_MAX
    case PointsBack(userRef, reward, key, pick, points, seen, user, balance) =>
      && KnowsClaim(cfg, b, userRef, reward, key, pick, points) && NoGiveback(b.rows, reward, key)
      && reward in b.rewards && b.rewards[reward] == seen && seen.stock < I32_MAX
      && cfg.parse(userRef) == Some(user) && user in b.points && b.points[user] == balance
      && balance - points <= I64_MAX
  }

  predicate KnowsFree(cfg: Config, b: Books, userRef: string, reward: int, key: string, seen: Reward) {
    && cfg.parse(userRef).Some? && key != "" && reward in b.rewards && b.rewards[reward] == seen
    && seen.status && seen.stock >= 1 && !RowExists(b.rows, reward, key)
  }

  predicate KnowsClaim(cfg: Config, b: Books, userRef: string, reward: int, key: string, pick: int, points: I64) {
    && cfg.parse(userRef).Some? && Refundable(b.rows, pick, userRef, key)
    && b.rows[pick].reward == reward && b.rows[pick].points == points
  }

  predicate NoGiveback(rows: seq<PointRow>, reward: int, key: string) {
    forall i :: 0 <= i < |rows| && rows[i].reward == reward && rows[i].key == RefundKey(key) ==> rows[i].kind == Redeem
  }

  ghost predicate Informed(cfg: Config, s: System) {
    forall t :: t in s.flights ==> Knows(cfg, s.books, s.flights[t])
  }

  ghost predicate Exclusive(s: System) {
    && (forall t, r, reward | t in s.flights && r in s.flights ::
          HoldsReward(s.flights[t], reward) && HoldsReward(s.flights[r], reward) ==> t == r)
    && (forall t, r, user | t in s.flights && r in s.flights ::
          HoldsUser(s.flights[t], user) && HoldsUser(s.flights[r], user) ==> t == r)
    && (forall t, r, row | t in s.flights && r in s.flights ::
          HoldsRow(s.flights[t], row) && HoldsRow(s.flights[r], row) ==> t == r)
  }

  /** The books are those of the serial run of what was committed. */
  ghost predicate Serial(cfg: Config, b0: Books, s: System) {
    SettlementRuns.Legal(cfg, b0, s.history) && SettlementRuns.After(cfg, b0, s.history) == s.books
  }

  /**
   * Rows are only added, and none for a locked reward; a locked reward or user row keeps its values;
   * and none of the new rows is a refund of a claim whose row is locked.
   */
  ghost predicate Respects(b: Books, b': Books, f: Flight) {
    && b.rows <= b'.rows
    && (!f.ClaimLocked? && !f.NotRefunded? ==>
          && (f.reward in b.rewards ==> f.reward in b'.rewards && b'.rewards[f.reward] == b.rewards[f.reward])
          && (forall i :: |b.rows| <= i < |b'.rows| ==> b'.rows[i].reward != f.reward))
    && (f.UserLocked? || f.PointsBack? ==>
          (f.user in b.points ==> f.user in b'.points && b'.points[f.user] == b.points[f.user]))
    && (f.NotRefunded? ==>
          forall i | |b.rows| <= i < |b'.rows| && b'.rows[i].reward == f.reward && b'.rows[i].key == RefundKey(f.key) ::
            b'.rows[i].kind == Redeem)
  }

  lemma RespectedClaim(b: Books, b': Books, f: Flight)
    requires Refunds(f) && Respects(b, b', f) && (f.ClaimLocked? || NoGiveback(b.rows, f.reward, f.key))
    ensures f.ClaimLocked? || NoGiveback(b'.rows, f.reward, f.key)
  {
    forall i | 0 <= i < |b.rows| ensures b'.rows[i] == b.rows[i] {}
  }

  lemma RespectedKnowledge(cfg: Config, b: Books, b': Books, f: Flight)
    requires Knows(cfg, b, f) && Respects(b, b', f)
    ensures Knows(cfg, b', f)
  {
    assert b.rows <= b'.rows;
    if Refunds(f) { RespectedClaim(b, b', f); }
  }

  /** A claim that commits is the claim as it runs alone at that moment, and it is granted. */
  lemma ClaimIsSerial(cfg: Config, b: Books, f: Flight)
    requires f.UserLocked? && Knows(cfg, b, f) && ClaimsTrue(cfg, b)
    ensures ClaimWritable(f)
    ensures ClaimReward(b, cfg.parse(f.userRef), f.userRef, f.reward, f.key, true) == Result(ClaimWrites(b, f), Claimed)
  {
  }

  /**
   * A refund that reaches its commit: if its row goes in, it has written what the refund writes alone
   * at that moment, and it goes through there too. If the unique key refuses the row, alone it would be
   * a replay and write nothing either; and the row in the way is somebody's claim under the refund key,
   * never another refund of the same claim.
   */
  lemma RefundIsSerial(cfg: Config, b: Books, f: Flight)
    requires f.PointsBack? && Knows(cfg, b, f) && ClaimsTrue(cfg, b)
    ensures SomeRefundable(b.rows, f.userRef, f.key) && Refundable(b.rows, f.pick, f.userRef, f.key)
    ensures RefundWritable(f)
    ensures !RowExists(b.rows, f.reward, RefundKey(f.key)) ==>
      RefundClaim(b, cfg.parse(f.userRef), f.userRef, f.key, f.pick) == Result(RefundWrites(b, f), Returned)
    ensures RowExists(b.rows, f.reward, RefundKey(f.key)) ==>
      && RefundClaim(b, cfg.parse(f.userRef), f.userRef, f.key, f.pick) == Result(b, Replay)
      && (forall i :: 0 <= i < |b.rows| && b.rows[i].reward == f.reward && b.rows[i].key == RefundKey(f.key) ==>
            b.rows[i].kind == Redeem)
  {
    assert RowTrue(cfg, b, f.pick);
  }

  lemma ClaimRespects(cfg: Config, b: Books, f: Flight, other: Flight)
    requires ClaimWritable(f)
    requires !HoldsReward(other, f.reward) && !HoldsUser(other, f.user)
    ensures Respects(b, ClaimWrites(b, f), other)
  {
  }

  lemma SameKey(a: string, b: string)
    requires RefundKey(a) == RefundKey(b)
    ensures a == b
  {
    SamePrefix("refund:", a, b);
  }

  /** Two claims under one key of one reward are one row, so their refunds meet at its lock. */
  lemma RefundRespects(cfg: Config, b: Books, f: Flight, other: Flight)
    requires RefundWritable(f) && Knows(cfg, b, f) && Knows(cfg, b, other) && RowsDistinct(b.rows)
    requires !HoldsReward(other, f.reward) && !HoldsUser(other, f.user) && !HoldsRow(other, f.pick)
    ensures Respects(b, RefundWrites(b, f), other)
  {
    if other.NotRefunded? && other.reward == f.reward && RefundKey(other.key) == RefundKey(f.key) {
      SameKey(other.key, f.key);
    }
  }

  lemma AloneRespects(cfg: Config, s: System, e: Event, other: Flight)
    requires ClaimsTrue(cfg, s.books) && AloneEnabled(cfg, s, e)
    requires e.Hook? ==> !HoldsUser(other, e.user)
    requires e.Drop? || e.Edit? ==> !HoldsReward(other, e.reward)
    ensures Respects(s.books, SettlementRuns.Do(cfg, s.books, e), other)
  {
    match e
    case Hook(authentic, p, r, status, user, amount) =>
      HookTouches(s.books, authentic, p, r, status, Deal(user, amount));
    case Add(_, _) =>
    case Drop(_) =>
    case Edit(_, _, _) =>
    case Money(_, _) =>
  }

  lemma HookTouches(b: Books, authentic: bool, p: string, r: string, status: string, d: Deal)
    ensures var b' := Callback(b, authentic, p, r, status, d.user, d.amount).books;
      && b'.rows == b.rows && b'.rewards == b.rewards && b'.points.Keys == b.points.Keys
      && (forall u :: u in b.points && u != d.user ==> b'.points[u] == b.points[u])
  {
  }

  // ----- steps -----

  /** Only the request `t` moved on; the books stayed. */
  lemma MovingOn(cfg: Config, s: System, t: nat, f: Flight)
    requires Informed(cfg, s) && Exclusive(s) && Knows(cfg, s.books, f)
    requires forall r, reward :: r in s.flights && r != t && HoldsReward(f, reward) ==>
      !HoldsReward(s.flights[r], reward)
    requires forall r, user :: r in s.flights && r != t && HoldsUser(f, user) ==> !HoldsUser(s.flights[r], user)
    requires forall r, row :: r in s.flights && r != t && HoldsRow(f, row) ==> !HoldsRow(s.flights[r], row)
    ensures Informed(cfg, Fly(s, t, f)) && Exclusive(Fly(s, t, f))
  {
  }

  lemma Landing(cfg: Config, s: System, t: nat)
    requires Informed(cfg, s) && Exclusive(s)
    ensures Informed(cfg, Land(s, t)) && Exclusive(Land(s, t))
  {
  }

  lemma QuietStepKeeps(cfg: Config, s: System, step: Step)
    requires Informed(cfg, s) && Exclusive(s) && Enabled(cfg, s, step) && ClaimsTrue(cfg, s.books)
    requires !step.CommitClaim? && !step.CommitRefund? && !step.Alone?
    ensures Informed(cfg, Do(cfg, s, step)) && Exclusive(Do(cfg, s, step))
    ensures Do(cfg, s, step).books == s.books && Do(cfg, s, step).history == s.history
  {
    Landing(cfg, s, step.t);
    if step.t in Do(cfg, s, step).flights { MovingOn(cfg, s, step.t, Do(cfg, s, step).flights[step.t]); }
  }

  /** Commits and events of their own leave what all other requests know. */
  lemma CommitKeepsOthers(cfg: Config, s: System, step: Step)
    requires Informed(cfg, s) && Exclusive(s) && Enabled(cfg, s, step) && ClaimsTrue(cfg, s.books)
    requires step.CommitClaim? || step.CommitRefund? || step.Alone?
    ensures Informed(cfg, Do(cfg, s, step)) && Exclusive(Do(cfg, s, step))
  {
    var s' := Do(cfg, s, step);
    forall r | r in s'.flights ensures Knows(cfg, s'.books, s'.flights[r]) {
      assert Knows(cfg, s.books, s.flights[r]);
      match step {
        case CommitClaim(t) =>
          ClaimIsSerial(cfg, s.books, s.flights[t]);
          ClaimRespects(cfg, s.books, s.flights[t], s.flights[r]);
        case CommitRefund(t) =>
          if s'.books != s.books { RefundRespects(cfg, s.books, s.flights[t], s.flights[r]); }
        case Alone(e) => AloneRespects(cfg, s, e, s.flights[r]);
        case _ =>
      }
      RespectedKnowledge(cfg, s.books, s'.books, s'.flights[r]);
    }
  }

  lemma {:induction false} SerialGrows(cfg: Config, b: Books, es: seq<Event>, e: Event)
    requires SettlementRuns.Legal(cfg, b, es) && SettlementRuns.Enabled(SettlementRuns.After(cfg, b, es), e)
    ensures SettlementRuns.Legal(cfg, b, es + [e])
    ensures SettlementRuns.After(cfg, b, es + [e]) == SettlementRuns.Do(cfg, SettlementRuns.After(cfg, b, es), e)
    decreases |es|
  {
    if |es| == 0 {
      assert es + [e] == [e] && [e][1..] == [];
      assert SettlementRuns.Legal(cfg, SettlementRuns.Do(cfg, b, e), []);
    } else {
      assert (es + [e])[1..] == es[1..] + [e];
      SerialGrows(cfg, SettlementRuns.Do(cfg, b, es[0]), es[1..], e);
    }
  }

  /** A step either commits nothing, or commits one event and leaves what that event leaves alone. */
  lemma CommitIsSerial(cfg: Config, s: System, step: Step)
    requires Informed(cfg, s) && Enabled(cfg, s, step) && ClaimsTrue(cfg, s.books)
    requires step.CommitClaim? || step.CommitRefund? || step.Alone?
    ensures var s' := Do(cfg, s, step);
      || (step.CommitRefund? && s'.history == s.history && s'.books == s.books)
      || (&& |s'.history| == |s.history| + 1 && s'.history == s.history + [s'.history[|s.history|]]
          && SettlementRuns.Enabled(s.books, s'.history[|s.history|])
          && SettlementRuns.Do(cfg, s.books, s'.history[|s.history|]) == s'.books)
  {
    if !step.Alone? { assert Knows(cfg, s.books, s.flights[step.t]); }
    if step.CommitClaim? { ClaimIsSerial(cfg, s.books, s.flights[step.t]); }
    if step.CommitRefund? { RefundIsSerial(cfg, s.books, s.flights[step.t]); }
  }

  lemma StepKeeps(cfg: Config, b0: Books, s: System, step: Step)
    requires Good(cfg, b0) && Serial(cfg, b0, s) && Informed(cfg, s) && Exclusive(s) && Enabled(cfg, s, step)
    ensures Serial(cfg, b0, Do(cfg, s, step)) && Informed(cfg, Do(cfg, s, step)) && Exclusive(Do(cfg, s, step))
  {
    SettlementRuns.RunKeeps(cfg, b0, s.history);
    if step.CommitClaim? || step.CommitRefund? || step.Alone? {
      CommitKeepsOthers(cfg, s, step);
      CommitIsSerial(cfg, s, step);
      if Do(cfg, s, step).history != s.history {
        SerialGrows(cfg, b0, s.history, Do(cfg, s, step).history[|s.history|]);
      }
    } else {
      QuietStepKeeps(cfg, s, step);
    }
  }

  lemma {:induction false} StepsKeep(cfg: Config, b0: Books, s: System, steps: seq<Step>)
    requires Good(cfg, b0) && Serial(cfg, b0, s) && Informed(cfg, s) && Exclusive(s) && Legal(cfg, s, steps)
    ensures Serial(cfg, b0, After(cfg, s, steps)) && Informed(cfg, After(cfg, s, steps))
    decreases |steps|
  {
    if |steps| != 0 {
      StepKeeps(cfg, b0, s, steps[0]);
      StepsKeep(cfg, b0, Do(cfg, s, steps[0]), steps[1..]);
    }
  }

  /**
   * Serializability: under every interleaving of claims, refunds, callbacks, edits and wallet
   * operations the books are those of the committed events run one after the other.
   */
  lemma {:induction false} EveryRunIsSerial(cfg: Config, b0: Books, steps: seq<Step>)
    requires Good(cfg, b0) && Legal(cfg, Start(b0), steps)
    ensures var s := After(cfg, Start(b0), steps);
      && SettlementRuns.Legal(cfg, b0, s.history) && SettlementRuns.After(cfg, b0, s.history) == s.books
      && Good(cfg, s.books)
  {
    StepsKeep(cfg, b0, Start(b0), steps);
    SettlementRuns.RunKeeps(cfg, b0, After(cfg, Start(b0), steps).history);
  }

  /**
   * What stands in the way of a refund that found no earlier one: whenever its insert is refused, in
   * any run, the row with its key is a claim. Another refund of the same claim waited for its row and
   * then answered that there is one already.
   */
  lemma {:induction false} RefundsNeverCollide(cfg: Config, b0: Books, steps: seq<Step>, t: nat, i: int)
    requires Good(cfg, b0) && Legal(cfg, Start(b0), steps)
    requires var s := After(cfg, Start(b0), steps);
      && t in s.flights && s.flights[t].PointsBack? && 0 <= i < |s.books.rows|
      && s.books.rows[i].reward == s.flights[t].reward && s.books.rows[i].key == RefundKey(s.flights[t].key)
    ensures var s := After(cfg, Start(b0), steps);
      s.books.rows[i].kind == Redeem && Do(cfg, s, CommitRefund(t)).books == s.books
  {
    StepsKeep(cfg, b0, Start(b0), steps);
    var s := After(cfg, Start(b0), steps);
    assert Knows(cfg, s.books, s.flights[t]);
    assert RowExists(s.books.rows, s.flights[t].reward, RefundKey(s.flights[t].key));
  }

  /**
   * So points and stock are conserved, and stay non-negative, however claims and refunds interleave.
   */
  lemma {:induction false} InterleavingConserves(cfg: Config, b0: Books, steps: seq<Step>, user: Uuid, reward: int)
    requires Good(cfg, b0) && Legal(cfg, Start(b0), steps)
    ensures var b := After(cfg, Start(b0), steps).books;
      && (user in b0.points ==>
            && user in b.points && 0 <= b.points[user]
            && b.points[user] - AwardedTo(b.awards, user) - RowsOf(cfg, b.rows, user)
                 == b0.points[user] - AwardedTo(b0.awards, user) - RowsOf(cfg, b0.rows, user))
      && (reward in b0.rewards && reward in b.rewards ==>
            && 0 <= b.rewards[reward].stock
            && b.rewards[reward].stock + TakenOf(b.rows, reward) == b0.rewards[reward].stock + TakenOf(b0.rows, reward))
  {
    EveryRunIsSerial(cfg, b0, steps);
    SettlementRuns.RunKeeps(cfg, b0, After(cfg, Start(b0), steps).history);
    var b := After(cfg, Start(b0), steps).books;
    if user in b0.points { assert Unexplained(cfg, b, user) == Unexplained(cfg, b0, user); }
    if reward in b0.rewards && reward in b.rewards { assert Delivered(b, reward) == Delivered(b0, reward); }
  }
}
