/** What callers of the settlement and reward operations may rely on over whole runs. */
module SettlementGuarantees {
  import opened Base
  import opened WalletTables
  import opened WalletSpec
  import opened WalletSoundness
  import opened WalletPostings
  import opened SettlementSpec
  import opened SettlementRuns
  import opened SettlementKeys

  function Signed(e: Option<Entry>): int {
    if e.None? then 0 else e.value.Signed()
  }

  /** What the sources of one key have moved on the wallet so far. */
  function NetEffect(b: Books, provider: string, ref: string): int {
    Signed(Find(b.tables.ledger, RefundSource(provider, ref)))
      + Signed(Find(b.tables.ledger, CorrectionSource(provider, ref)))
  }

  lemma SettledMoney(d: Deal, b: Books, p: string, r: string)
    requires HookSettled(d, b, p, r)
    ensures NetEffect(b, p, r) == (if (p, r) in b.events && b.events[(p, r)].status == "failed" then d.amount else 0)
    ensures (p, r) in b.events ==> b.events[(p, r)].refunded == (b.events[(p, r)].status == "failed")
  {
  }

  lemma SettledPoints(d: Deal, b: Books, p: string, r: string)
    requires HookSettled(d, b, p, r)
    ensures Awarded(b.awards, PointsSource(p, r)) <==>
      (p, r) in b.events && b.events[(p, r)].status == "success" && 10_000 <= d.amount
    ensures AwardsDistinct(b.awards) ==>
      forall i, j | 0 <= i < |b.awards| && 0 <= j < |b.awards|
        && b.awards[i].source == PointsSource(p, r) && b.awards[j].source == PointsSource(p, r) ::
        i == j && 0 < d.amount && b.awards[i] == Award(PointsSource(p, r), d.user, PointsFor(d.amount))
  {
  }

  /**
   * After any run in which nobody intrudes on the key: while its status is failed the wallet has
   * gained the amount and the refund flag is set; while it is success, and before any callback, the net
   * is zero and the flag is clear. Points are awarded once, for a success, as whole hundreds per ten
   * thousand. By `RunSettlesExactly` the premise is the weakest one under which this holds all along.
   */
  lemma {:induction false} SettlementHolds(
    cfg: Config, d: Deal, b0: Books, es: seq<Event>, provider: string, ref: string)
    requires Untouched(b0, provider, ref) && Good(cfg, b0) && Legal(cfg, b0, es)
    requires Undisturbed(cfg, d, b0, es, provider, ref)
    ensures var b := After(cfg, b0, es);
      && NetEffect(b, provider, ref) ==
           (if (provider, ref) in b.events && b.events[(provider, ref)].status == "failed" then d.amount else 0)
      && ((provider, ref) in b.events ==>
            b.events[(provider, ref)].refunded == (b.events[(provider, ref)].status == "failed"))
    ensures var b := After(cfg, b0, es);
      Awarded(b.awards, PointsSource(provider, ref)) <==>
        (provider, ref) in b.events && b.events[(provider, ref)].status == "success" && 10_000 <= d.amount
    ensures var b := After(cfg, b0, es);
      forall i, j | 0 <= i < |b.awards| && 0 <= j < |b.awards|
        && b.awards[i].source == PointsSource(provider, ref) && b.awards[j].source == PointsSource(provider, ref) ::
        i == j && b.awards[i].user == d.user && 0 < b.awards[i].points && FairPoints(b.awards[i].points, d.amount)
  {
    RunSettlesExactly(cfg, d, b0, es, provider, ref);
    RunKeeps(cfg, b0, es);
    SettledMoney(d, After(cfg, b0, es), provider, ref);
    SettledPoints(d, After(cfg, b0, es), provider, ref);
    if 0 < d.amount { PointsAreFair(d.amount, PointsFor(d.amount)); }
  }

  /** A callback is one more posting to the wallet: its ledger still adds up. */
  lemma CallbackKeepsWalletSound(
    b: Books, authentic: bool, provider: string, ref: string, status: string, user: Uuid, amount: I64)
    requires Sound(b.tables)
    ensures Sound(Callback(b, authentic, provider, ref, status, user, amount).books.tables)
  {
    PostKeeps(b.tables, user, CorrectionSource(provider, ref), DebitKind, Debit, amount, false);
    PostKeeps(b.tables, user, RefundSource(provider, ref), CreditKind, Credit, amount, false);
  }

  /** Success is absorbing: later callbacks for the key, whatever they say, change nothing at all. */
  lemma SuccessIsFinal(
    b: Books, authentic: bool, provider: string, ref: string, status: string, user: Uuid, amount: I64)
    requires (provider, ref) in b.events && b.events[(provider, ref)] == EventRow("success", false)
    ensures Callback(b, authentic, provider, ref, status, user, amount).books == b
  {
  }

  lemma {:induction false} SuccessStays(cfg: Config, b: Books, es: seq<Event>, provider: string, ref: string)
    requires Legal(cfg, b, es) && (provider, ref) in b.events && b.events[(provider, ref)] == EventRow("success", false)
    ensures (provider, ref) in After(cfg, b, es).events
    ensures After(cfg, b, es).events[(provider, ref)] == EventRow("success", false)
    decreases |es|
  {
    if |es| != 0 {
      if es[0].Hook? && (es[0].provider, es[0].ref) == (provider, ref) {
        SuccessIsFinal(b, es[0].authentic, provider, ref, es[0].status, es[0].user, es[0].amount);
      }
      SuccessStays(cfg, Do(cfg, b, es[0]), es[1..], provider, ref);
    }
  }

  // ----- exactly when a callback is applied, on any books -----

  /** A repeated status is a replay, and nothing else is. */
  lemma ReplaysExactly(b: Books, authentic: bool, p: string, r: string, status: string, user: Uuid, amount: I64)
    ensures Callback(b, authentic, p, r, status, user, amount).verdict == Replay <==>
      WellFormed(authentic, status, amount) && RowOf(b, p, r).Some? && RowOf(b, p, r).value.status == status
    ensures Callback(b, authentic, p, r, status, user, amount).verdict != Applied ==>
      Callback(b, authentic, p, r, status, user, amount).books == b
  {
  }

  /** A first failure credits the amount if and only if the user exists, the credit fits and its source is free. */
  lemma FirstFailureAppliesExactly(b: Books, authentic: bool, p: string, r: string, user: Uuid, amount: I64)
    requires (p, r) !in b.events
    ensures var result := Callback(b, authentic, p, r, "failed", user, amount);
      && (result.verdict == Applied <==>
            WellFormed(authentic, "failed", amount) && PostingFits(b.tables, RefundSource(p, r), user, amount))
      && (result.verdict == Applied ==>
            && EntryIs(Find(result.books.tables.ledger, RefundSource(p, r)), Deal(user, amount), Credit)
            && result.books.events == b.events[(p, r) := EventRow("failed", true)]
            && result.books.awards == b.awards && result.books.points == b.points)
  {
    if Callback(b, authentic, p, r, "failed", user, amount).verdict == Applied {
      AppliedMeans(b, authentic, p, r, "failed", Deal(user, amount));
      SettledMove(b, p, r, "failed", Deal(user, amount));
    }
  }

  /**
   * A correction takes the amount back if and only if the user exists, the balance covers it, its
   * source is free and the points fit.
   */
  lemma CorrectionAppliesExactly(b: Books, authentic: bool, p: string, r: string, user: Uuid, amount: I64)
    requires RowOf(b, p, r) == Some(EventRow("failed", true))
    ensures var result := Callback(b, authentic, p, r, "success", user, amount);
      && (result.verdict == Applied <==>
            && WellFormed(authentic, "success", amount) && PostingFits(b.tables, CorrectionSource(p, r), user, -amount)
            && AwardFits(b, p, r, user, amount))
      && (result.verdict == Applied ==>
            && EntryIs(Find(result.books.tables.ledger, CorrectionSource(p, r)), Deal(user, amount), Debit)
            && result.books.events == b.events[(p, r) := EventRow("success", false)])
  {
    if Callback(b, authentic, p, r, "success", user, amount).verdict == Applied {
      AppliedMeans(b, authentic, p, r, "success", Deal(user, amount));
      SettledMove(b, p, r, "success", Deal(user, amount));
    }
  }

  /** A first success moves no money; it is applied if and only if its points fit. */
  lemma FirstSuccessAppliesExactly(b: Books, authentic: bool, p: string, r: string, user: Uuid, amount: I64)
    requires (p, r) !in b.events
    ensures var result := Callback(b, authentic, p, r, "success", user, amount);
      && (result.verdict == Applied <==> WellFormed(authentic, "success", amount) && AwardFits(b, p, r, user, amount))
      && result.books.tables == b.tables
  {
  }

  /** A success that applies awards its points if and only if there are any and nobody has its source. */
  lemma SuccessAwardsExactly(b: Books, authentic: bool, p: string, r: string, user: Uuid, amount: I64)
    requires Callback(b, authentic, p, r, "success", user, amount).verdict == Applied
    ensures 0 < amount
    ensures var b' := Callback(b, authentic, p, r, "success", user, amount).books;
      if PointsFor(amount) > 0 && !Awarded(b.awards, PointsSource(p, r))
      then
        && b'.awards == b.awards + [Award(PointsSource(p, r), user, PointsFor(amount))]
        && user in b.points && b'.points == b.points[user := b.points[user] + PointsFor(amount)]
      else b'.awards == b.awards && b'.points == b.points
  {
  }

  /** The sources of a settled key are free when it needs them. */
  lemma SettledSourcesAreFree(d: Deal, b: Books, p: string, r: string)
    requires HookSettled(d, b, p, r)
    ensures RowOf(b, p, r).None? ==> Find(b.tables.ledger, RefundSource(p, r)).None?
    ensures RowOf(b, p, r).Some? && RowOf(b, p, r).value.status == "failed" ==>
      && RowOf(b, p, r) == Some(EventRow("failed", true))
      && Find(b.tables.ledger, CorrectionSource(p, r)).None? && !Awarded(b.awards, PointsSource(p, r))
    ensures RowOf(b, p, r).Some? && RowOf(b, p, r).value.status != "failed" ==>
      RowOf(b, p, r) == Some(EventRow("success", false))
  {
  }

  /** So on a settled key only the wallet and the points can refuse a first failure or a correction. */
  lemma WhenMoneyMoves(d: Deal, b: Books, p: string, r: string, status: string)
    requires HookSettled(d, b, p, r) && WellFormed(true, status, d.amount)
    ensures var row, verdict := RowOf(b, p, r), Callback(b, true, p, r, status, d.user, d.amount).verdict;
      && (verdict == Replay <==> row.Some? && row.value.status == status)
      && (row.None? && status == "failed" ==>
            (verdict == Applied <==> d.user in b.tables.balances && Wrap64(b.tables.balances[d.user] + d.amount) >= 0))
      && (row.Some? && row.value.status == "failed" && status == "success" ==>
            (verdict == Applied <==>
               && d.user in b.tables.balances && Wrap64(b.tables.balances[d.user] - d.amount) >= 0
               && (PointsFor(d.amount) > 0 ==>
                     d.user in b.points && b.points[d.user] + PointsFor(d.amount) <= I64_MAX)))
      && (row.Some? && row.value.status == "success" && status == "failed" ==> verdict == Failed(Conflict))
  {
    SettledSourcesAreFree(d, b, p, r);
    ReplaysExactly(b, true, p, r, status, d.user, d.amount);
    if RowOf(b, p, r).None? {
      if status == "failed" { FailureOfSettled(d, b, p, r); }
    } else if RowOf(b, p, r).value.status == "failed" {
      if status == "success" { CorrectionOfSettled(d, b, p, r); }
    } else {
      SuccessThenFailure(b, p, r, d.user, d.amount);
    }
  }

  lemma FailureOfSettled(d: Deal, b: Books, p: string, r: string)
    requires 0 < d.amount && RowOf(b, p, r).None? && Find(b.tables.ledger, RefundSource(p, r)).None?
    ensures Callback(b, true, p, r, "failed", d.user, d.amount).verdict == Applied <==>
      d.user in b.tables.balances && Wrap64(b.tables.balances[d.user] + d.amount) >= 0
  {
    FirstFailureAppliesExactly(b, true, p, r, d.user, d.amount);
  }

  lemma CorrectionOfSettled(d: Deal, b: Books, p: string, r: string)
    requires 0 < d.amount && RowOf(b, p, r) == Some(EventRow("failed", true))
    requires Find(b.tables.ledger, CorrectionSource(p, r)).None? && !Awarded(b.awards, PointsSource(p, r))
    ensures Callback(b, true, p, r, "success", d.user, d.amount).verdict == Applied <==>
      && d.user in b.tables.balances && Wrap64(b.tables.balances[d.user] - d.amount) >= 0
      && (PointsFor(d.amount) > 0 ==> d.user in b.points && b.points[d.user] + PointsFor(d.amount) <= I64_MAX)
  {
    CorrectionAppliesExactly(b, true, p, r, d.user, d.amount);
  }

  lemma SuccessThenFailure(b: Books, p: string, r: string, user: Uuid, amount: I64)
    requires RowOf(b, p, r) == Some(EventRow("success", false))
    ensures Callback(b, true, p, r, "failed", user, amount).verdict == Failed(Conflict)
  {
  }

  // ----- where settlement goes wrong -----

  /**
   * Of two keys that share their sources only one can have a first failure: the other is refused, though
   * never seen.
   */
  lemma CollidingKeysConflict(
    b: Books, p: string, r: string, q: string, s: string, user: Uuid, other: Uuid, amount: I64, amount': I64)
    requires KeyText(p, r) == KeyText(q, s) && (p, r) != (q, s) && (p, r) !in b.events && (q, s) !in b.events
    requires Callback(b, true, p, r, "failed", user, amount).verdict == Applied
    ensures var b' := Callback(b, true, p, r, "failed", user, amount).books;
      (q, s) !in b'.events && Callback(b', true, q, s, "failed", other, amount').books == b'
      && Callback(b', true, q, s, "failed", other, amount').verdict.Failed?
  {
    FirstFailureAppliesExactly(b, true, p, r, user, amount);
    var b' := Callback(b, true, p, r, "failed", user, amount).books;
    FirstFailureAppliesExactly(b', true, q, s, other, amount');
    ReplaysExactly(b', true, q, s, "failed", other, amount');
    SourcesDiffer(p, r, q, s);
  }

  /** Of two keys that share their sources only one success awards points: the other is applied without. */
  lemma CollidingSuccessAwardsNothing(
    b: Books, p: string, r: string, q: string, s: string, user: Uuid, other: Uuid, amount: I64, amount': I64)
    requires KeyText(p, r) == KeyText(q, s) && (p, r) != (q, s) && (p, r) !in b.events && (q, s) !in b.events
    requires Callback(b, true, p, r, "success", user, amount).verdict == Applied && 10_000 <= amount && 0 < amount'
    ensures var b' := Callback(b, true, p, r, "success", user, amount).books;
      var second := Callback(b', true, q, s, "success", other, amount');
      second.verdict == Applied && second.books.awards == b'.awards && second.books.points == b'.points
  {
    SuccessAwardsExactly(b, true, p, r, user, amount);
    var b' := Callback(b, true, p, r, "success", user, amount).books;
    assert PointsFor(amount) > 0;
    if !Awarded(b.awards, PointsSource(p, r)) {
      AwardAdded(b.awards, Award(PointsSource(p, r), user, PointsFor(amount)), Deal(user, amount));
    }
    SourcesDiffer(p, r, q, s);
    FirstSuccessAppliesExactly(b', true, q, s, other, amount');
    SuccessAwardsExactly(b', true, q, s, other, amount');
  }

  /** Such keys exist. */
  lemma CollidingKeysExist()
    ensures KeyText("a:b", "c") == KeyText("a", "b:c") && ("a:b", "c") != ("a", "b:c")
  {
    assert "a:b" + ":" + "c" == "a" + ":" + "b:c";
  }

  /** A posting under a callback's source, which may be any string, takes the source. */
  lemma {:induction false} PostingTakesItsSource(
    t: Tables, user: Uuid, source: string, kind: Kind, direction: Direction, amount: I64)
    requires PostInTx(t, user, source, kind, direction, amount).Posted?
    ensures Find(Execute(t, Post(user, source, kind, direction, amount, false), None).tables.ledger, source).Some?
  {
    PostingFinds(t, user, source, kind, direction, amount, "");
  }

  /** And with its source taken, by whomever, the callback fails. */
  lemma TakenSourceRefuses(b: Books, p: string, r: string, status: string, user: Uuid, amount: I64)
    requires
      || (status == "failed" && RowOf(b, p, r).None? && Find(b.tables.ledger, RefundSource(p, r)).Some?)
      || (status == "success" && RowOf(b, p, r) == Some(EventRow("failed", true))
          && Find(b.tables.ledger, CorrectionSource(p, r)).Some?)
    ensures Callback(b, true, p, r, status, user, amount).verdict.Failed?
    ensures Callback(b, true, p, r, status, user, amount).books == b
  {
  }

  /** A correction for another amount than the failure's leaves the difference on the wallet. */
  lemma OtherAmountLeavesADifference(d: Deal, b: Books, p: string, r: string, paid: I64)
    requires HookSettled(d, b, p, r) && RowOf(b, p, r) == Some(EventRow("failed", true))
    requires Callback(b, true, p, r, "success", d.user, paid).verdict == Applied
    ensures NetEffect(Callback(b, true, p, r, "success", d.user, paid).books, p, r) == d.amount - paid
  {
    AppliedMeans(b, true, p, r, "success", Deal(d.user, paid));
    SettledMove(b, p, r, "success", Deal(d.user, paid));
  }

  /**
   * Conservation over any run: a user's points move exactly with the awards and the point ledger,
   * stock plus claims minus refunds of a reward stays what it was, and neither goes below zero.
   */
  lemma {:induction false} PointsAndStockAreConserved(cfg: Config, b: Books, es: seq<Event>, user: Uuid, reward: int)
    requires Good(cfg, b) && Legal(cfg, b, es)
    ensures var b' := After(cfg, b, es);
      && (user in b.points ==>
            && user in b'.points && 0 <= b'.points[user]
            && b'.points[user] - b.points[user] ==
                 (AwardedTo(b'.awards, user) - AwardedTo(b.awards, user))
                   + (RowsOf(cfg, b'.rows, user) - RowsOf(cfg, b.rows, user)))
      && (reward in b.rewards && reward in b'.rewards ==>
            && 0 <= b'.rewards[reward].stock
            && b'.rewards[reward].stock + TakenOf(b'.rows, reward) == b.rewards[reward].stock + TakenOf(b.rows, reward))
  {
    RunKeeps(cfg, b, es);
    if user in b.points { assert Unexplained(cfg, After(cfg, b, es), user) == Unexplained(cfg, b, user); }
    if reward in b.rewards && reward in After(cfg, b, es).rewards {
      assert Delivered(After(cfg, b, es), reward) == Delivered(b, reward);
    }
  }

  /**
   * In every reachable state a key claims a reward at most once, and a refund row belongs to exactly
   * one claim, gives back exactly its points, and is its only refund.
   */
  lemma {:induction false} ClaimsAndRefundsPairUp(cfg: Config, b0: Books, es: seq<Event>, i: int)
    requires Good(cfg, b0) && Legal(cfg, b0, es)
    requires 0 <= i < |After(cfg, b0, es).rows|
    ensures var rows := After(cfg, b0, es).rows;
      && (forall j :: 0 <= j < |rows| && rows[j].reward == rows[i].reward && rows[j].key == rows[i].key ==> j == i)
      && (rows[i].kind == Giveback ==>
            exists j :: 0 <= j < |rows| && Returns(rows, i, j)
              && (forall k :: 0 <= k < |rows| && Returns(rows, i, k) ==> k == j)
              && (forall k :: 0 <= k < |rows| && rows[k].kind == Giveback && Returns(rows, k, j) ==> k == i))
  {
    RunKeeps(cfg, b0, es);
    var rows := After(cfg, b0, es).rows;
    assert RowTrue(cfg, After(cfg, b0, es), i);
    if rows[i].kind == Giveback {
      var j :| 0 <= j < |rows| && Returns(rows, i, j);
      forall k | 0 <= k < |rows| && Returns(rows, i, k) ensures k == j {
        SamePrefix("refund:", rows[j].key, rows[k].key);
      }
    }
  }

  /**
   * Exactly when the refund of a claim goes through: no row of the reward carries the claim's refund
   * key, and neither counter is at its limit.
   */
  lemma RefundGoesThroughExactly(cfg: Config, b: Books, userRef: string, key: string, pick: int)
    requires Good(cfg, b) && SomeRefundable(b.rows, userRef, key) && Refundable(b.rows, pick, userRef, key)
    ensures var reward := b.rows[pick].reward;
      && reward in b.rewards && cfg.parse(userRef).Some? && cfg.parse(userRef).value in b.points
      && (RefundClaim(b, cfg.parse(userRef), userRef, key, pick).verdict == Returned <==>
            && !RowExists(b.rows, reward, RefundKey(key))
            && b.rewards[reward].stock < I32_MAX
            && b.points[cfg.parse(userRef).value] - b.rows[pick].points <= I64_MAX)
  {
    assert RowTrue(cfg, b, pick);
  }

  /** A row with the claim's refund key is its refund, or somebody's claim made under that very key. */
  lemma WhatBlocksARefund(cfg: Config, b: Books, pick: int, i: int)
    requires Good(cfg, b) && 0 <= pick < |b.rows| && b.rows[pick].kind == Redeem && 0 <= i < |b.rows|
    requires b.rows[i].reward == b.rows[pick].reward && b.rows[i].key == RefundKey(b.rows[pick].key)
    ensures Returns(b.rows, i, pick) || b.rows[i].kind == Redeem
  {
    assert RowTrue(cfg, b, i);
    if b.rows[i].kind == Giveback {
      var j :| 0 <= j < |b.rows| && Returns(b.rows, i, j);
      SamePrefix("refund:", b.rows[pick].key, b.rows[j].key);
    }
  }

  /**
   * The second case happens: a member who claims under `k` and under `refund:k` is told that the
   * first claim was refunded already, though no refund was made.
   */
  lemma ClaimUnderARefundKeyBlocks(b: Books, user: Uuid, userRef: string, reward: int, key: string)
    requires key != "" && reward in b.rewards && user in b.points && !HasHistory(b.rows, reward)
    requires forall i :: 0 <= i < |b.rows| ==> b.rows[i].userRef != userRef
    requires var r := b.rewards[reward]; r.status && 2 <= r.stock && 0 < r.price && 2 * r.price <= b.points[user]
    ensures var b1 := ClaimReward(b, Some(user), userRef, reward, key, true).books;
      var b2 := ClaimReward(b1, Some(user), userRef, reward, RefundKey(key), true).books;
      && |b2.rows| == |b.rows| + 2 && b2.rows[|b.rows| + 1].kind == Redeem
      && SomeRefundable(b2.rows, userRef, key) && Refundable(b2.rows, |b.rows|, userRef, key)
      && RefundClaim(b2, Some(user), userRef, key, |b.rows|) == Result(b2, Replay)
  {
    var n := |b.rows|;
    var b1 := ClaimReward(b, Some(user), userRef, reward, key, true).books;
    assert !RowExists(b.rows, reward, key);
    assert b1.rows == b.rows + [PointRow(userRef, reward, key, -b.rewards[reward].price, Redeem)];
    assert |RefundKey(key)| != |key|;
    assert !RowExists(b1.rows, reward, RefundKey(key));
    var b2 := ClaimReward(b1, Some(user), userRef, reward, RefundKey(key), true).books;
    assert b2.rows[n + 1].key == RefundKey(key) && b2.rows[n + 1].reward == reward;
    assert Refundable(b2.rows, n, userRef, key);
  }
}
