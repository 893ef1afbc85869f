/** Callbacks, claims and refunds run one at a time, each on its own copy of the books until it commits. */
module SettlementStore {
  import opened Base
  import opened WalletTables
  import opened WalletSpec
  import opened WalletPostings
  import opened SettlementSpec

  /** A redemption of this user under this key. */
  predicate Redeems(row: PointRow, userRef: string, key: string) {
    row.userRef == userRef && row.key == key && row.kind == Redeem && row.points < 0
  }

  lemma WhatIsRefundable(rows: seq<PointRow>, userRef: string, key: string)
    ensures SomeRefundable(rows, userRef, key) <==> exists i :: 0 <= i < |rows| && Redeems(rows[i], userRef, key)
  {
    if i :| 0 <= i < |rows| && Redeems(rows[i], userRef, key) { assert Refundable(rows, i, userRef, key); }
    if i :| 0 <= i < |rows| && Refundable(rows, i, userRef, key) { assert Redeems(rows[i], userRef, key); }
  }

  /** The wallet takes one entry, and nothing else of it changes. */
  predicate OnlyEntered(
    t: Tables, t': Tables, user: Uuid, source: string, kind: Kind, direction: Direction, amount: int)
  {
    Entered(t, t', user, source, kind, direction, amount) && t' == t.(balances := t'.balances, ledger := t'.ledger)
  }

  class Store {
    var books: Books

    constructor (initial: Books)
      ensures books == initial
    {
      books := initial;
    }

    method ApplyFinancialWebhook(
      authentic: bool, provider: string, ref: string, status: string, user: Uuid, amount: I64)
      returns (verdict: Verdict)
      modifies this
      ensures Result(books, verdict) == Callback(old(books), authentic, provider, ref, status, user, amount)
      ensures verdict != Applied ==> books == old(books)
      ensures verdict == Applied ==>
        books.events == old(books).events[(provider, ref) := EventRow(status, status == "failed")]
      ensures verdict == Applied ==> authentic && status in {"success", "failed"} && 0 < amount
      ensures verdict == Replay <==>
        && authentic && status in {"success", "failed"} && 0 < amount
        && (provider, ref) in old(books).events && old(books).events[(provider, ref)].status == status
      ensures verdict == Applied && (user in old(books).tables.balances ==> 0 <= old(books).tables.balances[user]) ==>
        && var key, before, after := provider + ":" + ref, old(books).tables, books.tables;
        if status == "failed" then OnlyEntered(before, after, user, "webhook-refund:" + key, CreditKind, Credit, amount)
        else if (provider, ref) !in old(books).events then after == before
        else
          && old(books).events[(provider, ref)] == EventRow("failed", true)
          && OnlyEntered(before, after, user, "webhook-correction:" + key, DebitKind, Debit, amount)
      ensures verdict == Applied ==>
        books == old(books).(
          tables := books.tables, events := books.events, awards := books.awards, points := books.points)
      ensures verdict == Applied && status == "success" && !Awarded(old(books).awards, PointsSource(provider, ref)) ==>
        exists points :: FairPoints(points, amount)
          && books.awards == old(books).awards
               + (if points > 0 then [Award(PointsSource(provider, ref), user, points)] else [])
          && if points == 0 then books.points == old(books).points
             else
               && user in old(books).points
               && books.points == old(books).points[user := old(books).points[user] + points]
      ensures verdict == Applied ==>
        status == "failed" || Awarded(old(books).awards, PointsSource(provider, ref)) ==>
          books.awards == old(books).awards && books.points == old(books).points
    {
      if 0 < amount { PointsAreFair(amount, PointsFor(amount)); }
      if user in books.tables.balances ==> 0 <= books.tables.balances[user] {
        Enters(books.tables, user, CorrectionSource(provider, ref), DebitKind, Debit, amount);
        Enters(books.tables, user, RefundSource(provider, ref), CreditKind, Credit, amount);
      }
      if !authentic { return Failed(Conflict); }
      if (status != "success" && status != "failed") || amount <= 0 { return Failed(Conflict); }
      var tx := books;
      var refunded := false;
      if (provider, ref) in tx.events {
        var stored := tx.events[(provider, ref)];
        if stored.status == status { return Replay; }
        if !(stored.refunded && stored.status == "failed" && status != "failed") { return Failed(Conflict); }
        var posting := PostInTx(tx.tables, user, CorrectionSource(provider, ref), DebitKind, Debit, amount);
        if posting.Refused? { return Failed(posting.error); }
        tx := tx.(tables := posting.tables);
      } else if status == "failed" {
        var posting := PostInTx(tx.tables, user, RefundSource(provider, ref), CreditKind, Credit, amount);
        if posting.Refused? { return Failed(posting.error); }
        tx := tx.(tables := posting.tables);
        refunded := true;
      }
      if status == "success" {
        var points := PointsFor(amount);
        var source := PointsSource(provider, ref);
        if points > 0 && !Awarded(tx.awards, source) {
          if user !in tx.points || I64_MAX < tx.points[user] + points { return Failed(Unavailable); }
          tx := tx.(awards := tx.awards + [Award(source, user, points)]);
          tx := tx.(points := tx.points[user := tx.points[user] + points]);
        }
      }
      books := tx.(events := tx.events[(provider, ref) := EventRow(status, refunded)]);
      verdict := Applied;
    }

    method ClaimReward(
      parsed: Option<Uuid>, userRef: string, reward: int, key: string, member: bool) returns (verdict: Verdict)
      modifies this
      ensures Result(books, verdict) == SettlementSpec.ClaimReward(old(books), parsed, userRef, reward, key, member)
      ensures verdict != Claimed ==> books == old(books)
      ensures verdict == Failed(Conflict) <==> parsed.None? || key == ""
      ensures verdict == Replay <==>
        && parsed.Some? && key != "" && reward in old(books).rewards
        && exists i :: 0 <= i < |old(books).rows|
             && old(books).rows[i].reward == reward && old(books).rows[i].key == key
      ensures verdict != Failed(Conflict) && verdict != Replay ==>
        && (verdict == Missing <==>
              || reward !in old(books).rewards || !old(books).rewards[reward].status
              || (old(books).rewards[reward].stock >= 1 && (parsed.value !in old(books).points || !member)))
        && (verdict == Exhausted <==>
              reward in old(books).rewards && old(books).rewards[reward].status && old(books).rewards[reward].stock < 1)
        && (verdict == TooFewPoints <==>
              && reward in old(books).rewards && old(books).rewards[reward].status
              && old(books).rewards[reward].stock >= 1
              && parsed.value in old(books).points && member
              && old(books).points[parsed.value] < old(books).rewards[reward].price)
      ensures verdict == Claimed ==>
        && var r, user := old(books).rewards[reward], parsed.value;
        && r.status && 1 <= r.stock && member && 0 < r.price <= old(books).points[user]
        && books == old(books).(
             rewards := old(books).rewards[reward := Reward(r.price, r.stock - 1, true)],
             points := old(books).points[user := old(books).points[user] - r.price],
             rows := old(books).rows + [PointRow(userRef, reward, key, -r.price, Redeem)])
    {
      if parsed.None? { return Failed(Conflict); }
      if key == "" { return Failed(Conflict); }
      var tx := books;
      if reward !in tx.rewards { return Missing; }
      var r := tx.rewards[reward];
      if RowExists(tx.rows, reward, key) { return Replay; }
      if !r.status { return Missing; }
      if r.stock < 1 { return Exhausted; }
      var user := parsed.value;
      if user !in tx.points || !member { return Missing; }
      if tx.points[user] < r.price { return TooFewPoints; }
      if r.price <= 0 { return Failed(Unavailable); }
      tx := tx.(rewards := tx.rewards[reward := r.(stock := r.stock - 1)]);
      tx := tx.(points := tx.points[user := tx.points[user] - r.price]);
      tx := tx.(rows := tx.rows + [PointRow(userRef, reward, key, -r.price, Redeem)]);
      books := tx;
      verdict := Claimed;
    }

    method RefundRewardClaim(parsed: Option<Uuid>, userRef: string, key: string, pick: int) returns (verdict: Verdict)
      requires SomeRefundable(books.rows, userRef, key) ==> Refundable(books.rows, pick, userRef, key)
      modifies this
      ensures Result(books, verdict) == RefundClaim(old(books), parsed, userRef, key, pick)
      ensures verdict != Returned ==> books == old(books)
      ensures verdict == Failed(Conflict) <==> parsed.None?
      ensures verdict == Missing <==>
        && parsed.Some?
        && !exists i :: 0 <= i < |old(books).rows| && Redeems(old(books).rows[i], userRef, key)
      ensures verdict == Replay <==>
        && parsed.Some? && SomeRefundable(old(books).rows, userRef, key)
        && exists i :: 0 <= i < |old(books).rows| && old(books).rows[i].reward == old(books).rows[pick].reward
             && old(books).rows[i].key == "refund:" + key
      ensures verdict == Returned ==>
        && var row, user := old(books).rows[pick], parsed.value;
        && Redeems(row, userRef, key)
        && books == old(books).(rewards := books.rewards, points := books.points, rows := books.rows)
        && books.rows == old(books).rows + [PointRow(userRef, row.reward, "refund:" + key, -row.points, Giveback)]
        && (if row.reward in old(books).rewards then
              var r := old(books).rewards[row.reward];
              books.rewards == old(books).rewards[row.reward := Reward(r.price, r.stock + 1, r.status)]
            else books.rewards == old(books).rewards)
        && (if user in old(books).points then
              books.points == old(books).points[user := old(books).points[user] - row.points]
            else books.points == old(books).points)
    {
      WhatIsRefundable(books.rows, userRef, key);
      if parsed.None? { return Failed(Conflict); }
      var tx := books;
      if !SomeRefundable(tx.rows, userRef, key) { return Missing; }
      var claim := tx.rows[pick];
      var refundKey := RefundKey(key);
      if RowExists(tx.rows, claim.reward, refundKey) { return Replay; }
      if claim.reward in tx.rewards {
        var r := tx.rewards[claim.reward];
        if r.stock == I32_MAX { return Failed(Unavailable); }
        tx := tx.(rewards := tx.rewards[claim.reward := r.(stock := r.stock + 1)]);
      }
      var user := parsed.value;
      if user in tx.points {
        if I64_MAX < tx.points[user] - claim.points { return Failed(Unavailable); }
      }
      if claim.points == I64_MIN { return Failed(Unavailable); }
      if user in tx.points {
        tx := tx.(points := tx.points[user := tx.points[user] - claim.points]);
      }
      books := tx.(rows := tx.rows + [PointRow(userRef, claim.reward, refundKey, -claim.points, Giveback)]);
      verdict := Returned;
    }

    method CreateReward(price: I64, stock: int) returns (verdict: Verdict)
      modifies this
      ensures Result(books, verdict) == SettlementSpec.CreateReward(old(books), price, stock)
      ensures verdict == if 0 < price && 0 <= stock <= 0x7FFF_FFFF then Created(old(books).nextReward)
                         else Failed(Unavailable)
      ensures verdict.Created? ==>
        && books == old(books).(rewards := books.rewards, nextReward := verdict.id + 1)
        && books.rewards == old(books).rewards[verdict.id := Reward(price, stock, true)]
      ensures !verdict.Created? ==> books == old(books)
    {
      if price <= 0 || !(0 <= stock <= I32_MAX) { return Failed(Unavailable); }
      var id := books.nextReward;
      books := books.(rewards := books.rewards[id := Reward(price, stock, true)], nextReward := id + 1);
      verdict := Created(id);
    }

    method RemoveReward(reward: int) returns (verdict: Verdict)
      modifies this
      ensures Result(books, verdict) == DeleteReward(old(books), reward)
      ensures verdict == Deleted(true) <==>
        && reward in old(books).rewards
        && forall i :: 0 <= i < |old(books).rows| ==> old(books).rows[i].reward != reward
      ensures verdict != Deleted(true) ==> verdict == Deleted(false) && books == old(books)
      ensures verdict == Deleted(true) ==> books == old(books).(rewards := old(books).rewards - {reward})
    {
      if HasHistory(books.rows, reward) { return Deleted(false); }
      if reward !in books.rewards { return Deleted(false); }
      books := books.(rewards := books.rewards - {reward});
      verdict := Deleted(true);
    }
  }
}
