/**
 * One callback key through a run: what its event row, its two ledger entries and its award have to do
 * with its purchase, and exactly which events of others disturb that.
 */
module SettlementKeys {
  import opened Base
  import opened WalletTables
  import opened WalletSpec
  import opened WalletPostings
  import opened SettlementSpec
  import opened SettlementRuns

  predicate EntryIs(e: Option<Entry>, d: Deal, direction: Direction) {
    e.Some? && e.value.user == d.user && e.value.amount == d.amount && e.value.direction == direction
  }

  predicate AwardsAre(awards: seq<Award>, source: string, d: Deal) {
    forall i :: 0 <= i < |awards| && awards[i].source == source ==>
      0 < d.amount && awards[i].user == d.user && awards[i].points == PointsFor(d.amount)
  }

  /** The event row, the two ledger entries and the award of one key, given what its purchase was. */
  predicate HookTrue(d: Deal, row: Option<EventRow>, back: Option<Entry>, fix: Option<Entry>, awarded: bool) {
    match row
    case None => back.None? && fix.None? && !awarded
    case Some(r) =>
      && 0 < d.amount
      && (r.status == "failed" || r.status == "success") && r.refunded == (r.status == "failed")
      && (if r.status == "failed" then EntryIs(back, d, Credit) && fix.None? && !awarded
          else
            && ((back.None? && fix.None?) || (EntryIs(back, d, Credit) && EntryIs(fix, d, Debit)))
            && (awarded <==> PointsFor(d.amount) > 0))
  }

  function RowOf(b: Books, provider: string, ref: string): Option<EventRow> {
    if (provider, ref) in b.events then Some(b.events[(provider, ref)]) else None
  }

  predicate HookSettled(d: Deal, b: Books, provider: string, ref: string) {
    && HookTrue(d, RowOf(b, provider, ref),
         Find(b.tables.ledger, RefundSource(provider, ref)), Find(b.tables.ledger, CorrectionSource(provider, ref)),
         Awarded(b.awards, PointsSource(provider, ref)))
    && AwardsAre(b.awards, PointsSource(provider, ref), d)
  }

  /** Nothing was settled for the key, and nobody uses its sources. */
  predicate Untouched(b: Books, provider: string, ref: string) {
    && (provider, ref) !in b.events
    && Find(b.tables.ledger, RefundSource(provider, ref)).None?
    && Find(b.tables.ledger, CorrectionSource(provider, ref)).None?
    && !Awarded(b.awards, PointsSource(provider, ref))
  }

  // ----- what disturbs a key -----

  // ----- the guards of a callback -----

  predicate WellFormed(authentic: bool, status: string, amount: I64) {
    authentic && (status == "success" || status == "failed") && 0 < amount
  }

  /** The points of this success can be added, or there are none to add. */
  predicate AwardFits(b: Books, provider: string, ref: string, user: Uuid, amount: I64)
    requires 0 < amount
  {
    PointsFor(amount) > 0 && !Awarded(b.awards, PointsSource(provider, ref)) ==>
      user in b.points && b.points[user] + PointsFor(amount) <= I64_MAX
  }

  /** A first failure, a first success or a correction that meets no obstacle. */
  predicate Accepts(b: Books, authentic: bool, p: string, r: string, status: string, user: Uuid, amount: I64) {
    && WellFormed(authentic, status, amount)
    && match RowOf(b, p, r)
       case None =>
         if status == "failed" then PostingFits(b.tables, RefundSource(p, r), user, amount)
           else AwardFits(b, p, r, user, amount)
       case Some(row) =>
         && row == EventRow("failed", true) && status == "success"
         && PostingFits(b.tables, CorrectionSource(p, r), user, -amount) && AwardFits(b, p, r, user, amount)
  }

  lemma AcceptsExactly(b: Books, authentic: bool, p: string, r: string, status: string, user: Uuid, amount: I64)
    ensures Callback(b, authentic, p, r, status, user, amount).verdict == Applied <==>
      Accepts(b, authentic, p, r, status, user, amount)
  {
  }

  /** An applied callback of the key itself that is about another purchase than `d`. */
  predicate Misstates(d: Deal, b: Books, p: string, r: string, status: string, told: Deal)
    requires 0 < told.amount
  {
    if (p, r) in b.events || status == "failed" then told != d
    else
      || d.amount <= 0 || PointsFor(told.amount) != PointsFor(d.amount)
      || (PointsFor(told.amount) > 0 && told.user != d.user)
  }

  /**
   * An applied callback of another key with the same text takes a source unless it is a first success without
   * an award.
   */
  predicate TakesSource(b: Books, q: string, s: string, status: string, amount: I64)
    requires 0 < amount
  {
    (q, s) in b.events || status == "failed" || (PointsFor(amount) > 0 && !Awarded(b.awards, PointsSource(q, s)))
  }

  predicate Intrudes(d: Deal, b: Books, e: Event, p: string, r: string) {
    match e
    case Hook(authentic, q, s, status, user, amount) =>
      && Accepts(b, authentic, q, s, status, user, amount)
      && (if (q, s) == (p, r) then Misstates(d, b, p, r, status, Deal(user, amount))
          else KeyText(q, s) == KeyText(p, r) && TakesSource(b, q, s, status, amount))
    case Money(program, quote) =>
      && (Writes(program) == RefundSource(p, r) || Writes(program) == CorrectionSource(p, r))
      && Posts(b.tables, program, quote)
    case _ => false
  }

  // ----- one event -----

  lemma {:induction false} CallbackLedger(
    b: Books, authentic: bool, p: string, r: string, status: string, d: Deal, other: string)
    requires other != RefundSource(p, r) && other != CorrectionSource(p, r)
    ensures Find(Callback(b, authentic, p, r, status, d.user, d.amount).books.tables.ledger, other) ==
      Find(b.tables.ledger, other)
  {
    if PostInTx(b.tables, d.user, CorrectionSource(p, r), DebitKind, Debit, d.amount).Posted? {
      PostingFinds(b.tables, d.user, CorrectionSource(p, r), DebitKind, Debit, d.amount, other);
    }
    if PostInTx(b.tables, d.user, RefundSource(p, r), CreditKind, Credit, d.amount).Posted? {
      PostingFinds(b.tables, d.user, RefundSource(p, r), CreditKind, Credit, d.amount, other);
    }
  }

  /** What a callback that applies does to the two sources of its key. */
  lemma SettledMove(b: Books, p: string, r: string, status: string, d: Deal)
    requires MoveMoney(b, p, r, status, d.user, d.amount).Moved?
    ensures var m := MoveMoney(b, p, r, status, d.user, d.amount);
      && m.refunded == ((p, r) !in b.events && status == "failed")
      && (var back, was := Find(m.tables.ledger, RefundSource(p, r)), Find(b.tables.ledger, RefundSource(p, r));
          if m.refunded then was.None? && EntryIs(back, d, Credit) else back == was)
      && (var fix, was := Find(m.tables.ledger, CorrectionSource(p, r)), Find(b.tables.ledger, CorrectionSource(p, r));
          if (p, r) in b.events then was.None? && EntryIs(fix, d, Debit) else fix == was)
  {
    SourcesDiffer(p, r, p, r);
    if (p, r) in b.events {
      PostingFinds(b.tables, d.user, CorrectionSource(p, r), DebitKind, Debit, d.amount, RefundSource(p, r));
    } else if status == "failed" {
      PostingFinds(b.tables, d.user, RefundSource(p, r), CreditKind, Credit, d.amount, CorrectionSource(p, r));
    }
  }

  /** What a callback that applies does to the award of its key. */
  lemma SettledAward(b: Books, p: string, r: string, status: string, d: Deal)
    requires Callback(b, true, p, r, status, d.user, d.amount).verdict == Applied
    ensures var b' := Callback(b, true, p, r, status, d.user, d.amount).books;
      if status == "success" && PointsFor(d.amount) > 0 && !Awarded(b.awards, PointsSource(p, r))
      then b'.awards == b.awards + [Award(PointsSource(p, r), d.user, PointsFor(d.amount))]
      else b'.awards == b.awards
  {
  }

  lemma {:induction false} AwardAdded(awards: seq<Award>, a: Award, d: Deal)
    requires !Awarded(awards, a.source)
    ensures Awarded(awards + [a], a.source)
    ensures AwardsAre(awards + [a], a.source, d) <==>
      0 < d.amount && a.user == d.user && a.points == PointsFor(d.amount)
  {
    var grown := awards + [a];
    assert grown[|awards|] == a;
    forall i | 0 <= i < |awards| ensures grown[i].source != a.source {
      assert grown[i] == awards[i];
    }
  }

  lemma AppliedMeans(b: Books, authentic: bool, p: string, r: string, status: string, d: Deal)
    requires Callback(b, authentic, p, r, status, d.user, d.amount).verdict == Applied
    ensures authentic && 0 < d.amount && (status == "success" || status == "failed")
    ensures (p, r) in b.events ==> status == "success" && b.events[(p, r)] == EventRow("failed", true)
    ensures MoveMoney(b, p, r, status, d.user, d.amount).Moved?
    ensures var b' := Callback(b, authentic, p, r, status, d.user, d.amount).books;
      var m := MoveMoney(b, p, r, status, d.user, d.amount);
      b'.tables == m.tables && b'.events == b.events[(p, r) := EventRow(status, m.refunded)]
  {
  }

  /** The awards of a key after a success told about `told`. */
  lemma AwardOfOwn(d: Deal, b: Books, p: string, r: string, status: string, told: Deal)
    requires Callback(b, true, p, r, status, told.user, told.amount).verdict == Applied && 0 < told.amount
    requires !Awarded(b.awards, PointsSource(p, r))
    ensures var awards := Callback(b, true, p, r, status, told.user, told.amount).books.awards;
      && (Awarded(awards, PointsSource(p, r)) <==> status == "success" && PointsFor(told.amount) > 0)
      && (AwardsAre(awards, PointsSource(p, r), d) <==>
            (status == "success" && PointsFor(told.amount) > 0 ==>
               0 < d.amount && told.user == d.user && PointsFor(told.amount) == PointsFor(d.amount)))
  {
    SettledAward(b, p, r, status, told);
    if status == "success" && PointsFor(told.amount) > 0 {
      AwardAdded(b.awards, Award(PointsSource(p, r), told.user, PointsFor(told.amount)), d);
    }
  }

  /** A callback of the key itself keeps it settled exactly when it is about the purchase. */
  lemma OwnHookExactly(d: Deal, b: Books, p: string, r: string, status: string, told: Deal)
    requires HookSettled(d, b, p, r)
    requires Callback(b, true, p, r, status, told.user, told.amount).verdict == Applied && 0 < told.amount
    ensures HookSettled(d, Callback(b, true, p, r, status, told.user, told.amount).books, p, r) <==>
      !Misstates(d, b, p, r, status, told)
  {
    AppliedMeans(b, true, p, r, status, told);
    SettledMove(b, p, r, status, told);
    AwardOfOwn(d, b, p, r, status, told);
  }

  /** A callback of another key with another text leaves the key alone. */
  lemma HookElsewhere(
    d: Deal, b: Books, authentic: bool, q: string, s: string, status: string, told: Deal, p: string, r: string)
    requires KeyText(q, s) != KeyText(p, r)
    ensures var b' := Callback(b, authentic, q, s, status, told.user, told.amount).books;
      HookSettled(d, b', p, r) <==> HookSettled(d, b, p, r)
  {
    var b' := Callback(b, authentic, q, s, status, told.user, told.amount).books;
    SourcesDiffer(q, s, p, r);
    SourcesDiffer(p, r, q, s);
    CallbackLedger(b, authentic, q, s, status, told, RefundSource(p, r));
    CallbackLedger(b, authentic, q, s, status, told, CorrectionSource(p, r));
    CallbackAwards(b, authentic, q, s, status, told);
    if b' != b {
      AwardedAfter(b.awards, b'.awards, PointsSource(q, s), told.user, PointsFor(told.amount), PointsSource(p, r));
      AwardsElsewhere(b.awards, b'.awards, PointsSource(q, s), told.user, PointsFor(told.amount), PointsSource(p, r),
        d);
    }
  }

  lemma {:induction false} AwardsElsewhere(
    awards: seq<Award>, awards': seq<Award>, source: string, user: Uuid, points: int, other: string, d: Deal)
    requires AwardsGrowBy(awards, awards', source, user, points) && other != source
    ensures AwardsAre(awards', other, d) <==> AwardsAre(awards, other, d)
  {
    if AwardsAre(awards', other, d) {
      forall i | 0 <= i < |awards| && awards[i].source == other
        ensures 0 < d.amount && awards[i].user == d.user && awards[i].points == PointsFor(d.amount)
      {
        assert awards'[i] == awards[i];
      }
    }
  }

  /** A callback of another key with the same text disturbs the key exactly when it takes a source. */
  lemma SharedTextExactly(d: Deal, b: Books, q: string, s: string, status: string, told: Deal, p: string, r: string)
    requires (q, s) != (p, r) && KeyText(q, s) == KeyText(p, r) && HookSettled(d, b, p, r)
    requires Callback(b, true, q, s, status, told.user, told.amount).verdict == Applied && 0 < told.amount
    ensures var b' := Callback(b, true, q, s, status, told.user, told.amount).books;
      HookSettled(d, b', p, r) <==> !TakesSource(b, q, s, status, told.amount)
  {
    var b' := Callback(b, true, q, s, status, told.user, told.amount).books;
    SourcesDiffer(q, s, p, r);
    AppliedMeans(b, true, q, s, status, told);
    SettledMove(b, q, s, status, told);
    SettledAward(b, q, s, status, told);
    if b'.awards != b.awards {
      AwardAdded(b.awards, Award(PointsSource(q, s), told.user, PointsFor(told.amount)), d);
    }
  }

  lemma HookExactly(cfg: Config, d: Deal, b: Books, e: Event, p: string, r: string)
    requires e.Hook? && HookSettled(d, b, p, r)
    ensures HookSettled(d, Do(cfg, b, e), p, r) <==> !Intrudes(d, b, e, p, r)
  {
    var told := Deal(e.user, e.amount);
    AcceptsExactly(b, e.authentic, e.provider, e.ref, e.status, e.user, e.amount);
    if Callback(b, e.authentic, e.provider, e.ref, e.status, e.user, e.amount).verdict == Applied {
      AppliedMeans(b, e.authentic, e.provider, e.ref, e.status, told);
      if (e.provider, e.ref) == (p, r) { OwnHookExactly(d, b, p, r, e.status, told); }
      else if KeyText(e.provider, e.ref) == KeyText(p, r) {
        SharedTextExactly(d, b, e.provider, e.ref, e.status, told, p, r);
      }
      else { HookElsewhere(d, b, e.authentic, e.provider, e.ref, e.status, told, p, r); }
    }
  }

  lemma MoneyExactly(cfg: Config, d: Deal, b: Books, e: Event, p: string, r: string)
    requires e.Money? && HookSettled(d, b, p, r)
    ensures HookSettled(d, Do(cfg, b, e), p, r) <==> !Intrudes(d, b, e, p, r)
  {
    SourcesDiffer(p, r, p, r);
    OperationMoves(b.tables, e.program, e.quote, RefundSource(p, r));
    OperationMoves(b.tables, e.program, e.quote, CorrectionSource(p, r));
  }

  lemma {:induction false} OperationMoves(t: Tables, p: Program, quote: Option<I64>, source: string)
    ensures var t' := Execute(t, p, quote).tables;
      if source == Writes(p) && Posts(t, p, quote) then Find(t.ledger, source).None? && Find(t'.ledger, source).Some?
      else Find(t'.ledger, source) == Find(t.ledger, source)
  {
    PostsExactly(t, p, quote);
    if source != Writes(p) || Find(t.ledger, source).Some? { OperationFinds(t, p, quote, source); }
  }

  /** One event of any kind keeps a settled key settled exactly when it does not intrude. */
  lemma EventSettlesExactly(cfg: Config, d: Deal, b: Books, e: Event, p: string, r: string)
    requires Enabled(b, e) && HookSettled(d, b, p, r)
    ensures HookSettled(d, Do(cfg, b, e), p, r) <==> !Intrudes(d, b, e, p, r)
  {
    if e.Hook? { HookExactly(cfg, d, b, e, p, r); }
    else if e.Money? { MoneyExactly(cfg, d, b, e, p, r); }
  }

  // ----- runs -----

  predicate SettledThroughout(cfg: Config, d: Deal, b: Books, es: seq<Event>, p: string, r: string)
    requires Legal(cfg, b, es)
    decreases |es|
  {
    HookSettled(d, b, p, r) && (|es| == 0 || SettledThroughout(cfg, d, Do(cfg, b, es[0]), es[1..], p, r))
  }

  predicate Undisturbed(cfg: Config, d: Deal, b: Books, es: seq<Event>, p: string, r: string)
    requires Legal(cfg, b, es)
    decreases |es|
  {
    |es| == 0 || (!Intrudes(d, b, es[0], p, r) && Undisturbed(cfg, d, Do(cfg, b, es[0]), es[1..], p, r))
  }

  /** A key stays settled through a run exactly when no event of the run intrudes. */
  lemma {:induction false} RunSettlesExactly(cfg: Config, d: Deal, b: Books, es: seq<Event>, p: string, r: string)
    requires Legal(cfg, b, es) && HookSettled(d, b, p, r)
    ensures SettledThroughout(cfg, d, b, es, p, r) <==> Undisturbed(cfg, d, b, es, p, r)
    ensures Undisturbed(cfg, d, b, es, p, r) ==> HookSettled(d, After(cfg, b, es), p, r)
    decreases |es|
  {
    if |es| != 0 {
      var b1 := Do(cfg, b, es[0]);
      EventSettlesExactly(cfg, d, b, es[0], p, r);
      if HookSettled(d, b1, p, r) { RunSettlesExactly(cfg, d, b1, es[1..], p, r); }
    }
  }

  /**
   * What a caller can see without the books: callbacks of the key tell its purchase, and no one else spells
   * its sources.
   */
  predicate Apart(d: Deal, e: Event, p: string, r: string) {
    match e
    case Hook(_, q, s, _, user, amount) =>
      if (q, s) == (p, r) then Deal(user, amount) == d else KeyText(q, s) != KeyText(p, r)
    case Money(program, _) => Writes(program) != RefundSource(p, r) && Writes(program) != CorrectionSource(p, r)
    case _ => true
  }

  lemma {:induction false} ApartIsUndisturbed(cfg: Config, d: Deal, b: Books, es: seq<Event>, p: string, r: string)
    requires Legal(cfg, b, es) && forall i :: 0 <= i < |es| ==> Apart(d, es[i], p, r)
    ensures Undisturbed(cfg, d, b, es, p, r)
    decreases |es|
  {
    if |es| != 0 {
      assert Apart(d, es[0], p, r);
      ApartIsUndisturbed(cfg, d, Do(cfg, b, es[0]), es[1..], p, r);
    }
  }
}
