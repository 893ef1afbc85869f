/** What the money store promises over every interleaved run of its transactions. */
module WalletGuarantees {
  import opened Base
  import opened WalletTables
  import opened WalletSpec
  import opened WalletSoundness
  import opened WalletTransactions
  import opened WalletInterleaving

  predicate Posts(p: Program) {
    p.Post? || p.CreditOnce? || p.Checkout? || p.ApproveDeposit? || p.RefundDeposit? || p.AdjustBalance?
  }

  // ---- Balances and the ledger ----

  /** In every committed state each balance is non-negative, equals its ledger sum, and fits 64 bits. */
  lemma {:induction false} BalancesReconcile(db0: Tables, run: seq<Event>, user: Uuid)
    requires Sound(db0) && Legal(Start(db0), run) && user in After(Start(db0), run).db.balances
    ensures var db := After(Start(db0), run).db;
      0 <= db.balances[user] <= I64_MAX && db.balances[user] == Total(db.ledger, user)
  {
    EveryRunIsSerial(db0, run);
  }

  lemma {:induction false} SoundEntryIsFound(ledger: seq<Entry>, i: nat)
    requires DistinctSources(ledger) && i < |ledger|
    ensures Find(ledger, ledger[i].source) == Some(ledger[i])
  {
    FindMember(ledger, i);
  }

  /** Each committed entry records the balance of its user at that point, under a source of its own. */
  lemma {:induction false} EntriesCarryPrefixSums(db0: Tables, run: seq<Event>, i: nat)
    requires Sound(db0) && Legal(Start(db0), run) && i < |After(Start(db0), run).db.ledger|
    ensures var ledger := After(Start(db0), run).db.ledger;
      && ledger[i].balanceAfter == Total(ledger[..i + 1], ledger[i].user)
      && Find(ledger, ledger[i].source) == Some(ledger[i])
  {
    var t := After(Start(db0), run).db;
    assert LedgerSound(t.balances, t.ledger) by { EveryRunIsSerial(db0, run); }
    assert EntrySound(t.ledger, i);
    SoundEntryIsFound(t.ledger, i);
  }

  // ---- What no operation undoes ----

  ghost predicate Kept<V(!new)>(m: map<string, V>, m': map<string, V>) {
    forall k :: k in m ==> k in m' && m'[k] == m[k]
  }

  ghost predicate OutboxAdvances(m: map<string, OutboxRow>, m': map<string, OutboxRow>) {
    forall r :: r in m ==> r in m' && RowAdvances(m[r], m'[r])
  }

  ghost predicate DepositsAdvance(m: map<string, Deposit>, m': map<string, Deposit>) {
    forall d :: d in m ==> d in m' && DepositAdvances(m[d], m'[d])
  }

  ghost predicate LedgerKept(ledger: seq<Entry>, ledger': seq<Entry>) {
    forall s :: Find(ledger, s).Some? ==> Find(ledger', s) == Find(ledger, s)
  }

  /** Rows that later operations may add to but never rewrite, and status changes that are one-way. */
  ghost predicate Preserves(t: Tables, t': Tables) {
    LedgerKept(t.ledger, t'.ledger) && PreservesRows(t, t')
  }

  ghost predicate PreservesRows(t: Tables, t': Tables) {
    && t.balances.Keys <= t'.balances.Keys
    && Kept(t.claims, t'.claims) && Kept(t.orders, t'.orders) && Kept(t.guests, t'.guests)
    && OutboxAdvances(t.outbox, t'.outbox)
    && DepositsAdvance(t.deposits, t'.deposits)
  }

  ghost predicate RowAdvances(a: OutboxRow, b: OutboxRow) {
    && b.payload == a.payload
    && (a.state != Pending ==> b.state != Pending)
    && (a.state == Sent ==> b == a)
  }

  ghost predicate DepositAdvances(a: Deposit, b: Deposit) {
    && b == a.(status := b.status)
    && (|| b.status == a.status
        || (a.status == Awaiting && b.status == Approved) || (a.status != Rejected && b.status == Refunded))
  }

  ghost predicate GrownBy(ledger: seq<Entry>, ledger': seq<Entry>, e: Entry) {
    ledger' == ledger + [e] && Find(ledger, e.source).None?
  }

  ghost predicate Grown(ledger: seq<Entry>, ledger': seq<Entry>) {
    ledger' == ledger || exists e :: GrownBy(ledger, ledger', e)
  }

  lemma GrownKeepsFound(ledger: seq<Entry>, ledger': seq<Entry>)
    requires Grown(ledger, ledger')
    ensures LedgerKept(ledger, ledger')
  {
    if ledger' != ledger {
      var e :| GrownBy(ledger, ledger', e);
      forall s | Find(ledger, s).Some? ensures Find(ledger', s) == Find(ledger, s) {
        FindAfterAppend(ledger, e, s);
      }
    }
  }

  lemma PostingGrows(t: Tables, user: Uuid, source: string, kind: Kind, direction: Direction, amount: I64)
    ensures var r := PostInTx(t, user, source, kind, direction, amount);
      r.Posted? ==> Grown(t.ledger, r.tables.ledger)
  {
    var r := PostInTx(t, user, source, kind, direction, amount);
    if r.Posted? {
      assert GrownBy(t.ledger, r.tables.ledger, Entry(user, source, kind, direction, amount, r.next));
    }
  }

  lemma PostGrows(t: Tables, user: Uuid, source: string, kind: Kind, direction: Direction, amount: I64, abort: bool)
    ensures Grown(t.ledger, PostEffect(t, user, source, kind, direction, amount, abort).tables.ledger)
  {
    PostingGrows(t, user, source, kind, direction, amount);
  }

  lemma AdjustGrows(t: Tables, actor: Uuid, user: Uuid, key: string, amount: I64)
    ensures Grown(t.ledger, AdjustEffect(t, actor, user, key, amount).tables.ledger)
  {
    PostingGrows(t, user, key, AdjustmentKind, if amount > 0 then Credit else Debit, Abs64(amount));
  }

  lemma ApproveGrows(t: Tables, actor: Uuid, owner: bool, deposit: string)
    ensures Grown(t.ledger, ApproveEffect(t, actor, owner, deposit).tables.ledger)
  {
    if deposit in t.deposits {
      var d := t.deposits[deposit];
      PostingGrows(t, d.user, ApprovalSource(deposit), CreditKind, Credit, Wrap64(d.amount - d.fee));
    }
  }

  lemma RefundGrows(t: Tables, actor: Uuid, deposit: string, key: string)
    ensures Grown(t.ledger, RefundEffect(t, actor, deposit, key).tables.ledger)
  {
    if deposit in t.deposits && Find(t.ledger, ApprovalSource(deposit)).Some? {
      PostingGrows(t, t.deposits[deposit].user, key, DebitKind, Debit,
        Find(t.ledger, ApprovalSource(deposit)).value.amount);
    }
  }

  lemma CreditGrows(t: Tables, user: Uuid, key: string, digest: string, amount: I64)
    ensures Grown(t.ledger, CreditOnceEffect(t, user, key, digest, amount).tables.ledger)
  {
    var t' := CreditOnceEffect(t, user, key, digest, amount).tables;
    CreditOnceShape(t, user, key, digest, amount);
    if t' != t {
      assert GrownBy(t.ledger, t'.ledger, Entry(user, key, CreditKind, Credit, amount, t.balances[user] + amount));
    }
  }

  lemma CheckoutGrows(
    t: Tables, user: Uuid, key: string, digest: string, product: string, level: string, abort: bool, quote: Option<I64>)
    ensures Grown(t.ledger, CheckoutEffect(t, user, key, digest, product, level, abort, quote).tables.ledger)
  {
    var t' := CheckoutEffect(t, user, key, digest, product, level, abort, quote).tables;
    CheckoutShape(t, user, key, digest, product, level, abort, quote);
    if t' != t && quote.Some? {
      assert GrownBy(t.ledger, t'.ledger, Entry(user, key, DebitKind, Debit, quote.value,
          t.balances[user] - quote.value));
    }
  }

  /** An operation appends at most one entry, under a new source, and never touches an older one. */
  lemma LedgerOnlyGrows(t: Tables, p: Program, quote: Option<I64>)
    ensures Grown(t.ledger, Execute(t, p, quote).tables.ledger)
  {
    match p
    case Post(user, source, kind, direction, amount, abort) =>
      PostGrows(t, user, source, kind, direction, amount, abort);
    case AdjustBalance(actor, user, key, amount) => AdjustGrows(t, actor, user, key, amount);
    case ApproveDeposit(actor, owner, deposit) => ApproveGrows(t, actor, owner, deposit);
    case RefundDeposit(actor, deposit, key) => RefundGrows(t, actor, deposit, key);
    case CreditOnce(user, key, digest, amount) => CreditGrows(t, user, key, digest, amount);
    case Checkout(user, key, digest, product, level, abort) =>
      CheckoutGrows(t, user, key, digest, product, level, abort, quote);
    case _ =>
  }

  lemma ExecuteKeepsFound(t: Tables, p: Program, quote: Option<I64>)
    ensures LedgerKept(t.ledger, Execute(t, p, quote).tables.ledger)
  {
    LedgerOnlyGrows(t, p, quote);
    GrownKeepsFound(t.ledger, Execute(t, p, quote).tables.ledger);
  }

  lemma DepositChangeAdvances(deposits: map<string, Deposit>, deposit: string, status: DepositStatus)
    requires deposit in deposits && DepositAdvances(deposits[deposit], deposits[deposit].(status := status))
    ensures DepositsAdvance(deposits, deposits[deposit := deposits[deposit].(status := status)])
  {
  }

  lemma RowChangeAdvances(outbox: map<string, OutboxRow>, ref: string, row: OutboxRow)
    requires ref in outbox ==> RowAdvances(outbox[ref], row)
    ensures OutboxAdvances(outbox, outbox[ref := row])
  {
  }

  lemma NewRowKept<V(!new)>(m: map<string, V>, k: string, v: V)
    requires k !in m
    ensures Kept(m, m[k := v])
  {
  }

  lemma CreditOncePreserves(t: Tables, user: Uuid, key: string, digest: string, amount: I64)
    ensures PreservesRows(t, CreditOnceEffect(t, user, key, digest, amount).tables)
  {
  }

  lemma CheckoutPreserves(
    t: Tables, user: Uuid, key: string, digest: string, product: string, level: string, abort: bool, quote: Option<I64>)
    ensures PreservesRows(t, CheckoutEffect(t, user, key, digest, product, level, abort, quote).tables)
  {
    if key !in t.orders && key !in t.outbox && quote.Some? {
      RowChangeAdvances(t.outbox, key, OutboxRow(MemberOrder(product, quote.value), Pending, 0, None));
      NewRowKept(t.orders, key, Order(user, digest, product, level, quote.value));
    }
  }

  /** A new status for one deposit and one more entry and audit. */
  lemma StatusChangePreserves(
    t: Tables, t': Tables, deposit: string, status: DepositStatus, e: Entry, audits: map<string, Audit>)
    requires deposit in t.deposits && DepositAdvances(t.deposits[deposit], t.deposits[deposit].(status := status))
    requires t' ==
      WithEntry(t, e).(deposits := t.deposits[deposit := t.deposits[deposit].(status := status)], audits := audits)
    ensures PreservesRows(t, t')
  {
    DepositChangeAdvances(t.deposits, deposit, status);
  }

  lemma ApprovePreserves(t: Tables, actor: Uuid, owner: bool, deposit: string)
    ensures PreservesRows(t, ApproveEffect(t, actor, owner, deposit).tables)
  {
    var t' := ApproveEffect(t, actor, owner, deposit).tables;
    var e, a := ApprovalShape(t, actor, owner, deposit);
    if t' != t { StatusChangePreserves(t, t', deposit, Approved, e, t'.audits); }
  }

  lemma RefundPreserves(t: Tables, actor: Uuid, deposit: string, key: string)
    ensures PreservesRows(t, RefundEffect(t, actor, deposit, key).tables)
  {
    var t' := RefundEffect(t, actor, deposit, key).tables;
    var e, a := RefundShape(t, actor, deposit, key);
    if t' != t { StatusChangePreserves(t, t', deposit, Refunded, e, t'.audits); }
  }

  lemma GuestPreserves(t: Tables, key: string, digest: string, invoice: string, product: string, at: int)
    ensures PreservesRows(t, GuestEffect(t, key, digest, invoice, product, at).tables)
  {
    if key !in t.guests && key !in t.outbox && product in t.products {
      RowChangeAdvances(t.outbox, key, OutboxRow(GuestInvoice(invoice), Pending, 0, None));
      NewRowKept(t.guests, key, GuestOrder(invoice, digest, product, t.products[product].basic));
    }
  }

  lemma EnqueuePreserves(t: Tables, ref: string, payload: string)
    ensures PreservesRows(t, EnqueueEffect(t, ref, payload).tables)
  {
    if ref !in t.outbox {
      RowChangeAdvances(t.outbox, ref, OutboxRow(Raw(payload), Pending, 0, None));
    }
  }

  lemma ClaimPreserves(t: Tables, ref: string)
    ensures PreservesRows(t, ClaimEffect(t, ref).tables)
  {
    if ref in t.outbox && t.outbox[ref].state == Pending {
      RowChangeAdvances(t.outbox, ref, t.outbox[ref].(state := Sending, lease := t.outbox[ref].lease + 1));
    }
  }

  lemma AmbiguousPreserves(t: Tables, ref: string, lease: int)
    ensures PreservesRows(t, AmbiguousEffect(t, ref, lease).tables)
  {
    if ref in t.outbox && t.outbox[ref].state == Sending {
      RowChangeAdvances(t.outbox, ref, t.outbox[ref].(state := Ambiguous));
    }
  }

  lemma ReconcilePreserves(t: Tables, ref: string, result: string)
    requires OutboxSound(t.outbox)
    ensures PreservesRows(t, ReconcileProviderEffect(t, ref, result).tables)
  {
    if ref in t.outbox && t.outbox[ref].state != Sent {
      RowChangeAdvances(t.outbox, ref, t.outbox[ref].(state := Sent, result := Some(result)));
    }
  }

  lemma PostPreserves(t: Tables, user: Uuid, source: string, kind: Kind, direction: Direction, amount: I64, abort: bool)
    ensures PreservesRows(t, PostEffect(t, user, source, kind, direction, amount, abort).tables)
  {
  }

  lemma AdjustPreserves(t: Tables, actor: Uuid, user: Uuid, key: string, amount: I64)
    ensures PreservesRows(t, AdjustEffect(t, actor, user, key, amount).tables)
  {
  }

  lemma RepricePreserves(t: Tables, code: string, row: Product)
    ensures PreservesRows(t, RepriceEffect(t, code, row).tables)
  {
  }

  lemma ExecutePreservesRows(t: Tables, p: Program, quote: Option<I64>)
    requires OutboxSound(t.outbox)
    ensures PreservesRows(t, Execute(t, p, quote).tables)
  {
    match p
    case CreditOnce(user, key, digest, amount) => CreditOncePreserves(t, user, key, digest, amount);
    case Checkout(user, key, digest, product, level, abort) =>
      CheckoutPreserves(t, user, key, digest, product, level, abort, quote);
    case ApproveDeposit(actor, owner, deposit) => ApprovePreserves(t, actor, owner, deposit);
    case RefundDeposit(actor, deposit, key) => RefundPreserves(t, actor, deposit, key);
    case GuestCheckout(key, digest, invoice, product, at) => GuestPreserves(t, key, digest, invoice, product, at);
    case Enqueue(ref, payload) => EnqueuePreserves(t, ref, payload);
    case ClaimProvider(ref) => ClaimPreserves(t, ref);
    case MarkAmbiguous(ref, lease) => AmbiguousPreserves(t, ref, lease);
    case ReconcileProvider(ref, result) => ReconcilePreserves(t, ref, result);
    case Post(user, source, kind, direction, amount, abort) =>
      PostPreserves(t, user, source, kind, direction, amount, abort);
    case AdjustBalance(actor, user, key, amount) => AdjustPreserves(t, actor, user, key, amount);
    case Reprice(product, row) => RepricePreserves(t, product, row);
  }

  lemma ExecutePreserves(t: Tables, p: Program, quote: Option<I64>)
    requires OutboxSound(t.outbox)
    ensures Preserves(t, Execute(t, p, quote).tables)
  {
    ExecutePreservesRows(t, p, quote);
    ExecuteKeepsFound(t, p, quote);
  }

  lemma CheckoutKeepsOutboxSound(
    t: Tables, user: Uuid, key: string, digest: string, product: string, level: string, abort: bool, quote: Option<I64>)
    requires OutboxSound(t.outbox)
    ensures OutboxSound(CheckoutEffect(t, user, key, digest, product, level, abort, quote).tables.outbox)
  {
  }

  lemma GuestKeepsOutboxSound(t: Tables, key: string, digest: string, invoice: string, product: string, at: int)
    requires OutboxSound(t.outbox)
    ensures OutboxSound(GuestEffect(t, key, digest, invoice, product, at).tables.outbox)
  {
  }

  lemma EnqueueKeepsOutboxSound(t: Tables, ref: string, payload: string)
    requires OutboxSound(t.outbox)
    ensures OutboxSound(EnqueueEffect(t, ref, payload).tables.outbox)
  {
  }

  lemma ClaimKeepsOutboxSound(t: Tables, ref: string)
    requires OutboxSound(t.outbox)
    ensures OutboxSound(ClaimEffect(t, ref).tables.outbox)
  {
  }

  lemma AmbiguousKeepsOutboxSound(t: Tables, ref: string, lease: int)
    requires OutboxSound(t.outbox)
    ensures OutboxSound(AmbiguousEffect(t, ref, lease).tables.outbox)
  {
  }

  lemma ResultKeepsOutboxSound(t: Tables, ref: string, result: string)
    requires OutboxSound(t.outbox)
    ensures OutboxSound(ReconcileProviderEffect(t, ref, result).tables.outbox)
  {
  }

  lemma ExecuteKeepsOutboxSound(t: Tables, p: Program, quote: Option<I64>)
    requires OutboxSound(t.outbox)
    ensures OutboxSound(Execute(t, p, quote).tables.outbox)
  {
    match p
    case Checkout(user, key, digest, product, level, abort) =>
      CheckoutKeepsOutboxSound(t, user, key, digest, product, level, abort, quote);
    case GuestCheckout(key, digest, invoice, product, at) =>
      GuestKeepsOutboxSound(t, key, digest, invoice, product, at);
    case Enqueue(ref, payload) => EnqueueKeepsOutboxSound(t, ref, payload);
    case ClaimProvider(ref) => ClaimKeepsOutboxSound(t, ref);
    case MarkAmbiguous(ref, lease) => AmbiguousKeepsOutboxSound(t, ref, lease);
    case ReconcileProvider(ref, result) => ResultKeepsOutboxSound(t, ref, result);
    case _ =>
  }

  // ---- Every operation takes effect at most once per key ----

  /** What an operation can be repeated on. */
  datatype Slot =
    | OrderSlot(key: string)
    | GuestSlot(key: string)
    | ClaimSlot(key: string)
    | ApprovalSlot(deposit: string)
    | RefundSlot(deposit: string)
    | SourceSlot(source: string)
    | OutboxSlot(ref: string)
    | LeaseSlot(ref: string)
    | ResultSlot(ref: string)

  function SlotOf(p: Program): Option<Slot> {
    match p
    case Post(_, source, _, _, _, _) => Some(SourceSlot(source))
    case CreditOnce(_, key, _, _) => Some(ClaimSlot(key))
    case Checkout(_, key, _, _, _, _) => Some(OrderSlot(key))
    case ApproveDeposit(_, _, deposit) => Some(ApprovalSlot(deposit))
    case RefundDeposit(_, deposit, _) => Some(RefundSlot(deposit))
    case AdjustBalance(_, _, key, _) => Some(SourceSlot(key))
    case GuestCheckout(key, _, _, _, _) => Some(GuestSlot(key))
    case Enqueue(ref, _) => Some(OutboxSlot(ref))
    case ClaimProvider(ref) => Some(LeaseSlot(ref))
    case MarkAmbiguous(_, _) => None
    case ReconcileProvider(ref, _) => Some(ResultSlot(ref))
    case Reprice(_, _) => None
  }

  ghost predicate Spent(t: Tables, s: Slot) {
    match s
    case OrderSlot(k) => k in t.orders && t.orders[k].user in t.balances
    case GuestSlot(k) => k in t.guests
    case ClaimSlot(k) => k in t.claims
    case ApprovalSlot(d) => d in t.deposits && t.deposits[d].status != Awaiting
    case RefundSlot(d) => d in t.deposits && t.deposits[d].status == Refunded
    case SourceSlot(k) => Find(t.ledger, k).Some?
    case OutboxSlot(r) => r in t.outbox
    case LeaseSlot(r) => r in t.outbox && t.outbox[r].state != Pending
    case ResultSlot(r) => r in t.outbox && t.outbox[r].result.Some?
  }

  lemma SpentOperationDoesNothing(t: Tables, p: Program, quote: Option<I64>)
    requires SlotOf(p).Some? && Spent(t, SlotOf(p).value)
    ensures Execute(t, p, quote).tables == t
  {
  }

  lemma PostingSpendsSource(t: Tables, p: Program, quote: Option<I64>)
    requires p.Post? || p.AdjustBalance?
    requires Execute(t, p, quote).tables != t
    ensures Spent(Execute(t, p, quote).tables, SlotOf(p).value)
  {
    var t' := Execute(t, p, quote).tables;
    FindAfterAppend(t.ledger, t'.ledger[|t.ledger|], if p.Post? then p.source else p.key);
  }

  lemma SendingSpendsSlot(t: Tables, p: Program, quote: Option<I64>)
    requires p.Enqueue? || p.ClaimProvider? || p.ReconcileProvider?
    requires Execute(t, p, quote).tables != t
    ensures Spent(Execute(t, p, quote).tables, SlotOf(p).value)
  {
  }

  lemma OtherEffectSpendsSlot(t: Tables, p: Program, quote: Option<I64>)
    requires SlotOf(p).Some? && !p.Post? && !p.AdjustBalance?
    requires Execute(t, p, quote).tables != t
    ensures Spent(Execute(t, p, quote).tables, SlotOf(p).value)
  {
    if p.Enqueue? || p.ClaimProvider? || p.ReconcileProvider? { SendingSpendsSlot(t, p, quote); }
  }

  lemma PreservedSlotStaysSpent(t: Tables, t': Tables, s: Slot)
    requires Preserves(t, t') && OutboxSound(t.outbox) && Spent(t, s)
    ensures Spent(t', s)
  {
  }

  // ---- Serial runs ----

  lemma PreservesIsTransitive(a: Tables, b: Tables, c: Tables)
    requires Preserves(a, b) && Preserves(b, c)
    ensures Preserves(a, c)
  {
  }

  lemma {:induction false} ChainPreserves(states: seq<Tables>, i: nat, j: nat)
    requires i <= j < |states| && forall k :: 0 <= k < |states| - 1 ==> Preserves(states[k], states[k + 1])
    ensures Preserves(states[i], states[j])
    decreases j
  {
    if i < j {
      ChainPreserves(states, i, j - 1);
      PreservesIsTransitive(states[i], states[j - 1], states[j]);
    }
  }

  lemma {:induction false} SerialKeepsOutboxSound(db0: Tables, jobs: seq<Job>)
    requires OutboxSound(db0.outbox)
    ensures OutboxSound(Serial(db0, jobs).outbox)
  {
    if |jobs| > 0 {
      var n := |jobs| - 1;
      SerialKeepsOutboxSound(db0, jobs[..n]);
      ExecuteKeepsOutboxSound(Serial(db0, jobs[..n]), jobs[n].program, jobs[n].quote);
    }
  }

  lemma {:induction false} SerialStepPreserves(db0: Tables, jobs: seq<Job>, k: nat)
    requires OutboxSound(db0.outbox) && k < |jobs|
    ensures Preserves(Serial(db0, jobs[..k]), Serial(db0, jobs[..k + 1]))
  {
    assert jobs[..k + 1][..k] == jobs[..k];
    SerialKeepsOutboxSound(db0, jobs[..k]);
    ExecutePreserves(Serial(db0, jobs[..k]), jobs[k].program, jobs[k].quote);
  }

  lemma {:induction false} SerialPreserves(db0: Tables, jobs: seq<Job>, i: nat, j: nat)
    requires OutboxSound(db0.outbox) && i <= j <= |jobs|
    ensures Preserves(Serial(db0, jobs[..i]), Serial(db0, jobs[..j]))
  {
    var states := seq(|jobs| + 1, k requires 0 <= k <= |jobs| => Serial(db0, jobs[..k]));
    forall k | 0 <= k < |jobs| ensures Preserves(states[k], states[k + 1]) {
      SerialStepPreserves(db0, jobs, k);
    }
    ChainPreserves(states, i, j);
  }

  lemma EffectSpendsSlot(t: Tables, p: Program, quote: Option<I64>)
    requires SlotOf(p).Some? && Execute(t, p, quote).tables != t
    ensures Spent(Execute(t, p, quote).tables, SlotOf(p).value)
  {
    if p.Post? || p.AdjustBalance? {
      PostingSpendsSource(t, p, quote);
    } else {
      OtherEffectSpendsSlot(t, p, quote);
    }
  }

  lemma {:induction false} JobSpendsSlot(db0: Tables, jobs: seq<Job>, i: nat)
    requires i < |jobs| && AllTookEffect(db0, jobs) && SlotOf(jobs[i].program).Some?
    ensures Spent(Serial(db0, jobs[..i + 1]), SlotOf(jobs[i].program).value)
  {
    assert jobs[..i + 1][..i] == jobs[..i];
    EffectSpendsSlot(Serial(db0, jobs[..i]), jobs[i].program, jobs[i].quote);
  }

  lemma {:induction false} SpentSlotTakesNoJob(db0: Tables, jobs: seq<Job>, j: nat, s: Slot)
    requires j < |jobs| && AllTookEffect(db0, jobs) && Spent(Serial(db0, jobs[..j]), s)
    ensures SlotOf(jobs[j].program) != Some(s)
  {
    if SlotOf(jobs[j].program) == Some(s) {
      SpentOperationDoesNothing(Serial(db0, jobs[..j]), jobs[j].program, jobs[j].quote);
    }
  }

  /**
   * Exactly once: over a whole interleaved run no two committed operations share a slot. A checkout
   * key yields one order and one debit, an outbox row is leased once, a deposit is approved and
   * refunded once, however often and however concurrently the requests are repeated.
   */
  lemma {:induction false} AtMostOncePerSlot(db0: Tables, run: seq<Event>, i: nat, j: nat)
    requires Sound(db0) && Legal(Start(db0), run) && i < j < |After(Start(db0), run).history|
    requires SlotOf(After(Start(db0), run).history[i].program).Some?
    ensures SlotOf(After(Start(db0), run).history[i].program) != SlotOf(After(Start(db0), run).history[j].program)
  {
    EveryRunIsSerial(db0, run);
    var jobs := After(Start(db0), run).history;
    var slot := SlotOf(jobs[i].program).value;
    JobSpendsSlot(db0, jobs, i);
    SerialPreserves(db0, jobs, i + 1, j);
    SerialKeepsOutboxSound(db0, jobs[..i + 1]);
    PreservedSlotStaysSpent(Serial(db0, jobs[..i + 1]), Serial(db0, jobs[..j]), slot);
    SpentSlotTakesNoJob(db0, jobs, j, slot);
  }

  /** A committed job ran, with effect, on the state before it, and what it left is preserved. */
  lemma {:induction false} HistoryMeetsItsRun(db0: Tables, run: seq<Event>, i: nat)
    requires Sound(db0) && Legal(Start(db0), run) && i < |After(Start(db0), run).history|
    ensures var s := After(Start(db0), run);
      var t, job := Serial(db0, s.history[..i]), s.history[i];
      && job.reply == Execute(t, job.program, job.quote).reply
      && (job.program.Reprice? || Execute(t, job.program, job.quote).tables != t)
      && Preserves(Execute(t, job.program, job.quote).tables, s.db)
  {
    EveryRunIsSerial(db0, run);
    var jobs := After(Start(db0), run).history;
    assert jobs[..i + 1][..i] == jobs[..i] && jobs[..|jobs|] == jobs;
    SerialPreserves(db0, jobs, i + 1, |jobs|);
  }

  // ---- No committed posting is lost ----

  /** The entry that a job with a self-contained posting asks for, given the balance it reported. */
  function AskedEntry(job: Job): Option<Entry> {
    if !job.reply.Value? || !(I64_MIN <= job.reply.amount <= I64_MAX) then None
    else
      match job.program
      case Post(user, source, kind, direction, amount, _) =>
        Some(Entry(user, source, kind, direction, amount, job.reply.amount))
      case CreditOnce(user, key, _, amount) => Some(Entry(user, key, CreditKind, Credit, amount, job.reply.amount))
      case Checkout(user, key, _, _, _, _) =>
        if job.quote.None? then None else Some(Entry(user, key, DebitKind, Debit, job.quote.value, job.reply.amount))
      case AdjustBalance(_, user, key, amount) =>
        Some(Entry(user, key, AdjustmentKind, if amount > 0 then Credit else Debit, Abs64(amount), job.reply.amount))
      case _ => None
  }

  lemma PostingIsWritten(t: Tables, job: Job)
    requires job.program.Post? || job.program.CreditOnce? || job.program.Checkout? || job.program.AdjustBalance?
    requires Execute(t, job.program, job.quote).tables != t
    requires job.reply == Execute(t, job.program, job.quote).reply
    ensures var t' := Execute(t, job.program, job.quote).tables;
      AskedEntry(job).Some? && Find(t'.ledger, AskedEntry(job).value.source) == AskedEntry(job)
  {
    var e := AskedEntry(job);
    FindAfterAppend(t.ledger, e.value, e.value.source);
  }

  /** No lost update: what a committed posting asked for, and the balance it reported, stay in the ledger. */
  lemma {:induction false} CommittedPostingStands(db0: Tables, run: seq<Event>, i: nat)
    requires Sound(db0) && Legal(Start(db0), run) && i < |After(Start(db0), run).history|
    requires var p := After(Start(db0), run).history[i].program;
      p.Post? || p.CreditOnce? || p.Checkout? || p.AdjustBalance?
    ensures var s := After(Start(db0), run);
      && AskedEntry(s.history[i]).Some?
      && Find(s.db.ledger, AskedEntry(s.history[i]).value.source) == AskedEntry(s.history[i])
  {
    HistoryMeetsItsRun(db0, run, i);
    var jobs := After(Start(db0), run).history;
    PostingIsWritten(Serial(db0, jobs[..i]), jobs[i]);
  }

  function CountPostings(jobs: seq<Job>): nat {
    if |jobs| == 0 then 0
    else CountPostings(jobs[..|jobs| - 1]) + if Posts(jobs[|jobs| - 1].program) then 1 else 0
  }

  lemma PostingAddsOneEntry(t: Tables, p: Program, quote: Option<I64>)
    requires Posts(p) && Execute(t, p, quote).tables != t
    ensures |Execute(t, p, quote).tables.ledger| == |t.ledger| + 1
  {
  }

  lemma OneEntryPerPosting(t: Tables, p: Program, quote: Option<I64>)
    requires p.Reprice? || Execute(t, p, quote).tables != t
    ensures |Execute(t, p, quote).tables.ledger| == |t.ledger| + if Posts(p) then 1 else 0
  {
    if Posts(p) {
      PostingAddsOneEntry(t, p, quote);
    }
  }

  lemma {:induction false} LedgerCountsPostings(db0: Tables, jobs: seq<Job>)
    requires AllTookEffect(db0, jobs)
    ensures |Serial(db0, jobs).ledger| == |db0.ledger| + CountPostings(jobs)
  {
    if |jobs| > 0 {
      var n := |jobs| - 1;
      assert forall i :: 0 <= i <= n ==> jobs[..n][..i] == jobs[..i];
      LedgerCountsPostings(db0, jobs[..n]);
      OneEntryPerPosting(Serial(db0, jobs[..n]), jobs[n].program, jobs[n].quote);
    }
  }

  /** And nothing else is in the ledger: it grows by one entry per committed posting. */
  lemma {:induction false} LedgerHasNoOtherEntries(db0: Tables, run: seq<Event>)
    requires Sound(db0) && Legal(Start(db0), run)
    ensures var s := After(Start(db0), run); |s.db.ledger| == |db0.ledger| + CountPostings(s.history)
  {
    EveryRunIsSerial(db0, run);
    LedgerCountsPostings(db0, After(Start(db0), run).history);
  }

  // ---- Deposits, orders, replays ----

  /**
   * A deposit is worth nothing while it waits, exactly amount - fee once approved, and nothing again
   * once refunded, in every committed state of every interleaving.
   */
  lemma {:induction false} DepositContributesItsWorth(db0: Tables, run: seq<Event>, deposit: string)
    requires Sound(db0) && Legal(Start(db0), run) && deposit in After(Start(db0), run).db.deposits
    ensures var db := After(Start(db0), run).db;
      var d := db.deposits[deposit];
      Contribution(db.ledger, db.audits, deposit) == if d.status == Approved then d.amount - d.fee else 0
  {
    EveryRunIsSerial(db0, run);
    var db := After(Start(db0), run).db;
    assert DepositSound(deposit, db.deposits[deposit], db.audits, db.ledger);
  }

  /** A member order has one debit of its price, on its owner, and one outbox row with that price. */
  lemma {:induction false} OrderHasOneDebitAndOneRow(db0: Tables, run: seq<Event>, key: string, i: nat)
    requires Sound(db0) && Legal(Start(db0), run) && key in After(Start(db0), run).db.orders
    requires i < |After(Start(db0), run).db.ledger|
    ensures var db := After(Start(db0), run).db;
      var o := db.orders[key];
      && Find(db.ledger, key).Some?
      && (db.ledger[i].source == key ==>
        Find(db.ledger, key) == Some(db.ledger[i])
        && db.ledger[i].user == o.user && db.ledger[i].direction == Debit && db.ledger[i].amount == o.price)
      && key in db.outbox && db.outbox[key].payload == MemberOrder(o.product, o.price)
  {
    var db := After(Start(db0), run).db;
    assert Sound(db) by { EveryRunIsSerial(db0, run); }
    assert OrderSound(key, db.orders[key], db.balances, db.ledger, db.outbox);
    SoundEntryIsFound(db.ledger, i);
  }

  /** A credit that was acknowledged once answers every later repetition with the same balance. */
  lemma {:induction false} RepeatedCreditAnswersTheSame(db0: Tables, run: seq<Event>, i: nat, user: Uuid, amount: I64)
    requires Sound(db0) && Legal(Start(db0), run) && i < |After(Start(db0), run).history| && 0 < amount
    requires After(Start(db0), run).history[i].program.CreditOnce?
    ensures var s := After(Start(db0), run);
      var p := s.history[i].program;
      && Execute(s.db, CreditOnce(user, p.key, p.digest, amount), None) == Effect(s.db, s.history[i].reply)
      && forall other :: other != p.digest ==>
           Execute(s.db, CreditOnce(user, p.key, other, amount), None) == Effect(s.db, Err(Conflict))
  {
    var s := After(Start(db0), run);
    var p := s.history[i].program;
    assert p.key in s.db.claims && s.db.claims[p.key].digest == p.digest && p.key != "" && p.digest != ""
        && s.history[i].reply.Value? && s.db.claims[p.key].response == Some(s.history[i].reply.amount) by
    {
      HistoryMeetsItsRun(db0, run, i);
      CreditLeavesClaim(Serial(db0, s.history[..i]), p);
    }
  }

  lemma CreditLeavesClaim(t: Tables, p: Program)
    requires p.CreditOnce? && CreditOnceEffect(t, p.user, p.key, p.digest, p.amount).tables != t
    ensures var r := CreditOnceEffect(t, p.user, p.key, p.digest, p.amount);
      r.reply.Value? && p.key in r.tables.claims && r.tables.claims[p.key].digest == p.digest
      && r.tables.claims[p.key].response == Some(r.reply.amount) && p.key != "" && p.digest != ""
  {
  }

  /** A repeated checkout changes nothing: the same digest is acknowledged, any other refused. */
  lemma {:induction false} RepeatedCheckoutChangesNothing(
    db0: Tables, run: seq<Event>, i: nat, again: Program, quote: Option<I64>)
    requires Sound(db0) && Legal(Start(db0), run) && i < |After(Start(db0), run).history|
    requires After(Start(db0), run).history[i].program.Checkout? && again.Checkout?
    requires again.key == After(Start(db0), run).history[i].program.key && again.digest != "" && again.product != ""
    ensures var s := After(Start(db0), run);
      var r := Execute(s.db, again, quote);
      r.tables == s.db && (r.reply.Value? <==> again.digest == s.history[i].program.digest)
  {
    var s := After(Start(db0), run);
    var p := s.history[i].program;
    assert p.key in s.db.orders && s.db.orders[p.key].digest == p.digest && p.key != "" && p.digest != "" by {
      HistoryMeetsItsRun(db0, run, i);
      CheckoutLeavesOrder(Serial(db0, s.history[..i]), p, s.history[i].quote);
    }
    assert s.db.orders[p.key].user in s.db.balances by {
      EveryRunIsSerial(db0, run);
      assert OrderSound(p.key, s.db.orders[p.key], s.db.balances, s.db.ledger, s.db.outbox);
    }
  }

  lemma CheckoutLeavesOrder(t: Tables, p: Program, quote: Option<I64>)
    requires p.Checkout? && Execute(t, p, quote).tables != t
    ensures var r := Execute(t, p, quote);
      p.key in r.tables.orders && r.tables.orders[p.key].digest == p.digest && p.key != "" && p.digest != ""
  {
  }

  /** What the provider answered is final: a sent row never changes again. */
  lemma {:induction false} SentRowIsFinal(db0: Tables, run: seq<Event>, i: nat, ref: string)
    requires Sound(db0) && Legal(Start(db0), run) && i <= |After(Start(db0), run).history|
    requires var t := Serial(db0, After(Start(db0), run).history[..i]); ref in t.outbox && t.outbox[ref].state == Sent
    ensures var s := After(Start(db0), run);
      && ref in s.db.outbox && s.db.outbox[ref] == Serial(db0, s.history[..i]).outbox[ref]
      && s.db.outbox[ref].result.Some? && s.db.outbox[ref].lease == 1
  {
    EveryRunIsSerial(db0, run);
    var jobs := After(Start(db0), run).history;
    assert jobs[..|jobs|] == jobs;
    SerialPreserves(db0, jobs, i, |jobs|);
  }

  // ---- Stock ----

  function OrdersFor(guests: map<string, GuestOrder>, code: string): set<string> {
    set k | k in guests && guests[k].product == code
  }

  /** A limited product loses one unit of stock for each of its guest orders. */
  ghost predicate StockMoves(t: Tables, t': Tables, code: string) {
    && (code in t.products <==> code in t'.products)
    && (code in t.products ==>
      && (t.products[code].stock.None? <==> t'.products[code].stock.None?)
      && (t.products[code].stock.Some? ==>
        t.products[code].stock.value + |OrdersFor(t.guests, code)| ==
          t'.products[code].stock.value + |OrdersFor(t'.guests, code)|))
  }

  lemma NewGuestOrderCounts(guests: map<string, GuestOrder>, key: string, g: GuestOrder, code: string)
    requires key !in guests
    ensures |OrdersFor(guests[key := g], code)| == |OrdersFor(guests, code)| + if g.product == code then 1 else 0
  {
    if g.product == code {
      assert OrdersFor(guests[key := g], code) == OrdersFor(guests, code) + {key};
    } else {
      assert OrdersFor(guests[key := g], code) == OrdersFor(guests, code);
    }
  }

  lemma TakeOneKeepsStockSound(products: map<string, Product>, code: string)
    requires StockSound(products) && code in products
    ensures StockSound(products[code := TakeOne(products[code])])
  {
  }

  lemma GuestMovesStock(t: Tables, key: string, digest: string, invoice: string, product: string, at: int, code: string)
    requires StockSound(t.products)
    ensures var t' := GuestEffect(t, key, digest, invoice, product, at).tables;
      StockMoves(t, t', code) && StockSound(t'.products)
  {
    if key !in t.guests && product in t.products {
      TakeOneKeepsStockSound(t.products, product);
      NewGuestOrderCounts(t.guests, key, GuestOrder(invoice, digest, product, t.products[product].basic), code);
    }
  }

  lemma RepriceKeepsStock(t: Tables, product: string, row: Product, code: string)
    requires StockSound(t.products)
    ensures var t' := RepriceEffect(t, product, row).tables; StockMoves(t, t', code) && StockSound(t'.products)
  {
    var before, after := t.products, RepriceEffect(t, product, row).tables.products;
    forall c ensures c in before <==> c in after
      ensures c in before ==> before[c].stock == after[c].stock
    {
    }
  }

  lemma ExecuteMovesStock(t: Tables, p: Program, quote: Option<I64>, code: string)
    requires StockSound(t.products)
    ensures StockMoves(t, Execute(t, p, quote).tables, code) && StockSound(Execute(t, p, quote).tables.products)
  {
    match p
    case GuestCheckout(key, digest, invoice, product, at) =>
      GuestMovesStock(t, key, digest, invoice, product, at, code);
    case Reprice(product, row) => RepriceKeepsStock(t, product, row, code);
    case _ =>
  }

  lemma {:induction false} SerialMovesStock(db0: Tables, jobs: seq<Job>, code: string)
    requires StockSound(db0.products)
    ensures StockMoves(db0, Serial(db0, jobs), code) && StockSound(Serial(db0, jobs).products)
  {
    if |jobs| > 0 {
      var n := |jobs| - 1;
      SerialMovesStock(db0, jobs[..n], code);
      ExecuteMovesStock(Serial(db0, jobs[..n]), jobs[n].program, jobs[n].quote, code);
    }
  }

  /** Stock plus guest orders is constant and stock never goes negative, whatever runs concurrently. */
  lemma {:induction false} StockPlusOrdersIsConstant(db0: Tables, run: seq<Event>, code: string)
    requires Sound(db0) && Legal(Start(db0), run) && code in db0.products && db0.products[code].stock.Some?
    ensures var db := After(Start(db0), run).db;
      && code in db.products && db.products[code].stock.Some? && 0 <= db.products[code].stock.value
      && db.products[code].stock.value + |OrdersFor(db.guests, code)|
         == db0.products[code].stock.value + |OrdersFor(db0.guests, code)|
  {
    EveryRunIsSerial(db0, run);
    SerialMovesStock(db0, After(Start(db0), run).history, code);
  }
}
