/** What every committed state of the money store satisfies, and that every operation keeps it. */
module WalletSoundness {
  import opened Base
  import opened WalletTables
  import opened WalletSpec

  // ---- The invariant, table by table ----

  ghost predicate DistinctSources(ledger: seq<Entry>) {
    forall i, j {:trigger ledger[i].source, ledger[j].source} ::
      0 <= i < j < |ledger| ==> ledger[i].source != ledger[j].source
  }

  /** Entry `i` records the running total of its user at the time it was written. */
  ghost predicate EntrySound(ledger: seq<Entry>, i: nat)
    requires i < |ledger|
  {
    var e := ledger[i];
    0 < e.amount && 0 <= e.balanceAfter && e.balanceAfter == Total(ledger[..i + 1], e.user)
  }

  ghost predicate LedgerSound(balances: map<Uuid, I64>, ledger: seq<Entry>) {
    && (forall u :: u in balances ==> 0 <= balances[u] && balances[u] == Total(ledger, u))
    && (forall i {:trigger EntrySound(ledger, i)} :: 0 <= i < |ledger| ==>
          ledger[i].user in balances && EntrySound(ledger, i))
    && DistinctSources(ledger)
  }

  /** Every committed idempotency claim carries the balance that its one credit left. */
  ghost predicate ClaimsSound(claims: map<string, Claim>, ledger: seq<Entry>) {
    forall k :: k in claims ==>
      var e := Find(ledger, k);
      e.Some? && e.value.direction == Credit && claims[k].response == Some(e.value.balanceAfter)
  }

  ghost predicate OrderSound(
    k: string, o: Order, balances: map<Uuid, I64>, ledger: seq<Entry>, outbox: map<string, OutboxRow>) {
    var e := Find(ledger, k);
    && o.user in balances && 0 < o.price
    && e.Some? && e.value.user == o.user && e.value.direction == Debit && e.value.amount == o.price
    && k in outbox && outbox[k].payload == MemberOrder(o.product, o.price)
  }

  /** A member order stands with exactly its debit in the ledger and its row in the outbox. */
  ghost predicate OrdersSound(
    orders: map<string, Order>, balances: map<Uuid, I64>, ledger: seq<Entry>, outbox: map<string, OutboxRow>) {
    forall k :: k in orders ==> OrderSound(k, orders[k], balances, ledger, outbox)
  }

  ghost predicate GuestsSound(guests: map<string, GuestOrder>, outbox: map<string, OutboxRow>) {
    && (forall k :: k in guests ==> k in outbox && outbox[k].payload == GuestInvoice(guests[k].invoice))
    && (forall a, b :: a in guests && b in guests && guests[a].invoice == guests[b].invoice ==> a == b)
  }

  ghost predicate StockSound(products: map<string, Product>) {
    forall c :: c in products && products[c].stock.Some? ==> 0 <= products[c].stock.value
  }

  /** A row has been leased once it left `Pending`, and holds a provider result exactly once sent. */
  ghost predicate OutboxSound(outbox: map<string, OutboxRow>) {
    forall r :: r in outbox ==>
      && outbox[r].lease == (if outbox[r].state == Pending then 0 else 1)
      && (outbox[r].result.Some? <==> outbox[r].state == Sent)
  }

  ghost predicate MovesDeposit(audits: map<string, Audit>, source: string, deposit: string) {
    source in audits && audits[source].subject == deposit && audits[source].action != Adjustment
  }

  /** The signed sum of the entries that the audit trail attributes to a deposit. */
  ghost function Contribution(ledger: seq<Entry>, audits: map<string, Audit>, deposit: string): int {
    if |ledger| == 0 then 0
    else
      var last := ledger[|ledger| - 1];
      Contribution(ledger[..|ledger| - 1], audits, deposit)
      + if MovesDeposit(audits, last.source, deposit) then last.Signed() else 0
  }

  ghost function DepositWorth(d: Deposit): int {
    if d.status == Approved then d.amount - d.fee else 0
  }

  ghost predicate DepositSound(id: string, d: Deposit, audits: map<string, Audit>, ledger: seq<Entry>) {
    && 0 <= d.fee < d.amount
    && Contribution(ledger, audits, id) == DepositWorth(d)
    && (d.status == Approved ==>
      var e := Find(ledger, ApprovalSource(id));
      e.Some? && e.value.direction == Credit && e.value.user == d.user && e.value.amount == d.amount - d.fee)
  }

  ghost predicate AuditsSound(deposits: map<string, Deposit>, audits: map<string, Audit>, ledger: seq<Entry>) {
    && (forall k :: k in audits ==> Find(ledger, k).Some?)
    && (forall k :: k in audits && audits[k].action != Adjustment ==> audits[k].subject in deposits)
    && (forall k :: k in audits && audits[k].action == DepositRefund ==> deposits[audits[k].subject].status == Refunded)
  }

  ghost predicate DepositsSound(deposits: map<string, Deposit>, audits: map<string, Audit>, ledger: seq<Entry>) {
    && AuditsSound(deposits, audits, ledger)
    && (forall d :: d in deposits ==> DepositSound(d, deposits[d], audits, ledger))
  }

  ghost predicate Sound(t: Tables) {
    && LedgerSound(t.balances, t.ledger)
    && ClaimsSound(t.claims, t.ledger)
    && OrdersSound(t.orders, t.balances, t.ledger, t.outbox)
    && GuestsSound(t.guests, t.outbox)
    && StockSound(t.products)
    && OutboxSound(t.outbox)
    && DepositsSound(t.deposits, t.audits, t.ledger)
  }

  /** Tables before the first operation: empty balances, nothing posted, deposits that wait. */
  lemma OpeningTablesAreSound(t: Tables)
    requires (forall u :: u in t.balances ==> t.balances[u] == 0) && t.ledger == [] && t.audits == map[]
    requires t.claims == map[] && t.orders == map[] && t.outbox == map[] && t.guests == map[] && StockSound(t.products)
    requires forall d :: d in t.deposits ==>
      t.deposits[d].status == Awaiting && 0 <= t.deposits[d].fee < t.deposits[d].amount
    ensures Sound(t)
  {
    forall d | d in t.deposits ensures DepositSound(d, t.deposits[d], t.audits, t.ledger) {
      assert Contribution(t.ledger, t.audits, d) == 0;
    }
  }

  // ---- One more entry ----

  ghost predicate Extends(t: Tables, e: Entry) {
    && e.user in t.balances && 0 < e.amount && 0 <= e.balanceAfter
    && e.balanceAfter == t.balances[e.user] + e.Signed()
    && Find(t.ledger, e.source).None?
  }

  lemma EntryKeepsLedger(t: Tables, e: Entry)
    requires LedgerSound(t.balances, t.ledger) && Extends(t, e)
    ensures LedgerSound(WithEntry(t, e).balances, WithEntry(t, e).ledger)
  {
    var t', n := WithEntry(t, e), |t.ledger|;
    forall u | u in t'.balances ensures 0 <= t'.balances[u] && t'.balances[u] == Total(t'.ledger, u) {
      TotalAfterAppend(t.ledger, e, u);
    }
    forall i | 0 <= i < |t'.ledger| ensures t'.ledger[i].user in t'.balances && EntrySound(t'.ledger, i) {
      if i < n {
        assert EntrySound(t.ledger, i) && t'.ledger[..i + 1] == t.ledger[..i + 1];
      } else {
        TotalAfterAppend(t.ledger, e, e.user);
        assert t'.ledger[..i + 1] == t'.ledger;
      }
    }
  }

  lemma {:induction false} EntryKeepsFound(ledger: seq<Entry>, e: Entry)
    ensures forall s :: Find(ledger + [e], s) == if s == e.source then Some(e) else Find(ledger, s)
  {
    forall s ensures Find(ledger + [e], s) == if s == e.source then Some(e) else Find(ledger, s) {
      FindAfterAppend(ledger, e, s);
    }
  }

  /** The ledger, the claims and the orders survive an entry whose source is new. */
  lemma EntryKeepsTheRest(t: Tables, e: Entry)
    requires Sound(t) && Extends(t, e)
    ensures var t' := WithEntry(t, e);
      && LedgerSound(t'.balances, t'.ledger)
      && ClaimsSound(t'.claims, t'.ledger)
      && OrdersSound(t'.orders, t'.balances, t'.ledger, t'.outbox)
  {
    EntryKeepsLedger(t, e);
    EntryKeepsFound(t.ledger, e);
  }

  lemma {:induction false} ContributionIgnoresNewAudit(
    ledger: seq<Entry>, audits: map<string, Audit>, key: string, a: Audit, d: string)
    requires Find(ledger, key).None?
    ensures Contribution(ledger, audits[key := a], d) == Contribution(ledger, audits, d)
  {
    if |ledger| > 0 {
      assert ledger[|ledger| - 1].source != key;
      ContributionIgnoresNewAudit(ledger[..|ledger| - 1], audits, key, a, d);
    }
  }

  lemma {:induction false} ContributionAfterAppend(ledger: seq<Entry>, e: Entry, audits: map<string, Audit>, d: string)
    ensures Contribution(ledger + [e], audits, d)
      == Contribution(ledger, audits, d) + if MovesDeposit(audits, e.source, d) then e.Signed() else 0
  {
    assert (ledger + [e])[..|ledger|] == ledger;
  }

  /** An entry without an audit row moves no deposit. */
  lemma EntryKeepsDeposits(t: Tables, e: Entry)
    requires Sound(t) && Extends(t, e)
    ensures DepositsSound(t.deposits, t.audits, t.ledger + [e])
  {
    EntryKeepsFound(t.ledger, e);
    assert e.source !in t.audits;
    forall d | d in t.deposits ensures DepositSound(d, t.deposits[d], t.audits, t.ledger + [e]) {
      assert DepositSound(d, t.deposits[d], t.audits, t.ledger);
      ContributionAfterAppend(t.ledger, e, t.audits, d);
    }
  }

  /** An audited entry changes the contribution of the audited deposit by its own signed amount. */
  lemma {:induction false} AuditedEntryMoves(t: Tables, e: Entry, a: Audit, d: string)
    requires Sound(t) && Extends(t, e)
    ensures Contribution(t.ledger + [e], t.audits[e.source := a], d)
      == Contribution(t.ledger, t.audits, d) + if a.subject == d && a.action != Adjustment then e.Signed() else 0
  {
    ContributionIgnoresNewAudit(t.ledger, t.audits, e.source, a, d);
    ContributionAfterAppend(t.ledger, e, t.audits[e.source := a], d);
  }

  /** An audited entry keeps every deposit other than its subject sound. */
  lemma AuditedEntryKeepsOther(t: Tables, e: Entry, a: Audit, d: string)
    requires Sound(t) && Extends(t, e) && d in t.deposits && (a.subject != d || a.action == Adjustment)
    ensures DepositSound(d, t.deposits[d], t.audits[e.source := a], t.ledger + [e])
  {
    assert DepositSound(d, t.deposits[d], t.audits, t.ledger);
    AuditedEntryMoves(t, e, a, d);
    FindAfterAppend(t.ledger, e, ApprovalSource(d));
  }

  /** A posting that went through extended the ledger by one sound entry. */
  lemma PostedExtends(t: Tables, user: Uuid, source: string, kind: Kind, direction: Direction, amount: I64)
    requires LedgerSound(t.balances, t.ledger)
    requires PostInTx(t, user, source, kind, direction, amount).Posted?
    ensures var p := PostInTx(t, user, source, kind, direction, amount);
      var e := Entry(user, source, kind, direction, amount, p.next);
      p.tables == WithEntry(t, e) && Extends(t, e)
  {
    var balance := t.balances[user];
    if direction == Credit {
      OverflowingCreditTurnsNegative(balance, amount);
    } else {
      WrapFits(balance - amount);
    }
  }

  // ---- Each operation ----

  lemma PostKeeps(t: Tables, user: Uuid, source: string, kind: Kind, direction: Direction, amount: I64, abort: bool)
    requires Sound(t)
    ensures Sound(PostEffect(t, user, source, kind, direction, amount, abort).tables)
  {
    var p := PostInTx(t, user, source, kind, direction, amount);
    if p.Posted? && !abort {
      PostedExtends(t, user, source, kind, direction, amount);
      var e := Entry(user, source, kind, direction, amount, p.next);
      EntryKeepsTheRest(t, e);
      EntryKeepsDeposits(t, e);
    }
  }

  lemma CreditOnceKeeps(t: Tables, user: Uuid, key: string, digest: string, e: Entry)
    requires Sound(t) && Extends(t, e) && e.source == key && e.direction == Credit
    ensures Sound(WithEntry(t, e).(claims := t.claims[key := Claim(digest, Some(e.balanceAfter))]))
  {
    EntryKeepsTheRest(t, e);
    FindAfterAppend(t.ledger, e, key);
    EntryKeepsDeposits(t, e);
  }

  lemma CheckoutKeeps(t: Tables, e: Entry, o: Order)
    requires Sound(t) && Extends(t, e) && e.direction == Debit && e.source !in t.outbox && e.source !in t.orders
    requires o.user == e.user && o.price == e.amount
    ensures Sound(WithEntry(t, e).(
        orders := t.orders[e.source := o],
        outbox := t.outbox[e.source := OutboxRow(MemberOrder(o.product, o.price), Pending, 0, None)]))
  {
    var balances, ledger := WithEntry(t, e).balances, WithEntry(t, e).ledger;
    var outbox := t.outbox[e.source := OutboxRow(MemberOrder(o.product, o.price), Pending, 0, None)];
    EntryKeepsTheRest(t, e);
    FindAfterAppend(t.ledger, e, e.source);
    EntryKeepsDeposits(t, e);
    var orders := t.orders[e.source := o];
    forall k | k in orders ensures OrderSound(k, orders[k], balances, ledger, outbox) {
      if k != e.source {
        assert OrderSound(k, t.orders[k], balances, ledger, t.outbox);
      }
    }
  }

  /** The shared shape of an approval and a refund: an audited entry together with a status change. */
  lemma AuditedDepositKeeps(t: Tables, deposit: string, status: DepositStatus, e: Entry, a: Audit)
    requires Sound(t) && Extends(t, e) && deposit in t.deposits && a.subject == deposit
    requires e.user == t.deposits[deposit].user && e.amount == t.deposits[deposit].amount - t.deposits[deposit].fee
    requires
      || (a.action == DepositApprove && status == Approved && t.deposits[deposit].status == Awaiting
          && e.direction == Credit && e.source == ApprovalSource(deposit))
      || (a.action == DepositRefund && status == Refunded && t.deposits[deposit].status == Approved
          && e.direction == Debit)
    ensures Sound(WithEntry(t, e).(
        deposits := t.deposits[deposit := t.deposits[deposit].(status := status)],
        audits := t.audits[e.source := a]))
  {
    var deposits := t.deposits[deposit := t.deposits[deposit].(status := status)];
    var audits, ledger := t.audits[e.source := a], t.ledger + [e];
    EntryKeepsTheRest(t, e);
    EntryKeepsFound(t.ledger, e);
    assert DepositSound(deposit, t.deposits[deposit], t.audits, t.ledger);
    forall x | x in deposits ensures DepositSound(x, deposits[x], audits, ledger) {
      if x == deposit {
        AuditedEntryMoves(t, e, a, deposit);
      } else {
        AuditedEntryKeepsOther(t, e, a, x);
      }
    }
    assert AuditsSound(deposits, audits, ledger);
  }

  ghost predicate ApprovalOf(t: Tables, t': Tables, deposit: string, e: Entry, a: Audit) {
    && deposit in t.deposits && t.deposits[deposit].status == Awaiting && a.subject == deposit
    && a.action == DepositApprove
    && var d := t.deposits[deposit];
    && var posting := PostInTx(t, d.user, ApprovalSource(deposit), CreditKind, Credit, Wrap64(d.amount - d.fee));
    && posting.Posted?
    && e == Entry(d.user, ApprovalSource(deposit), CreditKind, Credit, Wrap64(d.amount - d.fee), posting.next)
    && t' == WithEntry(t, e).(
         deposits := t.deposits[deposit := d.(status := Approved)], audits := t.audits[e.source := a])
  }

  lemma ApprovalShape(t: Tables, actor: Uuid, owner: bool, deposit: string) returns (e: Entry, a: Audit)
    ensures var t' := ApproveEffect(t, actor, owner, deposit).tables; t' == t || ApprovalOf(t, t', deposit, e, a)
  {
    var d := if deposit in t.deposits then t.deposits[deposit] else Deposit("", 0, 0, Awaiting, None);
    var net := Wrap64(d.amount - d.fee);
    var posting := PostInTx(t, d.user, ApprovalSource(deposit), CreditKind, Credit, net);
    e := Entry(d.user, ApprovalSource(deposit), CreditKind, Credit, net, if posting.Posted? then posting.next else 0);
    a := Audit(actor, DepositApprove, deposit, net);
  }

  lemma ApprovalOfKeeps(t: Tables, t': Tables, deposit: string, e: Entry, a: Audit)
    requires Sound(t) && ApprovalOf(t, t', deposit, e, a)
    ensures Sound(t')
  {
    var d := t.deposits[deposit];
    assert DepositSound(deposit, d, t.audits, t.ledger);
    WrapFits(d.amount - d.fee);
    PostedExtends(t, d.user, e.source, CreditKind, Credit, e.amount);
    AuditedDepositKeeps(t, deposit, Approved, e, a);
  }

  lemma ApproveKeeps(t: Tables, actor: Uuid, owner: bool, deposit: string)
    requires Sound(t)
    ensures Sound(ApproveEffect(t, actor, owner, deposit).tables)
  {
    var t' := ApproveEffect(t, actor, owner, deposit).tables;
    var e, a := ApprovalShape(t, actor, owner, deposit);
    if t' != t { ApprovalOfKeeps(t, t', deposit, e, a); }
  }

  ghost predicate RefundOf(t: Tables, t': Tables, deposit: string, e: Entry, a: Audit) {
    && deposit in t.deposits && t.deposits[deposit].status == Approved
    && t' == WithEntry(t, e).(
         deposits := t.deposits[deposit := t.deposits[deposit].(status := Refunded)], audits := t.audits[e.source := a])
  }

  lemma RefundShape(t: Tables, actor: Uuid, deposit: string, key: string) returns (e: Entry, a: Audit)
    ensures var t' := RefundEffect(t, actor, deposit, key).tables; t' == t || RefundOf(t, t', deposit, e, a)
  {
    var user := if deposit in t.deposits then t.deposits[deposit].user else "";
    var approval := Find(t.ledger, ApprovalSource(deposit));
    var amount := if approval.Some? then approval.value.amount else 0;
    var posting := PostInTx(t, user, key, DebitKind, Debit, amount);
    e := Entry(user, key, DebitKind, Debit, amount, if posting.Posted? then posting.next else 0);
    a := Audit(actor, DepositRefund, deposit, amount);
  }

  lemma RefundKeeps(t: Tables, actor: Uuid, deposit: string, key: string)
    requires Sound(t)
    ensures Sound(RefundEffect(t, actor, deposit, key).tables)
  {
    if deposit in t.deposits && t.deposits[deposit].status == Approved {
      var d := t.deposits[deposit];
      assert DepositSound(deposit, d, t.audits, t.ledger);
      var amount := Find(t.ledger, ApprovalSource(deposit)).value.amount;
      var p := PostInTx(t, d.user, key, DebitKind, Debit, amount);
      if p.Posted? {
        PostedExtends(t, d.user, key, DebitKind, Debit, amount);
        var e := Entry(d.user, key, DebitKind, Debit, amount, p.next);
        AuditedDepositKeeps(t, deposit, Refunded, e, Audit(actor, DepositRefund, deposit, amount));
      }
    }
  }

  lemma AdjustmentKeeps(t: Tables, e: Entry, a: Audit)
    requires Sound(t) && Extends(t, e) && a.action == Adjustment
    ensures Sound(WithEntry(t, e).(audits := t.audits[e.source := a]))
  {
    var audits, ledger := t.audits[e.source := a], t.ledger + [e];
    EntryKeepsTheRest(t, e);
    EntryKeepsFound(t.ledger, e);
    forall x | x in t.deposits ensures DepositSound(x, t.deposits[x], audits, ledger) {
      AuditedEntryKeepsOther(t, e, a, x);
    }
    assert AuditsSound(t.deposits, audits, ledger);
  }

  lemma AdjustKeeps(t: Tables, actor: Uuid, user: Uuid, key: string, amount: I64)
    requires Sound(t)
    ensures Sound(AdjustEffect(t, actor, user, key, amount).tables)
  {
    var direction, value := if amount > 0 then Credit else Debit, Abs64(amount);
    var p := PostInTx(t, user, key, AdjustmentKind, direction, value);
    if p.Posted? {
      PostedExtends(t, user, key, AdjustmentKind, direction, value);
      AdjustmentKeeps(t, Entry(user, key, AdjustmentKind, direction, value, p.next),
        Audit(actor, Adjustment, user, value));
    }
  }

  /** A new outbox row, or a change that keeps the payload of an old one, leaves the orders sound. */
  lemma OutboxChangeKeeps(t: Tables, ref: string, row: OutboxRow)
    requires Sound(t) && (ref in t.outbox ==> t.outbox[ref].payload == row.payload)
    requires row.lease == if row.state == Pending then 0 else 1
    requires row.result.Some? <==> row.state == Sent
    ensures Sound(t.(outbox := t.outbox[ref := row]))
  {
    var outbox := t.outbox[ref := row];
    forall k | k in t.orders ensures OrderSound(k, t.orders[k], t.balances, t.ledger, outbox) {
      assert OrderSound(k, t.orders[k], t.balances, t.ledger, t.outbox);
    }
  }

  lemma GuestRowsGrow(
    guests: map<string, GuestOrder>, outbox: map<string, OutboxRow>, key: string, g: GuestOrder, row: OutboxRow)
    requires GuestsSound(guests, outbox) && key !in outbox && !InvoiceTaken(guests, g.invoice)
    requires row.payload == GuestInvoice(g.invoice)
    ensures GuestsSound(guests[key := g], outbox[key := row])
  {
  }

  lemma GuestKeeps(t: Tables, key: string, g: GuestOrder)
    requires Sound(t) && key !in t.guests && key !in t.outbox && !InvoiceTaken(t.guests, g.invoice)
    requires g.product in t.products
    ensures Sound(t.(
        products := t.products[g.product := TakeOne(t.products[g.product])],
        guests := t.guests[key := g],
        outbox := t.outbox[key := OutboxRow(GuestInvoice(g.invoice), Pending, 0, None)]))
  {
    var row := OutboxRow(GuestInvoice(g.invoice), Pending, 0, None);
    OutboxChangeKeeps(t, key, row);
    GuestRowsGrow(t.guests, t.outbox, key, g, row);
  }

  lemma EnqueueKeeps(t: Tables, ref: string, payload: string)
    requires Sound(t)
    ensures Sound(EnqueueEffect(t, ref, payload).tables)
  {
    if ref !in t.outbox {
      OutboxChangeKeeps(t, ref, OutboxRow(Raw(payload), Pending, 0, None));
    }
  }

  lemma ClaimKeeps(t: Tables, ref: string)
    requires Sound(t)
    ensures Sound(ClaimEffect(t, ref).tables)
  {
    if ref in t.outbox && t.outbox[ref].state == Pending {
      OutboxChangeKeeps(t, ref, t.outbox[ref].(state := Sending, lease := t.outbox[ref].lease + 1));
    }
  }

  lemma AmbiguousKeeps(t: Tables, ref: string, lease: int)
    requires Sound(t)
    ensures Sound(AmbiguousEffect(t, ref, lease).tables)
  {
    if ref in t.outbox && t.outbox[ref].state == Sending {
      OutboxChangeKeeps(t, ref, t.outbox[ref].(state := Ambiguous));
    }
  }

  lemma ReconcileProviderKeeps(t: Tables, ref: string, result: string)
    requires Sound(t)
    ensures Sound(ReconcileProviderEffect(t, ref, result).tables)
  {
    if ref in t.outbox && t.outbox[ref].result.None? && t.outbox[ref].state != Pending {
      OutboxChangeKeeps(t, ref, t.outbox[ref].(state := Sent, result := Some(result)));
    }
  }

  /** Without the invariant in sight: what a checkout that changes anything does. */
  lemma CheckoutShape(
    t: Tables, user: Uuid, key: string, digest: string, product: string, level: string, abort: bool, quote: Option<I64>)
    ensures var t' := CheckoutEffect(t, user, key, digest, product, level, abort, quote).tables;
      || t' == t
      || CheckoutOf(t, t', user, key, Order(user, digest, product, level, if quote.Some? then quote.value else 0))
  {
  }

  ghost predicate CheckoutOf(t: Tables, t': Tables, user: Uuid, key: string, o: Order) {
    && user in t.balances && 0 < o.price <= t.balances[user] && Find(t.ledger, key).None? && key !in t.orders
    && key !in t.outbox
    && t' == WithEntry(t, Entry(user, key, DebitKind, Debit, o.price, t.balances[user] - o.price)).(
         orders := t.orders[key := o],
         outbox := t.outbox[key := OutboxRow(MemberOrder(o.product, o.price), Pending, 0, None)])
  }

  lemma CheckoutOfKeeps(t: Tables, t': Tables, user: Uuid, key: string, o: Order)
    requires Sound(t) && CheckoutOf(t, t', user, key, o) && o.user == user
    ensures Sound(t')
  {
    CheckoutKeeps(t, Entry(user, key, DebitKind, Debit, o.price, t.balances[user] - o.price), o);
  }

  ghost predicate CreditOf(t: Tables, t': Tables, user: Uuid, key: string, digest: string, amount: I64) {
    && user in t.balances && 0 < amount && t.balances[user] + amount <= I64_MAX && Find(t.ledger, key).None?
    && var e := Entry(user, key, CreditKind, Credit, amount, t.balances[user] + amount);
       t' == WithEntry(t, e).(claims := t.claims[key := Claim(digest, Some(e.balanceAfter))])
  }

  lemma CreditOnceShape(t: Tables, user: Uuid, key: string, digest: string, amount: I64)
    ensures var t' := CreditOnceEffect(t, user, key, digest, amount).tables;
      t' == t || CreditOf(t, t', user, key, digest, amount)
  {
  }

  lemma CreditOfKeeps(t: Tables, t': Tables, user: Uuid, key: string, digest: string, amount: I64)
    requires Sound(t) && CreditOf(t, t', user, key, digest, amount)
    ensures Sound(t')
  {
    var e := Entry(user, key, CreditKind, Credit, amount, t.balances[user] + amount);
    assert 0 <= t.balances[user];
    CreditOnceKeeps(t, user, key, digest, e);
  }

  lemma CreditOnceEffectKeeps(t: Tables, user: Uuid, key: string, digest: string, amount: I64)
    requires Sound(t)
    ensures Sound(CreditOnceEffect(t, user, key, digest, amount).tables)
  {
    var t' := CreditOnceEffect(t, user, key, digest, amount).tables;
    CreditOnceShape(t, user, key, digest, amount);
    if t' != t { CreditOfKeeps(t, t', user, key, digest, amount); }
  }

  lemma CheckoutEffectKeeps(
    t: Tables, user: Uuid, key: string, digest: string, product: string, level: string, abort: bool, quote: Option<I64>)
    requires Sound(t)
    ensures Sound(CheckoutEffect(t, user, key, digest, product, level, abort, quote).tables)
  {
    CheckoutShape(t, user, key, digest, product, level, abort, quote);
    var t' := CheckoutEffect(t, user, key, digest, product, level, abort, quote).tables;
    var o := Order(user, digest, product, level, if quote.Some? then quote.value else 0);
    if CheckoutOf(t, t', user, key, o) {
      CheckoutOfKeeps(t, t', user, key, o);
    }
  }

  lemma GuestEffectKeeps(t: Tables, key: string, digest: string, invoice: string, product: string, at: int)
    requires Sound(t)
    ensures Sound(GuestEffect(t, key, digest, invoice, product, at).tables)
  {
    if key !in t.guests && key !in t.outbox && !InvoiceTaken(t.guests, invoice) && product in t.products {
      GuestKeeps(t, key, GuestOrder(invoice, digest, product, t.products[product].basic));
    }
  }

  lemma RepriceKeeps(t: Tables, code: string, row: Product)
    requires Sound(t)
    ensures Sound(RepriceEffect(t, code, row).tables)
  {
  }

  /** The heart of the module: no operation, whatever its arguments, leads out of the sound states. */
  lemma ExecuteKeepsSound(t: Tables, p: Program, quote: Option<I64>)
    requires Sound(t)
    ensures Sound(Execute(t, p, quote).tables)
  {
    match p
    case Post(user, source, kind, direction, amount, abort) =>
      PostKeeps(t, user, source, kind, direction, amount, abort);
    case CreditOnce(user, key, digest, amount) => CreditOnceEffectKeeps(t, user, key, digest, amount);
    case Checkout(user, key, digest, product, level, abort) =>
      CheckoutEffectKeeps(t, user, key, digest, product, level, abort, quote);
    case ApproveDeposit(actor, owner, deposit) => ApproveKeeps(t, actor, owner, deposit);
    case RefundDeposit(actor, deposit, key) => RefundKeeps(t, actor, deposit, key);
    case AdjustBalance(actor, user, key, amount) => AdjustKeeps(t, actor, user, key, amount);
    case GuestCheckout(key, digest, invoice, product, at) => GuestEffectKeeps(t, key, digest, invoice, product, at);
    case Enqueue(ref, payload) => EnqueueKeeps(t, ref, payload);
    case ClaimProvider(ref) => ClaimKeeps(t, ref);
    case MarkAmbiguous(ref, lease) => AmbiguousKeeps(t, ref, lease);
    case ReconcileProvider(ref, result) => ReconcileProviderKeeps(t, ref, result);
    case Reprice(product, row) => RepriceKeeps(t, product, row);
  }
}
