/**
 * Any number of money transactions run at the same time, one statement at a time, under row locks,
 * unique-key reservations and read-committed visibility. Every run commits the states of a serial
 * run of the same operations in commit order.
 */
module WalletInterleaving {
  import opened Base
  import opened WalletTables
  import opened WalletSpec
  import opened WalletSoundness
  import opened WalletTransactions

  /** An open transaction; `held` maps each row it locked or reserved to what it saw there. */
  datatype Tx = Tx(program: Program, log: seq<Answer>, held: map<Row, Option<Cell>>)

  /** One committed operation: its program, the price it had read, and its reply. */
  datatype Job = Job(program: Program, quote: Option<I64>, reply: Reply)

  datatype System = System(db: Tables, open: map<nat, Tx>, history: seq<Job>)

  datatype Event = Begin(id: nat, program: Program) | Step(id: nat,
    answer: Answer) | Finish(id: nat) | Rollback(id: nat)

  function Start(db: Tables): System {
    System(db, map[], [])
  }

  function NextStmt(tx: Tx): Stmt {
    Next(tx.program, tx.log)
  }

  ghost predicate Free(s: System, id: nat, r: Row) {
    forall other :: other in s.open && other != id ==> r !in s.open[other].held
  }

  /**
   * What the database may answer. A lock on an absent row locks nothing; a lock on a present row,
   * and a reservation of an absent key, wait until no other transaction holds the row.
   */
  ghost predicate MayAnswer(s: System, id: nat, stmt: Stmt, a: Answer) {
    match stmt
    case Lock(r) =>
      (match CellOf(s.db, r) case None => a == Missing case Some(c) => a == Locked(c) && Free(s, id, r))
    case Reserve(r) => if CellOf(s.db, r).Some? then a == Duplicate else a == Reserved && Free(s, id, r)
    case Read(q) => a == Data(Ask(s.db, q))
    case Commit(_, _) => false
    case Quit(_) => false
  }

  function Advance(tx: Tx, a: Answer): Tx {
    var stmt := NextStmt(tx);
    var held :=
      if stmt.Lock? && a.Locked? then tx.held[stmt.row := Some(a.cell)]
      else if stmt.Reserve? && a.Reserved? then tx.held[stmt.row := None]
      else tx.held;
    Tx(tx.program, tx.log + [a], held)
  }

  ghost predicate Enabled(s: System, ev: Event) {
    match ev
    case Begin(id, _) => id !in s.open
    case Step(id, a) => id in s.open && MayAnswer(s, id, NextStmt(s.open[id]), a)
    case Finish(id) => id in s.open && NextStmt(s.open[id]).Commit?
    case Rollback(id) => id in s.open
  }

  /** A rollback may come at any time: a refusal, an abort, or a lost connection. */
  function Do(s: System, ev: Event): System {
    match ev
    case Begin(id, p) => s.(open := s.open[id := Tx(p, [], map[])])
    case Step(id, a) => if id in s.open then s.(open := s.open[id := Advance(s.open[id], a)]) else s
    case Finish(id) =>
      if id in s.open && NextStmt(s.open[id]).Commit? then
        var tx := s.open[id];
        var stmt := NextStmt(tx);
        var job := Job(tx.program, QuoteOf(tx.program, tx.log), stmt.reply);
        System(Apply(s.db, stmt.delta), s.open - {id}, s.history + [job])
      else s
    case Rollback(id) => s.(open := s.open - {id})
  }

  ghost predicate Legal(s: System, run: seq<Event>)
    decreases |run|
  {
    |run| > 0 ==> Enabled(s, run[0]) && Legal(Do(s, run[0]), run[1..])
  }

  ghost function After(s: System, run: seq<Event>): System
    decreases |run|
  {
    if |run| == 0 then s else After(Do(s, run[0]), run[1..])
  }

  // ---- The serial counterpart ----

  function Serial(db: Tables, jobs: seq<Job>): Tables {
    if |jobs| == 0 then db
    else Execute(Serial(db, jobs[..|jobs| - 1]), jobs[|jobs| - 1].program, jobs[|jobs| - 1].quote).tables
  }

  /** Each reply is the one that the serial run gives at that point. */
  ghost predicate RepliesMatch(db: Tables, jobs: seq<Job>) {
    forall i :: 0 <= i < |jobs| ==>
      jobs[i].reply == Execute(Serial(db, jobs[..i]), jobs[i].program, jobs[i].quote).reply
  }

  /** No job in the history was a refusal or a replay: each one changed the tables. */
  ghost predicate AllTookEffect(db: Tables, jobs: seq<Job>) {
    forall i :: 0 <= i < |jobs| && !jobs[i].program.Reprice? ==>
      Execute(Serial(db, jobs[..i]), jobs[i].program, jobs[i].quote).tables != Serial(db, jobs[..i])
  }

  // ---- What holds of an open transaction ----

  ghost predicate Recorded(stmt: Stmt, a: Answer, held: map<Row, Option<Cell>>) {
    match stmt
    case Lock(r) => a.Missing? || (a.Locked? && r in held && held[r] == Some(a.cell))
    case Reserve(r) => a.Duplicate? || (a.Reserved? && r in held && held[r] == None)
    case Read(_) => a.Data?
    case Commit(_, _) => false
    case Quit(_) => false
  }

  /** Every answer in the log is one that its statement can get, and is backed by the held rows. */
  ghost predicate Logged(tx: Tx) {
    forall i {:trigger tx.log[i]} :: 0 <= i < |tx.log| ==> Recorded(Next(tx.program, tx.log[..i]), tx.log[i], tx.held)
  }

  /** Users are never removed and ledger entries never change, so these reads stay true. */
  ghost predicate Lasting(db: Tables, stmt: Stmt, a: Answer) {
    stmt.Read? && a.Data? && a.number.Some? ==>
      && (stmt.query.BalanceOf? ==> stmt.query.user in db.balances)
      && (stmt.query.AmountOf? ==> Ask(db, stmt.query) == a.number)
  }

  /** The held rows, and the lasting reads, still show what the transaction saw. */
  ghost predicate Current(db: Tables, tx: Tx) {
    && (forall r :: r in tx.held ==> CellOf(db, r) == tx.held[r])
    && (forall i {:trigger tx.log[i]} :: 0 <= i < |tx.log| ==> Lasting(db, Next(tx.program, tx.log[..i]), tx.log[i]))
  }

  /** Every row that the delta writes is held, and what it inserts is new. */
  ghost predicate Covered(db: Tables, delta: Delta, held: map<Row, Option<Cell>>) {
    && (forall u :: u in delta.balances ==> UserRow(u) in held)
    && (forall k :: k in delta.claims ==> ClaimRow(k) in held)
    && (forall k :: k in delta.orders ==> OrderRow(k) in held)
    && (forall k :: k in delta.outbox ==> OutboxRef(k) in held)
    && (forall k :: k in delta.deposits ==> DepositRow(k) in held)
    && (forall k :: k in delta.audits ==> AuditRow(k) in held)
    && (forall k :: k in delta.products ==> ProductRow(k) in held)
    && (forall k :: k in delta.guests ==>
          GuestRow(k) in held && InvoiceRow(delta.guests[k].invoice) in held && k !in db.guests)
    && EntriesCovered(db.ledger, delta.entries, held)
  }

  ghost predicate EntriesCovered(ledger: seq<Entry>, entries: seq<Entry>, held: map<Row, Option<Cell>>) {
    || entries == []
    || (|entries| == 1 && SourceRow(entries[0].source) in held && Find(ledger, entries[0].source).None?)
  }

  // ---- A commit is the serial effect ----

  /** An answer that the committed tables still back. */
  ghost predicate Backed(db: Tables, stmt: Stmt, a: Answer) {
    match stmt
    case Lock(r) => a.Missing? || (a.Locked? && CellOf(db, r) == Some(a.cell))
    case Reserve(r) => a.Duplicate? || (a.Reserved? && CellOf(db, r) == None)
    case Read(_) => a.Data? && Lasting(db, stmt, a)
    case Commit(_, _) => false
    case Quit(_) => false
  }

  ghost predicate AllBacked(db: Tables, p: Program, log: seq<Answer>) {
    forall i {:trigger log[i]} :: 0 <= i < |log| ==> Backed(db, Next(p, log[..i]), log[i])
  }

  lemma MergeNothing<K, V>(m: map<K, V>)
    ensures m + map[] == m
  {
  }

  lemma PutOne<V>(m: map<string, V>, k: string, v: V)
    ensures m + map[k := v] == m[k := v]
  {
  }

  /** An entry, with whatever deposit and audit rows go with it, is written as the operations write it. */
  lemma ApplyEntry(t: Tables, e: Entry, deposits: map<string, Deposit>, audits: map<string, Audit>)
    ensures Apply(t, NOTHING.(balances := map[e.user := e.balanceAfter], entries := [e], deposits := deposits,
        audits := audits))
      == WithEntry(t, e).(deposits := t.deposits + deposits, audits := t.audits + audits)
  {
    PutOne(t.balances, e.user, e.balanceAfter);
    MergeNothing(t.claims);
    MergeNothing(t.orders);
    MergeNothing(t.outbox);
    MergeNothing(t.products);
    MergeNothing(t.guests);
  }

  lemma ApplyPurchase(
    t: Tables, e: Entry, claims: map<string, Claim>, orders: map<string, Order>, outbox: map<string, OutboxRow>)
    ensures Apply(t, NOTHING.(balances := map[e.user := e.balanceAfter], entries := [e], claims := claims,
        orders := orders, outbox := outbox))
      == WithEntry(t, e).(claims := t.claims + claims, orders := t.orders + orders, outbox := t.outbox + outbox)
  {
    PutOne(t.balances, e.user, e.balanceAfter);
    MergeNothing(t.deposits);
    MergeNothing(t.audits);
    MergeNothing(t.products);
    MergeNothing(t.guests);
  }

  lemma ApplyGoods(
    t: Tables, products: map<string, Product>, guests: map<string, GuestOrder>, outbox: map<string, OutboxRow>)
    ensures Apply(t, NOTHING.(products := products, guests := guests, outbox := outbox))
      == t.(products := t.products + products, guests := t.guests + guests, outbox := t.outbox + outbox)
  {
    MergeNothing(t.balances);
    MergeNothing(t.claims);
    MergeNothing(t.orders);
    MergeNothing(t.deposits);
    MergeNothing(t.audits);
    assert t.ledger + [] == t.ledger;
  }

  lemma PostCommits(db: Tables, p: Program, log: seq<Answer>)
    requires p.Post? && AllBacked(db, p, log) && Next(p, log).Commit?
    ensures Effect(Apply(db, Next(p, log).delta), Next(p, log).reply) == Execute(db, p, None)
  {
    assert Backed(db, Next(p, log[..0]), log[0]) && Backed(db, Next(p, log[..1]), log[1]);
    ApplyEntry(db, Next(p, log).delta.entries[0], map[], map[]);
    MergeNothing(db.deposits);
    MergeNothing(db.audits);
  }

  lemma CreditOnceCommits(db: Tables, p: Program, log: seq<Answer>)
    requires p.CreditOnce? && AllBacked(db, p, log) && Next(p, log).Commit?
    ensures Effect(Apply(db, Next(p, log).delta), Next(p, log).reply) == Execute(db, p, None)
  {
    assert Backed(db, Next(p, log[..0]), log[0]);
    assert Backed(db, Next(p, log[..1]), log[1]) && Backed(db, Next(p, log[..2]), log[2]);
    assert Backed(db, Next(p, log[..3]), log[3]);
    var delta := Next(p, log).delta;
    ApplyPurchase(db, delta.entries[0], delta.claims, map[], map[]);
    PutOne(db.claims, p.key, delta.claims[p.key]);
    MergeNothing(db.orders);
    MergeNothing(db.outbox);
  }

  lemma CheckoutSaw(db: Tables, p: Program, log: seq<Answer>)
    requires p.Checkout? && AllBacked(db, p, log) && Next(p, log).Commit?
    ensures p.user in db.balances && log[2] == Locked(BalanceCell(db.balances[p.user]))
    ensures Find(db.ledger, p.key).None? && p.key !in db.orders && p.key !in db.outbox
  {
    assert Backed(db, Next(p, log[..0]), log[0]) && Backed(db, Next(p, log[..1]), log[1]);
    assert Backed(db, Next(p, log[..2]), log[2]) && Backed(db, Next(p, log[..3]), log[3]);
    assert Backed(db, Next(p, log[..4]), log[4]) && Backed(db, Next(p, log[..5]), log[5]);
  }

  lemma CheckoutCommits(db: Tables, p: Program, log: seq<Answer>)
    requires p.Checkout? && Next(p, log).Commit?
    requires p.user in db.balances && log[2] == Locked(BalanceCell(db.balances[p.user]))
    requires Find(db.ledger, p.key).None? && p.key !in db.orders && p.key !in db.outbox
    ensures Effect(Apply(db, Next(p, log).delta), Next(p, log).reply) == Execute(db, p, QuoteOf(p, log))
  {
    var delta := Next(p, log).delta;
    ApplyPurchase(db, delta.entries[0], map[], delta.orders, delta.outbox);
    MergeNothing(db.claims);
    PutOne(db.orders, p.key, delta.orders[p.key]);
    PutOne(db.outbox, p.key, delta.outbox[p.key]);
  }

  /** What the answers from `k` on say about the tables once an audited posting is complete. */
  ghost predicate AuditedPostingReady(db: Tables, log: seq<Answer>, k: nat, user: Uuid, source: string, actor: Uuid) {
    && k + 4 <= |log| && user in db.balances && log[k] == Locked(BalanceCell(db.balances[user]))
    && Find(db.ledger, source).None? && source !in db.audits && actor in db.balances
  }

  lemma ApproveSaw(db: Tables, p: Program, log: seq<Answer>)
    requires p.ApproveDeposit? && AllBacked(db, p, log) && Next(p, log).Commit?
    ensures log[0].Locked? && CellOf(db, DepositRow(p.deposit)) == Some(log[0].cell)
    ensures AuditedPostingReady(db, log, 1, db.deposits[p.deposit].user, ApprovalSource(p.deposit), p.actor)
  {
    assert Backed(db, Next(p, log[..0]), log[0]);
    assert Backed(db, Next(p, log[..1]), log[1]) && Backed(db, Next(p, log[..2]), log[2]);
    assert Backed(db, Next(p, log[..3]), log[3]) && Backed(db, Next(p, log[..4]), log[4]);
  }

  lemma ApproveCommits(db: Tables, p: Program, log: seq<Answer>)
    requires p.ApproveDeposit? && Next(p, log).Commit?
    requires CellOf(db, DepositRow(p.deposit)) == Some(log[0].cell)
    requires AuditedPostingReady(db, log, 1, db.deposits[p.deposit].user, ApprovalSource(p.deposit), p.actor)
    ensures Effect(Apply(db, Next(p, log).delta), Next(p, log).reply) == Execute(db, p, None)
  {
    var delta := Next(p, log).delta;
    ApplyEntry(db, delta.entries[0], delta.deposits, delta.audits);
    PutOne(db.deposits, p.deposit, delta.deposits[p.deposit]);
    PutOne(db.audits, ApprovalSource(p.deposit), delta.audits[ApprovalSource(p.deposit)]);
  }

  lemma RefundSaw(db: Tables, p: Program, log: seq<Answer>)
    requires p.RefundDeposit? && AllBacked(db, p, log) && Next(p, log).Commit?
    ensures log[1].Locked? && CellOf(db, DepositRow(p.deposit)) == Some(log[1].cell)
    ensures db.deposits[p.deposit].status == Approved
    ensures log[2].Data? && log[2].number.Some? && Ask(db, AmountOf(ApprovalSource(p.deposit))) == log[2].number
    ensures AuditedPostingReady(db, log, 3, db.deposits[p.deposit].user, p.key, p.actor)
  {
    assert Backed(db, Next(p, log[..0]), log[0]);
    assert Backed(db, Next(p, log[..1]), log[1]) && Backed(db, Next(p, log[..2]), log[2]);
    assert Backed(db, Next(p, log[..3]), log[3]) && Backed(db, Next(p, log[..4]), log[4]);
    assert Backed(db, Next(p, log[..5]), log[5]) && Backed(db, Next(p, log[..6]), log[6]);
  }

  /**
   * The replay check of a refund takes no lock, so two refunds can both miss it. The one that locks
   * the deposit second finds it refunded; the one that commits sees what a serial refund would see.
   */
  lemma RefundCommits(db: Tables, p: Program, log: seq<Answer>)
    requires p.RefundDeposit? && Next(p, log).Commit?
    requires CellOf(db, DepositRow(p.deposit)) == Some(log[1].cell)
    requires log[2].number.Some? && Ask(db, AmountOf(ApprovalSource(p.deposit))) == log[2].number
    requires AuditedPostingReady(db, log, 3, db.deposits[p.deposit].user, p.key, p.actor)
    requires !RefundRecorded(db.audits, p.deposit)
    ensures Effect(Apply(db, Next(p, log).delta), Next(p, log).reply) == Execute(db, p, None)
  {
    var delta := Next(p, log).delta;
    ApplyEntry(db, delta.entries[0], delta.deposits, delta.audits);
    PutOne(db.deposits, p.deposit, delta.deposits[p.deposit]);
    PutOne(db.audits, p.key, delta.audits[p.key]);
  }

  lemma AdjustSaw(db: Tables, p: Program, log: seq<Answer>)
    requires p.AdjustBalance? && AllBacked(db, p, log) && Next(p, log).Commit?
    ensures AuditedPostingReady(db, log, 1, p.user, p.key, p.actor)
  {
    assert Backed(db, Next(p, log[..0]), log[0]);
    assert Backed(db, Next(p, log[..1]), log[1]) && Backed(db, Next(p, log[..2]), log[2]);
    assert Backed(db, Next(p, log[..3]), log[3]) && Backed(db, Next(p, log[..4]), log[4]);
  }

  lemma AdjustCommits(db: Tables, p: Program, log: seq<Answer>)
    requires p.AdjustBalance? && Next(p, log).Commit?
    requires AuditedPostingReady(db, log, 1, p.user, p.key, p.actor)
    ensures Effect(Apply(db, Next(p, log).delta), Next(p, log).reply) == Execute(db, p, None)
  {
    var delta := Next(p, log).delta;
    ApplyEntry(db, delta.entries[0], map[], delta.audits);
    MergeNothing(db.deposits);
    PutOne(db.audits, p.key, delta.audits[p.key]);
  }

  lemma GuestSaw(db: Tables, p: Program, log: seq<Answer>)
    requires p.GuestCheckout? && AllBacked(db, p, log) && Next(p, log).Commit?
    ensures log[1].Locked? && CellOf(db, ProductRow(p.product)) == Some(log[1].cell)
    ensures !InvoiceTaken(db.guests, p.invoice) && p.key !in db.guests && p.key !in db.outbox
  {
    assert Backed(db, Next(p, log[..0]), log[0]);
    assert Backed(db, Next(p, log[..1]), log[1]) && Backed(db, Next(p, log[..2]), log[2]);
    assert Backed(db, Next(p, log[..3]), log[3]) && Backed(db, Next(p, log[..4]), log[4]);
  }

  lemma GuestCommits(db: Tables, p: Program, log: seq<Answer>)
    requires p.GuestCheckout? && Next(p, log).Commit?
    requires CellOf(db, ProductRow(p.product)) == Some(log[1].cell)
    requires !InvoiceTaken(db.guests, p.invoice) && p.key !in db.guests && p.key !in db.outbox
    ensures Effect(Apply(db, Next(p, log).delta), Next(p, log).reply) == Execute(db, p, None)
  {
    var delta := Next(p, log).delta;
    ApplyGoods(db, delta.products, delta.guests, delta.outbox);
    PutOne(db.products, p.product, delta.products[p.product]);
    PutOne(db.guests, p.key, delta.guests[p.key]);
    PutOne(db.outbox, p.key, delta.outbox[p.key]);
  }

  lemma OutboxCommits(db: Tables, p: Program, log: seq<Answer>)
    requires p.Enqueue? || p.ClaimProvider? || p.MarkAmbiguous? || p.ReconcileProvider?
    requires AllBacked(db, p, log) && Next(p, log).Commit?
    ensures Effect(Apply(db, Next(p, log).delta), Next(p, log).reply) == Execute(db, p, None)
  {
    assert Backed(db, Next(p, log[..0]), log[0]);
    var delta := Next(p, log).delta;
    ApplyGoods(db, map[], map[], delta.outbox);
    MergeNothing(db.products);
    MergeNothing(db.guests);
    PutOne(db.outbox, p.ref, delta.outbox[p.ref]);
  }

  lemma RepriceCommits(db: Tables, p: Program, log: seq<Answer>)
    requires p.Reprice? && AllBacked(db, p, log) && Next(p, log).Commit?
    ensures Effect(Apply(db, Next(p, log).delta), Next(p, log).reply) == Execute(db, p, None)
  {
    assert Backed(db, Next(p, log[..0]), log[0]);
    var delta := Next(p, log).delta;
    ApplyGoods(db, delta.products, map[], map[]);
    MergeNothing(db.outbox);
    MergeNothing(db.guests);
    PutOne(db.products, p.product, delta.products[p.product]);
  }

  /** A transaction that reaches its commit does exactly what its operation does alone, now. */
  lemma CommitIsSerial(db: Tables, p: Program, log: seq<Answer>)
    requires AllBacked(db, p, log) && Next(p, log).Commit?
    requires AuditsSound(db.deposits, db.audits, db.ledger)
    ensures Effect(Apply(db, Next(p, log).delta), Next(p, log).reply) == Execute(db, p, QuoteOf(p, log))
  {
    match p
    case Post(_, _, _, _, _, _) => PostCommits(db, p, log);
    case CreditOnce(_, _, _, _) => CreditOnceCommits(db, p, log);
    case Checkout(_, _, _, _, _, _) => CheckoutSaw(db, p, log); CheckoutCommits(db, p, log);
    case ApproveDeposit(_, _, _) => ApproveSaw(db, p, log); ApproveCommits(db, p, log);
    case RefundDeposit(_, _, _) => RefundSaw(db, p, log); RefundCommits(db, p, log);
    case AdjustBalance(_, _, _, _) => AdjustSaw(db, p, log); AdjustCommits(db, p, log);
    case GuestCheckout(_, _, _, _, _) => GuestSaw(db, p, log); GuestCommits(db, p, log);
    case Enqueue(_, _) => OutboxCommits(db, p, log);
    case ClaimProvider(_) => OutboxCommits(db, p, log);
    case MarkAmbiguous(_, _) => OutboxCommits(db, p, log);
    case ReconcileProvider(_, _) => OutboxCommits(db, p, log);
    case Reprice(_, _) => RepriceCommits(db, p, log);
  }

  lemma OneAnswer(tx: Tx, i: nat)
    requires Logged(tx) && i < |tx.log|
    ensures Recorded(Next(tx.program, tx.log[..i]), tx.log[i], tx.held)
  {
  }

  // ---- A commit writes only rows that its transaction holds ----

  lemma {:induction false} PostingIsCovered(db: Tables, tx: Tx, k: nat, user: Uuid, source: string)
    requires Logged(tx) && Current(db, tx) && k + 2 <= |tx.log|
    requires Next(tx.program, tx.log[..k]) == Lock(UserRow(user)) && tx.log[k].Locked?
    requires Next(tx.program, tx.log[..k + 1]) == Reserve(SourceRow(source)) && tx.log[k + 1].Reserved?
    ensures UserRow(user) in tx.held && SourceRow(source) in tx.held && Find(db.ledger, source).None?
  {
    OneAnswer(tx, k);
    OneAnswer(tx, k + 1);
    assert CellOf(db, SourceRow(source)) == tx.held[SourceRow(source)];
  }

  lemma PostingsAreCovered(db: Tables, tx: Tx)
    requires Logged(tx) && Current(db, tx) && NextStmt(tx).Commit?
    requires tx.program.Post? || tx.program.AdjustBalance?
    ensures Covered(db, NextStmt(tx).delta, tx.held)
  {
    if tx.program.Post? {
      PostingIsCovered(db, tx, 0, tx.program.user, tx.program.source);
    } else {
      PostingIsCovered(db, tx, 1, tx.program.user, tx.program.key);
      OneAnswer(tx, 3);
    }
  }

  ghost predicate HoldsNewEntry(ledger: seq<Entry>, held: map<Row, Option<Cell>>, user: Uuid, source: string) {
    UserRow(user) in held && SourceRow(source) in held && Find(ledger, source).None?
  }

  lemma ApprovalHolds(db: Tables, tx: Tx)
    requires Logged(tx) && Current(db, tx) && NextStmt(tx).Commit? && tx.program.ApproveDeposit?
    ensures var source := ApprovalSource(tx.program.deposit);
      HoldsNewEntry(db.ledger, tx.held, tx.log[0].cell.deposit.user, source)
      && DepositRow(tx.program.deposit) in tx.held && AuditRow(source) in tx.held
  {
    OneAnswer(tx, 0);
    PostingIsCovered(db, tx, 1, tx.log[0].cell.deposit.user, ApprovalSource(tx.program.deposit));
    OneAnswer(tx, 3);
  }

  lemma RefundHolds(db: Tables, tx: Tx)
    requires Logged(tx) && Current(db, tx) && NextStmt(tx).Commit? && tx.program.RefundDeposit?
    ensures var source := tx.program.key;
      HoldsNewEntry(db.ledger, tx.held, tx.log[1].cell.deposit.user, source)
      && DepositRow(tx.program.deposit) in tx.held && AuditRow(source) in tx.held
  {
    OneAnswer(tx, 1);
    PostingIsCovered(db, tx, 3, tx.log[1].cell.deposit.user, tx.program.key);
    OneAnswer(tx, 5);
  }

  lemma DepositDeltaIsCovered(
    db: Tables, p: Program, log: seq<Answer>, held: map<Row, Option<Cell>>, user: Uuid, source: string)
    requires Next(p, log).Commit? && HoldsNewEntry(db.ledger, held, user, source) && AuditRow(source) in held
    requires p.ApproveDeposit? || p.RefundDeposit?
    requires DepositRow(p.deposit) in held
    requires if p.ApproveDeposit? then user == log[0].cell.deposit.user && source == ApprovalSource(p.deposit)
             else user == log[1].cell.deposit.user && source == p.key
    ensures Covered(db, Next(p, log).delta, held)
  {
  }

  lemma CreditHolds(db: Tables, tx: Tx)
    requires Logged(tx) && Current(db, tx) && NextStmt(tx).Commit? && tx.program.CreditOnce?
    ensures HoldsNewEntry(db.ledger, tx.held, tx.program.user, tx.program.key) && ClaimRow(tx.program.key) in tx.held
  {
    OneAnswer(tx, 1);
    PostingIsCovered(db, tx, 2, tx.program.user, tx.program.key);
  }

  lemma CheckoutHolds(db: Tables, tx: Tx)
    requires Logged(tx) && Current(db, tx) && NextStmt(tx).Commit? && tx.program.Checkout?
    ensures HoldsNewEntry(db.ledger, tx.held, tx.program.user, tx.program.key)
    ensures OrderRow(tx.program.key) in tx.held && OutboxRef(tx.program.key) in tx.held
  {
    PostingIsCovered(db, tx, 2, tx.program.user, tx.program.key);
    OneAnswer(tx, 4);
    OneAnswer(tx, 5);
  }

  lemma PurchaseDeltaIsCovered(db: Tables, p: Program, log: seq<Answer>, held: map<Row, Option<Cell>>)
    requires Next(p, log).Commit? && (p.CreditOnce? || p.Checkout?) && HoldsNewEntry(db.ledger, held, p.user, p.key)
    requires if p.CreditOnce? then ClaimRow(p.key) in held else OrderRow(p.key) in held && OutboxRef(p.key) in held
    ensures Covered(db, Next(p, log).delta, held)
  {
  }

  lemma GuestHolds(db: Tables, tx: Tx)
    requires Logged(tx) && Current(db, tx) && NextStmt(tx).Commit? && tx.program.GuestCheckout?
    ensures ProductRow(tx.program.product) in tx.held && InvoiceRow(tx.program.invoice) in tx.held
    ensures GuestRow(tx.program.key) in tx.held && tx.program.key !in db.guests && OutboxRef(tx.program.key) in tx.held
  {
    OneAnswer(tx, 1);
    OneAnswer(tx, 2);
    OneAnswer(tx, 3);
    OneAnswer(tx, 4);
    assert CellOf(db, GuestRow(tx.program.key)) == tx.held[GuestRow(tx.program.key)];
  }

  lemma GuestDeltaIsCovered(db: Tables, p: Program, log: seq<Answer>, held: map<Row, Option<Cell>>)
    requires Next(p, log).Commit? && p.GuestCheckout?
    requires ProductRow(p.product) in held && InvoiceRow(p.invoice) in held
    requires GuestRow(p.key) in held && p.key !in db.guests && OutboxRef(p.key) in held
    ensures Covered(db, Next(p, log).delta, held)
  {
  }

  lemma CommitIsCovered(db: Tables, tx: Tx)
    requires Logged(tx) && Current(db, tx) && NextStmt(tx).Commit?
    ensures Covered(db, NextStmt(tx).delta, tx.held)
  {
    match tx.program
    case Post(_, _, _, _, _, _) => PostingsAreCovered(db, tx);
    case AdjustBalance(_, _, _, _) => PostingsAreCovered(db, tx);
    case CreditOnce(_, _, _, _) => CreditHolds(db, tx); PurchaseDeltaIsCovered(db, tx.program, tx.log, tx.held);
    case Checkout(_, _, _, _, _, _) => CheckoutHolds(db, tx); PurchaseDeltaIsCovered(db, tx.program, tx.log, tx.held);
    case ApproveDeposit(_, _, deposit) =>
      ApprovalHolds(db, tx);
      DepositDeltaIsCovered(db, tx.program, tx.log, tx.held, tx.log[0].cell.deposit.user, ApprovalSource(deposit));
    case RefundDeposit(_, _, key) =>
      RefundHolds(db, tx);
      DepositDeltaIsCovered(db, tx.program, tx.log, tx.held, tx.log[1].cell.deposit.user, key);
    case GuestCheckout(_, _, _, _, _) => GuestHolds(db, tx); GuestDeltaIsCovered(db, tx.program, tx.log, tx.held);
    case Enqueue(_, _) => OneAnswer(tx, 0);
    case ClaimProvider(_) => OneAnswer(tx, 0);
    case MarkAmbiguous(_, _) => OneAnswer(tx, 0);
    case ReconcileProvider(_, _) => OneAnswer(tx, 0);
    case Reprice(_, _) => OneAnswer(tx, 0);
  }

  lemma {:induction false} OtherSourcesStay(
    ledger: seq<Entry>, entries: seq<Entry>, held: map<Row, Option<Cell>>, source: string)
    requires EntriesCovered(ledger, entries, held)
    requires SourceRow(source) !in held || Find(ledger, source).Some?
    ensures Find(ledger + entries, source) == Find(ledger, source)
  {
    if |entries| == 1 {
      assert entries == [entries[0]];
      FindAfterAppend(ledger, entries[0], source);
    } else {
      assert ledger + entries == ledger;
    }
  }

  lemma OtherInvoicesStay(db: Tables, delta: Delta, held: map<Row, Option<Cell>>, invoice: string)
    requires Covered(db, delta, held) && InvoiceRow(invoice) !in held
    ensures InvoiceTaken(db.guests + delta.guests, invoice) == InvoiceTaken(db.guests, invoice)
  {
    if InvoiceTaken(db.guests, invoice) {
      var k :| k in db.guests && db.guests[k].invoice == invoice;
      assert k in db.guests + delta.guests;
    }
  }

  /** A row that the committing transaction does not hold looks the same afterwards. */
  lemma UnheldRowStays(db: Tables, delta: Delta, held: map<Row, Option<Cell>>, r: Row)
    requires Covered(db, delta, held) && r !in held
    ensures CellOf(Apply(db, delta), r) == CellOf(db, r)
  {
    if r.SourceRow? {
      OtherSourcesStay(db.ledger, delta.entries, held, r.source);
    } else if r.InvoiceRow? {
      OtherInvoicesStay(db, delta, held, r.invoice);
    }
  }

  lemma LastingReadStays(db: Tables, delta: Delta, held: map<Row, Option<Cell>>, stmt: Stmt, a: Answer)
    requires EntriesCovered(db.ledger, delta.entries, held) && Lasting(db, stmt, a)
    ensures Lasting(Apply(db, delta), stmt, a)
  {
    if stmt.Read? && stmt.query.AmountOf? && Find(db.ledger, stmt.query.source).Some? {
      OtherSourcesStay(db.ledger, delta.entries, held, stmt.query.source);
    }
  }

  /** Another transaction's commit changes nothing that an open transaction relies on. */
  lemma OthersStayCurrent(db: Tables, delta: Delta, held: map<Row, Option<Cell>>, other: Tx)
    requires Covered(db, delta, held) && Current(db, other)
    requires forall r :: r in held ==> r !in other.held
    ensures Current(Apply(db, delta), other)
  {
    forall r | r in other.held ensures CellOf(Apply(db, delta), r) == other.held[r] {
      UnheldRowStays(db, delta, held, r);
    }
    forall i | 0 <= i < |other.log|
      ensures Lasting(Apply(db, delta), Next(other.program, other.log[..i]), other.log[i])
    {
      LastingReadStays(db, delta, held, Next(other.program, other.log[..i]), other.log[i]);
    }
  }

  // ---- The invariant of the whole system ----

  ghost predicate Disjoint(s: System) {
    forall a, b {:trigger s.open[a], s.open[b]} :: a in s.open && b in s.open && a != b ==>
      forall r :: r in s.open[a].held ==> r !in s.open[b].held
  }

  ghost predicate Steady(s: System) {
    && (forall id :: id in s.open ==> Logged(s.open[id]) && Current(s.db, s.open[id]))
    && Disjoint(s)
  }

  /** From `db0` on, the committed tables are those of the serial run of the history. */
  ghost predicate Faithful(db0: Tables, s: System) {
    Sound(s.db) && s.db == Serial(db0, s.history) && RepliesMatch(db0, s.history) && AllTookEffect(db0, s.history)
  }

  lemma AdvanceKeeps(s: System, id: nat, a: Answer)
    requires Steady(s) && id in s.open && MayAnswer(s, id, NextStmt(s.open[id]), a)
    ensures Logged(Advance(s.open[id], a)) && Current(s.db, Advance(s.open[id], a))
  {
    var tx := s.open[id];
    var tx', stmt := Advance(tx, a), NextStmt(tx);
    assert forall r :: r in tx.held ==> r in tx'.held && tx'.held[r] == tx.held[r] by {
      assert forall r :: r in tx.held ==> CellOf(s.db, r) == tx.held[r];
    }
    forall i | 0 <= i < |tx'.log|
      ensures Recorded(Next(tx'.program, tx'.log[..i]), tx'.log[i], tx'.held)
      ensures Lasting(s.db, Next(tx'.program, tx'.log[..i]), tx'.log[i])
    {
      if i < |tx.log| {
        assert tx'.log[..i] == tx.log[..i];
        OneAnswer(tx, i);
      } else {
        assert tx'.log[..i] == tx.log;
      }
    }
  }

  lemma StepKeepsSteady(s: System, id: nat, a: Answer)
    requires Steady(s) && Enabled(s, Step(id, a))
    ensures Steady(Do(s, Step(id, a)))
  {
    AdvanceKeeps(s, id, a);
  }

  lemma FinishKeepsSteady(s: System, id: nat)
    requires Steady(s) && Enabled(s, Finish(id))
    ensures Steady(Do(s, Finish(id)))
  {
    var tx, s' := s.open[id], Do(s, Finish(id));
    CommitIsCovered(s.db, tx);
    forall o | o in s'.open ensures Logged(s'.open[o]) && Current(s'.db, s'.open[o]) {
      OthersStayCurrent(s.db, NextStmt(tx).delta, tx.held, s.open[o]);
    }
  }

  lemma CurrentBacks(db: Tables, tx: Tx)
    requires Logged(tx) && Current(db, tx)
    ensures AllBacked(db, tx.program, tx.log)
  {
    forall i | 0 <= i < |tx.log| ensures Backed(db, Next(tx.program, tx.log[..i]), tx.log[i]) {
      OneAnswer(tx, i);
    }
  }

  lemma OutboxCommitChanges(db: Tables, p: Program, log: seq<Answer>)
    requires AllBacked(db, p, log) && Next(p, log).Commit?
    requires p.Enqueue? || p.ClaimProvider? || p.MarkAmbiguous? || p.ReconcileProvider?
    ensures Apply(db, Next(p, log).delta) != db
  {
    assert Backed(db, Next(p, log[..0]), log[0]);
    assert p.ref in Next(p, log).delta.outbox;
    assert Apply(db, Next(p, log).delta).outbox[p.ref] == Next(p, log).delta.outbox[p.ref];
  }

  lemma PostingCommitChanges(db: Tables, p: Program, log: seq<Answer>)
    requires Next(p, log).Commit?
    requires p.Post? || p.CreditOnce? || p.Checkout? || p.ApproveDeposit? || p.RefundDeposit? || p.AdjustBalance?
    ensures Apply(db, Next(p, log).delta) != db
  {
    assert |Next(p, log).delta.entries| == 1;
    assert |Apply(db, Next(p, log).delta).ledger| == |db.ledger| + 1;
  }

  lemma GuestCommitChanges(db: Tables, p: Program, log: seq<Answer>, held: map<Row, Option<Cell>>)
    requires p.GuestCheckout? && Next(p, log).Commit? && Covered(db, Next(p, log).delta, held)
    ensures Apply(db, Next(p, log).delta) != db
  {
    assert p.key in Next(p, log).delta.guests && p.key in Apply(db, Next(p, log).delta).guests;
  }

  lemma CommitChanges(db: Tables, p: Program, log: seq<Answer>, held: map<Row, Option<Cell>>)
    requires AllBacked(db, p, log) && Next(p, log).Commit? && Covered(db, Next(p, log).delta, held)
    ensures p.Reprice? || Apply(db, Next(p, log).delta) != db
  {
    if p.Enqueue? || p.ClaimProvider? || p.MarkAmbiguous? || p.ReconcileProvider? {
      OutboxCommitChanges(db, p, log);
    } else if p.GuestCheckout? {
      GuestCommitChanges(db, p, log, held);
    } else if !p.Reprice? {
      PostingCommitChanges(db, p, log);
    }
  }

  lemma {:induction false} HistoryGrows(db0: Tables, jobs: seq<Job>, job: Job)
    requires RepliesMatch(db0, jobs) && AllTookEffect(db0, jobs)
    requires job.reply == Execute(Serial(db0, jobs), job.program, job.quote).reply
    requires job.program.Reprice? || Execute(Serial(db0, jobs), job.program, job.quote).tables != Serial(db0, jobs)
    ensures RepliesMatch(db0, jobs + [job]) && AllTookEffect(db0, jobs + [job])
    ensures Serial(db0, jobs + [job]) == Execute(Serial(db0, jobs), job.program, job.quote).tables
  {
    var all := jobs + [job];
    assert all[..|jobs|] == jobs;
    assert forall i :: 0 <= i < |jobs| ==> all[..i] == jobs[..i] && all[i] == jobs[i];
  }

  lemma FinishIsSerial(db0: Tables, s: System, id: nat)
    requires Steady(s) && Faithful(db0, s) && Enabled(s, Finish(id))
    ensures Faithful(db0, Do(s, Finish(id)))
  {
    var tx := s.open[id];
    CurrentBacks(s.db, tx);
    CommitIsCovered(s.db, tx);
    CommitIsSerial(s.db, tx.program, tx.log);
    CommitChanges(s.db, tx.program, tx.log, tx.held);
    ExecuteKeepsSound(s.db, tx.program, QuoteOf(tx.program, tx.log));
    HistoryGrows(db0, s.history, Job(tx.program, QuoteOf(tx.program, tx.log), NextStmt(tx).reply));
  }

  lemma EventKeeps(db0: Tables, s: System, ev: Event)
    requires Steady(s) && Faithful(db0, s) && Enabled(s, ev)
    ensures Steady(Do(s, ev)) && Faithful(db0, Do(s, ev))
  {
    match ev
    case Begin(id, p) =>
    case Step(id, a) => StepKeepsSteady(s, id, a);
    case Finish(id) => FinishKeepsSteady(s, id); FinishIsSerial(db0, s, id);
    case Rollback(id) =>
  }

  lemma {:induction false} RunKeeps(db0: Tables, s: System, run: seq<Event>)
    requires Steady(s) && Faithful(db0, s) && Legal(s, run)
    ensures Steady(After(s, run)) && Faithful(db0, After(s, run))
    decreases |run|
  {
    if |run| > 0 {
      EventKeeps(db0, s, run[0]);
      RunKeeps(db0, Do(s, run[0]), run[1..]);
    }
  }

  /**
   * Serializability: whatever the interleaving, the committed tables and every reply are those of
   * the committed operations run one after the other, in commit order, and they are sound.
   */
  lemma {:induction false} EveryRunIsSerial(db0: Tables, run: seq<Event>)
    requires Sound(db0) && Legal(Start(db0), run)
    ensures var s := After(Start(db0), run);
      s.db == Serial(db0, s.history) && RepliesMatch(db0, s.history) && AllTookEffect(db0, s.history) && Sound(s.db)
  {
    RunKeeps(db0, Start(db0), run);
  }
}
