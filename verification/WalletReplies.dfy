/**
 * What a transaction that commits nothing tells its caller. A replay or a refusal is the answer that
 * the operation gives alone at that moment, unless the transaction looked for an earlier commit of the
 * same request, found none, and was overtaken by one.
 */
module WalletReplies {
  import opened Base
  import opened WalletTables
  import opened WalletSpec
  import opened WalletSoundness
  import opened WalletTransactions
  import opened WalletInterleaving

  /** What the database answers to a statement that waits for nobody. */
  function Told(db: Tables, stmt: Stmt): Option<Answer> {
    match stmt
    case Lock(r) => Some(if CellOf(db, r).None? then Missing else Locked(CellOf(db, r).value))
    case Reserve(r) => Some(if CellOf(db, r).Some? then Duplicate else Reserved)
    case Read(q) => Some(Data(Ask(db, q)))
    case Commit(_, _) => None
    case Quit(_) => None
  }

  /** The answer is the one that the tables give now. A price may be outdated: the buyer pays what was read. */
  predicate Holds(db: Tables, stmt: Stmt, a: Answer) {
    Told(db, stmt) == Some(a) || (stmt.Read? && stmt.query.PriceOf? && a.Data?)
  }

  /** All answers so far are those that the tables give now. */
  ghost predicate StillTrue(db: Tables, p: Program, log: seq<Answer>) {
    forall i {:trigger log[i]} :: 0 <= i < |log| ==> Holds(db, Next(p, log[..i]), log[i])
  }

  lemma SaysNow(db: Tables, p: Program, log: seq<Answer>, i: nat)
    requires StillTrue(db, p, log) && i < |log|
    ensures Holds(db, Next(p, log[..i]), log[i])
  {
  }

  /** A posting whose two statements were answered in its favour goes through. */
  lemma {:induction false} PostsNow(
    db: Tables, log: seq<Answer>, k: nat, user: Uuid, source: string, kind: Kind, direction: Direction, amount: I64)
    requires PostDone(log, k, source, direction, amount) && log[k] == Told(db, Lock(UserRow(user))).value
    requires Find(db.ledger, source).None?
    ensures PostInTx(db, user, source, kind, direction, amount).Posted?
  {
  }

  /** And one that stops at one of them is refused. */
  lemma PostStops(
    db: Tables, log: seq<Answer>, k: nat, user: Uuid, source: string, kind: Kind, direction: Direction, amount: I64)
    requires k <= |log| <= k + 2
    requires |log| > k ==> log[k] == Told(db, Lock(UserRow(user))).value
    requires |log| > k + 1 ==> log[k + 1] == Told(db, Reserve(SourceRow(source))).value
    requires PostStmt(log, k, user, source, direction, amount).Quit? && !PostDone(log, k, source, direction, amount)
    ensures var posting := PostInTx(db, user, source, kind, direction, amount);
      posting.Refused? && PostStmt(log, k, user, source, direction, amount).reply == Err(posting.error)
  {
  }

  lemma PostQuits(db: Tables, p: Program, log: seq<Answer>)
    requires p.Post? && StillTrue(db, p, log) && Next(p, log).Quit?
    ensures Effect(db, Next(p, log).reply) == Execute(db, p, None)
  {
    if |log| > 0 { SaysNow(db, p, log, 0); }
    if |log| > 1 { SaysNow(db, p, log, 1); }
  }

  lemma CreditOnceQuits(db: Tables, p: Program, log: seq<Answer>)
    requires p.CreditOnce? && StillTrue(db, p, log) && Next(p, log).Quit?
    ensures Effect(db, Next(p, log).reply) == Execute(db, p, None)
  {
    if |log| > 0 { SaysNow(db, p, log, 0); }
    if |log| > 1 { SaysNow(db, p, log, 1); }
    if |log| > 2 { SaysNow(db, p, log, 2); }
    if |log| > 3 { SaysNow(db, p, log, 3); }
  }

  /** A checkout that got past its order row and its price. */
  lemma CheckoutGotPast(db: Tables, p: Program, log: seq<Answer>)
    requires p.Checkout? && StillTrue(db, p, log) && |log| > 2
    ensures p.key != "" && p.digest != "" && p.product != "" && p.key !in db.orders
    ensures log[0] == Missing && log[1].Data? && log[1].number.Some? && log[1].number.value > 0
    ensures log[2] == Told(db, Lock(UserRow(p.user))).value
  {
    SaysNow(db, p, log, 0);
    SaysNow(db, p, log, 1);
    SaysNow(db, p, log, 2);
  }

  lemma LateCheckoutQuits(db: Tables, p: Program, log: seq<Answer>)
    requires p.Checkout? && StillTrue(db, p, log) && Next(p, log).Quit? && |log| > 2
    ensures Effect(db, Next(p, log).reply) == Execute(db, p, QuoteOf(p, log))
  {
    CheckoutGotPast(db, p, log);
    if |log| > 3 { SaysNow(db, p, log, 3); }
    if |log| > 4 { SaysNow(db, p, log, 4); }
    if |log| > 5 { SaysNow(db, p, log, 5); }
  }

  lemma CheckoutQuits(db: Tables, p: Program, log: seq<Answer>)
    requires p.Checkout? && StillTrue(db, p, log) && Next(p, log).Quit? && Sound(db)
    ensures Effect(db, Next(p, log).reply) == Execute(db, p, QuoteOf(p, log))
  {
    if |log| > 2 {
      LateCheckoutQuits(db, p, log);
    } else {
      if p.key in db.orders { assert OrderSound(p.key, db.orders[p.key], db.balances, db.ledger, db.outbox); }
      if |log| > 0 { SaysNow(db, p, log, 0); }
      if |log| > 1 { SaysNow(db, p, log, 1); }
    }
  }

  lemma ApproveGotPast(db: Tables, p: Program, log: seq<Answer>)
    requires p.ApproveDeposit? && StillTrue(db, p, log) && |log| > 1
    ensures p.deposit in db.deposits && log[0] == Locked(DepositCell(db.deposits[p.deposit]))
    ensures var d := db.deposits[p.deposit];
      d.status == Awaiting && (p.owner || d.assignee.None? || d.assignee.value == p.actor)
  {
    SaysNow(db, p, log, 0);
    SaysNow(db, p, log, 1);
  }

  lemma ApprovePosted(db: Tables, p: Program, log: seq<Answer>)
    requires p.ApproveDeposit? && StillTrue(db, p, log) && |log| > 3
    requires p.deposit in db.deposits && log[0] == Locked(DepositCell(db.deposits[p.deposit]))
    ensures var d := db.deposits[p.deposit];
      && PostDone(log, 1, ApprovalSource(p.deposit), Credit, Wrap64(d.amount - d.fee))
      && log[1] == Told(db, Lock(UserRow(d.user))).value && Find(db.ledger, ApprovalSource(p.deposit)).None?
      && log[3] == Told(db, Reserve(AuditRow(ApprovalSource(p.deposit)))).value
  {
    SaysNow(db, p, log, 1);
    SaysNow(db, p, log, 2);
    SaysNow(db, p, log, 3);
  }

  lemma ApproveStarts(db: Tables, p: Program, log: seq<Answer>)
    requires p.ApproveDeposit? && StillTrue(db, p, log) && 1 < |log| <= 3
    requires p.deposit in db.deposits && log[0] == Locked(DepositCell(db.deposits[p.deposit]))
    ensures log[1] == Told(db, Lock(UserRow(db.deposits[p.deposit].user))).value
    ensures |log| > 2 ==> log[2] == Told(db, Reserve(SourceRow(ApprovalSource(p.deposit)))).value
  {
    SaysNow(db, p, log, 1);
    if |log| > 2 { SaysNow(db, p, log, 2); }
  }

  lemma PostingApproveQuits(db: Tables, p: Program, log: seq<Answer>)
    requires p.ApproveDeposit? && StillTrue(db, p, log) && Next(p, log).Quit? && 1 < |log| <= 3
    ensures Effect(db, Next(p, log).reply) == Execute(db, p, None)
  {
    ApproveGotPast(db, p, log);
    ApproveStarts(db, p, log);
    var d := db.deposits[p.deposit];
    PostStops(db, log, 1, d.user, ApprovalSource(p.deposit), CreditKind, Credit, Wrap64(d.amount - d.fee));
  }

  lemma AuditingApproveQuits(db: Tables, p: Program, log: seq<Answer>)
    requires p.ApproveDeposit? && StillTrue(db, p, log) && Next(p, log).Quit? && |log| > 3
    ensures Effect(db, Next(p, log).reply) == Execute(db, p, None)
  {
    ApproveGotPast(db, p, log);
    ApprovePosted(db, p, log);
    var d := db.deposits[p.deposit];
    PostsNow(db, log, 1, d.user, ApprovalSource(p.deposit), CreditKind, Credit, Wrap64(d.amount - d.fee));
    if |log| > 4 { SaysNow(db, p, log, 4); }
  }

  lemma ApproveQuits(db: Tables, p: Program, log: seq<Answer>)
    requires p.ApproveDeposit? && StillTrue(db, p, log) && Next(p, log).Quit?
    ensures Effect(db, Next(p, log).reply) == Execute(db, p, None)
  {
    if |log| > 3 { AuditingApproveQuits(db, p, log); }
    else if |log| > 1 { PostingApproveQuits(db, p, log); }
    else if |log| > 0 { SaysNow(db, p, log, 0); }
  }

  /** A refund that got past the replay check, its deposit and the approval's amount. */
  lemma RefundGotPast(db: Tables, p: Program, log: seq<Answer>)
    requires p.RefundDeposit? && StillTrue(db, p, log) && |log| > 3
    ensures p.key != "" && log[0] == Data(None) && Ask(db, RefundReplay(p.deposit)).None?
    ensures p.deposit in db.deposits && log[1] == Locked(DepositCell(db.deposits[p.deposit]))
    ensures db.deposits[p.deposit].status == Approved
    ensures log[2] == Data(Ask(db, AmountOf(ApprovalSource(p.deposit)))) && log[2].number.Some?
    ensures log[3] == Told(db, Lock(UserRow(db.deposits[p.deposit].user))).value
  {
    SaysNow(db, p, log, 0);
    SaysNow(db, p, log, 1);
    SaysNow(db, p, log, 2);
    SaysNow(db, p, log, 3);
  }

  lemma RefundPosted(db: Tables, p: Program, log: seq<Answer>)
    requires p.RefundDeposit? && StillTrue(db, p, log) && |log| > 5
    ensures p.deposit in db.deposits && log[2].Data? && log[2].number.Some?
    ensures PostDone(log, 3, p.key, Debit, log[2].number.value) && Find(db.ledger, p.key).None?
    ensures log[5] == Told(db, Reserve(AuditRow(p.key))).value
  {
    RefundGotPast(db, p, log);
    SaysNow(db, p, log, 4);
    SaysNow(db, p, log, 5);
  }

  lemma RefundReserves(db: Tables, p: Program, log: seq<Answer>)
    requires p.RefundDeposit? && StillTrue(db, p, log) && |log| == 5
    ensures log[4] == Told(db, Reserve(SourceRow(p.key))).value
  {
    SaysNow(db, p, log, 4);
  }

  lemma PostingRefundQuits(db: Tables, p: Program, log: seq<Answer>)
    requires p.RefundDeposit? && StillTrue(db, p, log) && Next(p, log).Quit? && 3 < |log| <= 5
    ensures Effect(db, Next(p, log).reply) == Execute(db, p, None)
  {
    RefundGotPast(db, p, log);
    if |log| == 5 { RefundReserves(db, p, log); }
    PostStops(db, log, 3, db.deposits[p.deposit].user, p.key, DebitKind, Debit, log[2].number.value);
  }

  lemma AuditingRefundQuits(db: Tables, p: Program, log: seq<Answer>)
    requires p.RefundDeposit? && StillTrue(db, p, log) && Next(p, log).Quit? && |log| > 5
    ensures Effect(db, Next(p, log).reply) == Execute(db, p, None)
  {
    RefundGotPast(db, p, log);
    RefundPosted(db, p, log);
    PostsNow(db, log, 3, db.deposits[p.deposit].user, p.key, DebitKind, Debit, log[2].number.value);
    if |log| > 6 { SaysNow(db, p, log, 6); }
  }

  lemma RefundQuits(db: Tables, p: Program, log: seq<Answer>)
    requires p.RefundDeposit? && StillTrue(db, p, log) && Next(p, log).Quit?
    ensures Effect(db, Next(p, log).reply) == Execute(db, p, None)
  {
    if |log| > 5 {
      AuditingRefundQuits(db, p, log);
    } else if |log| > 3 {
      PostingRefundQuits(db, p, log);
    } else {
      if |log| > 0 { SaysNow(db, p, log, 0); }
      if |log| > 1 { SaysNow(db, p, log, 1); }
      if |log| > 2 { SaysNow(db, p, log, 2); }
    }
  }

  lemma AdjustPosted(db: Tables, p: Program, log: seq<Answer>)
    requires p.AdjustBalance? && StillTrue(db, p, log) && |log| > 3
    ensures p.key != "" && p.amount != 0 && Ask(db, PostedFor(p.key, p.user)).None? && log[0] == Data(None)
    ensures PostDone(log, 1, p.key, if p.amount > 0 then Credit else Debit, Abs64(p.amount))
    ensures Find(db.ledger, p.key).None?
    ensures log[1] == Told(db, Lock(UserRow(p.user))).value && log[3] == Told(db, Reserve(AuditRow(p.key))).value
  {
    SaysNow(db, p, log, 0);
    SaysNow(db, p, log, 1);
    SaysNow(db, p, log, 2);
    SaysNow(db, p, log, 3);
  }

  lemma AdjustStarts(db: Tables, p: Program, log: seq<Answer>)
    requires p.AdjustBalance? && StillTrue(db, p, log) && 1 < |log| <= 3
    ensures p.key != "" && p.amount != 0 && Ask(db, PostedFor(p.key, p.user)).None? && log[0] == Data(None)
    ensures log[1] == Told(db, Lock(UserRow(p.user))).value
    ensures |log| > 2 ==> log[2] == Told(db, Reserve(SourceRow(p.key))).value
  {
    SaysNow(db, p, log, 0);
    SaysNow(db, p, log, 1);
    if |log| > 2 { SaysNow(db, p, log, 2); }
  }

  lemma PostingAdjustQuits(db: Tables, p: Program, log: seq<Answer>)
    requires p.AdjustBalance? && StillTrue(db, p, log) && Next(p, log).Quit? && |log| <= 3
    ensures Effect(db, Next(p, log).reply) == Execute(db, p, None)
  {
    if |log| > 1 {
      AdjustStarts(db, p, log);
      PostStops(db, log, 1, p.user, p.key, AdjustmentKind, if p.amount > 0 then Credit else Debit, Abs64(p.amount));
    } else if |log| > 0 {
      SaysNow(db, p, log, 0);
    }
  }

  lemma AuditingAdjustQuits(db: Tables, p: Program, log: seq<Answer>)
    requires p.AdjustBalance? && StillTrue(db, p, log) && Next(p, log).Quit? && |log| > 3
    ensures Effect(db, Next(p, log).reply) == Execute(db, p, None)
  {
    AdjustPosted(db, p, log);
    PostsNow(db, log, 1, p.user, p.key, AdjustmentKind, if p.amount > 0 then Credit else Debit, Abs64(p.amount));
    if |log| > 4 { SaysNow(db, p, log, 4); }
  }

  lemma AdjustQuits(db: Tables, p: Program, log: seq<Answer>)
    requires p.AdjustBalance? && StillTrue(db, p, log) && Next(p, log).Quit?
    ensures Effect(db, Next(p, log).reply) == Execute(db, p, None)
  {
    if |log| > 3 { AuditingAdjustQuits(db, p, log); } else { PostingAdjustQuits(db, p, log); }
  }

  lemma GuestGotPast(db: Tables, p: Program, log: seq<Answer>)
    requires p.GuestCheckout? && StillTrue(db, p, log) && |log| > 2
    ensures p.key != "" && p.digest != "" && p.invoice != "" && p.key !in db.guests && log[0] == Missing
    ensures p.product in db.products && log[1] == Locked(ProductCell(db.products[p.product]))
    ensures OnSale(db.products[p.product], p.at)
    ensures log[2] == Told(db, Reserve(InvoiceRow(p.invoice))).value
  {
    SaysNow(db, p, log, 0);
    SaysNow(db, p, log, 1);
    SaysNow(db, p, log, 2);
  }

  lemma LateGuestQuits(db: Tables, p: Program, log: seq<Answer>)
    requires p.GuestCheckout? && StillTrue(db, p, log) && Next(p, log).Quit? && |log| > 2
    ensures Effect(db, Next(p, log).reply) == Execute(db, p, None)
  {
    GuestGotPast(db, p, log);
    if |log| > 3 { SaysNow(db, p, log, 3); }
    if |log| > 4 { SaysNow(db, p, log, 4); }
  }

  lemma GuestQuits(db: Tables, p: Program, log: seq<Answer>)
    requires p.GuestCheckout? && StillTrue(db, p, log) && Next(p, log).Quit?
    ensures Effect(db, Next(p, log).reply) == Execute(db, p, None)
  {
    if |log| > 2 {
      LateGuestQuits(db, p, log);
    } else {
      if |log| > 0 { SaysNow(db, p, log, 0); }
      if |log| > 1 { SaysNow(db, p, log, 1); }
    }
  }

  lemma ShortQuits(db: Tables, p: Program, log: seq<Answer>)
    requires p.Enqueue? || p.ClaimProvider? || p.MarkAmbiguous? || p.ReconcileProvider? || p.Reprice?
    requires StillTrue(db, p, log) && Next(p, log).Quit?
    ensures Effect(db, Next(p, log).reply) == Execute(db, p, None)
  {
    if |log| > 0 { SaysNow(db, p, log, 0); }
  }

  /**
   * A transaction that ends by quitting tells its caller what the operation tells alone at that moment,
   * and alone it would change nothing either, if what it was told is still true.
   */
  lemma QuitIsSerial(db: Tables, p: Program, log: seq<Answer>)
    requires Sound(db) && StillTrue(db, p, log) && Next(p, log).Quit?
    ensures Effect(db, Next(p, log).reply) == Execute(db, p, QuoteOf(p, log))
  {
    match p
    case Post(_, _, _, _, _, _) => PostQuits(db, p, log);
    case CreditOnce(_, _, _, _) => CreditOnceQuits(db, p, log);
    case Checkout(_, _, _, _, _, _) => CheckoutQuits(db, p, log);
    case ApproveDeposit(_, _, _) => ApproveQuits(db, p, log);
    case RefundDeposit(_, _, _) => RefundQuits(db, p, log);
    case AdjustBalance(_, _, _, _) => AdjustQuits(db, p, log);
    case GuestCheckout(_, _, _, _, _) => GuestQuits(db, p, log);
    case _ => ShortQuits(db, p, log);
  }

  // ----- in a run -----

  /** An answer after which, as the second or a later one, a transaction goes on although it holds nothing by it. */
  predicate Lax(stmt: Stmt, a: Answer) {
    stmt.Read? && (stmt.query.PriceOf? || (stmt.query.AmountOf? && a.Data? && a.number.Some?))
  }

  predicate Fits(stmt: Stmt, a: Answer) {
    match stmt
    case Lock(_) => a.Missing? || a.Locked?
    case Reserve(_) => a.Duplicate? || a.Reserved?
    case Read(_) => a.Data?
    case Commit(_, _) => false
    case Quit(_) => false
  }

  predicate Ends(stmt: Stmt) {
    stmt.Commit? || stmt.Quit?
  }

  /** The last answer of a log is its second or a later one, and the transaction goes on. */
  predicate Onward(p: Program, log: seq<Answer>) {
    |log| >= 2 && Fits(Next(p, log[..|log| - 1]), log[|log| - 1]) && !Ends(Next(p, log))
  }

  predicate Backs(p: Program, log: seq<Answer>)
    requires |log| >= 2
  {
    var a := log[|log| - 1];
    a.Locked? || a.Reserved? || Lax(Next(p, log[..|log| - 1]), a)
  }

  lemma PostGoesOn(p: Program, log: seq<Answer>)
    requires (p.Post? || p.CreditOnce?) && Onward(p, log)
    ensures Backs(p, log)
  {
  }

  lemma CheckoutGoesOn(p: Program, log: seq<Answer>)
    requires p.Checkout? && Onward(p, log)
    ensures Backs(p, log)
  {
  }

  lemma ApproveGoesOn(p: Program, log: seq<Answer>)
    requires p.ApproveDeposit? && Onward(p, log)
    ensures Backs(p, log)
  {
  }

  lemma RefundGoesOn(p: Program, log: seq<Answer>)
    requires p.RefundDeposit? && Onward(p, log)
    ensures Backs(p, log)
  {
  }

  lemma AdjustGoesOn(p: Program, log: seq<Answer>)
    requires p.AdjustBalance? && Onward(p, log)
    ensures Backs(p, log)
  {
  }

  lemma GuestGoesOn(p: Program, log: seq<Answer>)
    requires p.GuestCheckout? && Onward(p, log)
    ensures Backs(p, log)
  {
  }

  /** Whoever goes on after the first answer holds what the answer was about, or has read what lasts. */
  lemma GoesOn(p: Program, log: seq<Answer>)
    requires Onward(p, log)
    ensures Backs(p, log)
  {
    match p
    case Post(_, _, _, _, _, _) => PostGoesOn(p, log);
    case CreditOnce(_, _, _, _) => PostGoesOn(p, log);
    case Checkout(_, _, _, _, _, _) => CheckoutGoesOn(p, log);
    case ApproveDeposit(_, _, _) => ApproveGoesOn(p, log);
    case RefundDeposit(_, _, _) => RefundGoesOn(p, log);
    case AdjustBalance(_, _, _, _) => AdjustGoesOn(p, log);
    case GuestCheckout(_, _, _, _, _) => GuestGoesOn(p, log);
    case _ =>
  }

  /** The answer just given is that of the tables. */
  ghost predicate LastHolds(db: Tables, tx: Tx) {
    tx.log != [] ==> Holds(db, Next(tx.program, tx.log[..|tx.log| - 1]), tx.log[|tx.log| - 1])
  }

  lemma HeldHolds(db: Tables, stmt: Stmt, a: Answer, held: map<Row, Option<Cell>>)
    requires Recorded(stmt, a, held) && (a.Locked? || a.Reserved?)
    requires forall r :: r in held ==> CellOf(db, r) == held[r]
    ensures Holds(db, stmt, a)
  {
  }

  lemma LaxHolds(db: Tables, stmt: Stmt, a: Answer)
    requires Lax(stmt, a) && a.Data? && Lasting(db, stmt, a)
    ensures Holds(db, stmt, a)
  {
  }

  /** An answer that a later one followed, other than the first. */
  lemma MiddleAnswerBacks(tx: Tx, i: nat)
    requires Logged(tx) && 1 <= i < |tx.log| - 1
    ensures tx.log[i].Locked? || tx.log[i].Reserved? || Lax(Next(tx.program, tx.log[..i]), tx.log[i])
  {
    var prefix := tx.log[..i + 1];
    assert prefix[..i] == tx.log[..i] && prefix[i] == tx.log[i];
    OneAnswer(tx, i);
    OneAnswer(tx, i + 1);
    GoesOn(tx.program, prefix);
  }

  lemma LaterAnswersHold(db: Tables, tx: Tx, i: nat)
    requires Logged(tx) && Current(db, tx) && LastHolds(db, tx) && 1 <= i < |tx.log|
    ensures Holds(db, Next(tx.program, tx.log[..i]), tx.log[i])
  {
    if i < |tx.log| - 1 {
      MiddleAnswerBacks(tx, i);
      OneAnswer(tx, i);
      var stmt, a := Next(tx.program, tx.log[..i]), tx.log[i];
      if a.Locked? || a.Reserved? { HeldHolds(db, stmt, a, tx.held); } else { LaxHolds(db, stmt, a); }
    }
  }

  /** What a buyer had read and locked does not suffice. */
  predicate Short(log: seq<Answer>) {
    && |log| == 3 && log[1].Data? && log[1].number.Some? && log[2].Locked? && log[2].cell.BalanceCell?
    && log[2].cell.balance < log[1].number.value
  }

  /**
   * The first question of the transaction was for an earlier commit of the same request. There was none,
   * now there is one, and to repeat the request would be answered differently from how this ends.
   */
  predicate Overtaken(db: Tables, p: Program, log: seq<Answer>) {
    && log != []
    && match p
       case CreditOnce(_, key, digest, _) => log[0] == Missing && key in db.claims && db.claims[key].digest == digest
       case Checkout(_, key, digest, _, _, _) =>
         log[0] == Missing && key in db.orders && (db.orders[key].digest == digest || Short(log))
       case GuestCheckout(key, digest, _, _, _) =>
         log[0] == Missing && key in db.guests && db.guests[key].digest == digest
       case AdjustBalance(_, user, key, _) => log[0] == Data(None) && Ask(db, PostedFor(key, user)).Some?
       case RefundDeposit(_, deposit, _) => log[0] == Data(None) && Ask(db, RefundReplay(deposit)).Some?
       case _ => false
  }

  ghost predicate AnswersExactly(db: Tables, p: Program, log: seq<Answer>)
    requires Next(p, log).Quit?
  {
    && (Next(p, log).reply == Execute(db, p, QuoteOf(p, log)).reply <==> !Overtaken(db, p, log))
    && Execute(db, p, QuoteOf(p, log)).tables == db
  }

  lemma CreditOvertaken(db: Tables, tx: Tx)
    requires Sound(db) && Logged(tx) && Current(db, tx) && NextStmt(tx).Quit? && tx.program.CreditOnce?
    requires |tx.log| >= 2 && tx.log[0] == Missing && tx.program.key in db.claims
    ensures AnswersExactly(db, tx.program, tx.log)
  {
    OneAnswer(tx, 1);
  }

  /** The order that overtook a checkout took its source and its key, so the checkout stops before its inserts. */
  lemma OvertakenCheckoutStops(db: Tables, tx: Tx)
    requires Sound(db) && Logged(tx) && Current(db, tx) && NextStmt(tx).Quit? && tx.program.Checkout?
    requires |tx.log| >= 2 && tx.log[0] == Missing && tx.program.key in db.orders
    ensures NextStmt(tx).reply == Err(if Short(tx.log) then Insufficient else Conflict)
    ensures tx.program.key != "" && tx.program.digest != "" && tx.program.product != ""
  {
    var key := tx.program.key;
    assert OrderSound(key, db.orders[key], db.balances, db.ledger, db.outbox);
    OneAnswer(tx, 1);
    if |tx.log| > 2 { OneAnswer(tx, 2); }
    if |tx.log| > 3 { OneAnswer(tx, 3); }
  }

  lemma CheckoutOvertaken(db: Tables, tx: Tx)
    requires Sound(db) && Logged(tx) && Current(db, tx) && NextStmt(tx).Quit? && tx.program.Checkout?
    requires |tx.log| >= 2 && tx.log[0] == Missing && tx.program.key in db.orders
    ensures AnswersExactly(db, tx.program, tx.log)
  {
    var key := tx.program.key;
    assert OrderSound(key, db.orders[key], db.balances, db.ledger, db.outbox);
    OvertakenCheckoutStops(db, tx);
  }

  lemma GuestOvertaken(db: Tables, tx: Tx)
    requires Logged(tx) && Current(db, tx) && NextStmt(tx).Quit? && tx.program.GuestCheckout?
    requires |tx.log| >= 2 && tx.log[0] == Missing && tx.program.key in db.guests
    ensures AnswersExactly(db, tx.program, tx.log)
  {
  }

  lemma AdjustOvertaken(db: Tables, tx: Tx)
    requires Logged(tx) && NextStmt(tx).Quit? && tx.program.AdjustBalance?
    requires |tx.log| >= 2 && tx.log[0] == Data(None) && Ask(db, PostedFor(tx.program.key, tx.program.user)).Some?
    ensures AnswersExactly(db, tx.program, tx.log)
  {
    assert tx.log[..0] == [];
    OneAnswer(tx, 0);
  }

  lemma RefundOvertaken(db: Tables, tx: Tx)
    requires Logged(tx) && NextStmt(tx).Quit? && tx.program.RefundDeposit?
    requires |tx.log| >= 2 && tx.log[0] == Data(None) && Ask(db, RefundReplay(tx.program.deposit)).Some?
    ensures AnswersExactly(db, tx.program, tx.log)
  {
    assert tx.log[..0] == [];
    OneAnswer(tx, 0);
  }

  /** Only a question for an earlier commit goes unanswered and is not the last. */
  lemma WhatIsOvertaken(db: Tables, tx: Tx)
    requires Logged(tx) && Current(db, tx) && |tx.log| >= 2 && !Holds(db, Next(tx.program, tx.log[..0]), tx.log[0])
    ensures var p, log := tx.program, tx.log;
      || (p.CreditOnce? && log[0] == Missing && p.key in db.claims)
      || (p.Checkout? && log[0] == Missing && p.key in db.orders)
      || (p.GuestCheckout? && log[0] == Missing && p.key in db.guests)
      || (p.AdjustBalance? && log[0] == Data(None) && Ask(db, PostedFor(p.key, p.user)).Some?)
      || (p.RefundDeposit? && log[0] == Data(None) && Ask(db, RefundReplay(p.deposit)).Some?)
  {
    assert tx.log[..0] == [] && tx.log[..1] == [tx.log[0]];
    OneAnswer(tx, 0);
    OneAnswer(tx, 1);
  }

  lemma OvertakenAnswers(db: Tables, tx: Tx)
    requires Sound(db) && Logged(tx) && Current(db, tx) && NextStmt(tx).Quit?
    requires |tx.log| >= 2 && !Holds(db, Next(tx.program, tx.log[..0]), tx.log[0])
    ensures AnswersExactly(db, tx.program, tx.log)
  {
    WhatIsOvertaken(db, tx);
    match tx.program
    case CreditOnce(_, _, _, _) => CreditOvertaken(db, tx);
    case Checkout(_, _, _, _, _, _) => CheckoutOvertaken(db, tx);
    case GuestCheckout(_, _, _, _, _) => GuestOvertaken(db, tx);
    case AdjustBalance(_, _, _, _) => AdjustOvertaken(db, tx);
    case RefundDeposit(_, _, _) => RefundOvertaken(db, tx);
  }

  lemma NotOvertaken(db: Tables, p: Program, log: seq<Answer>)
    requires log == [] || Holds(db, Next(p, log[..0]), log[0])
    ensures !Overtaken(db, p, log)
  {
    if log != [] { assert log[..0] == []; }
  }

  /** Once its last answer is in, a transaction that quits answers as alone exactly when it was not overtaken. */
  lemma QuitAnswersExactly(db: Tables, tx: Tx)
    requires Sound(db) && Logged(tx) && Current(db, tx) && LastHolds(db, tx) && NextStmt(tx).Quit?
    ensures AnswersExactly(db, tx.program, tx.log)
  {
    var p, log := tx.program, tx.log;
    if log == [] || Holds(db, Next(p, log[..0]), log[0]) {
      NotOvertaken(db, p, log);
      forall i | 0 <= i < |log| ensures Holds(db, Next(p, log[..i]), log[i]) {
        if i > 0 { LaterAnswersHold(db, tx, i); }
      }
      QuitIsSerial(db, p, log);
    } else {
      OvertakenAnswers(db, tx);
    }
  }

  /**
   * In every interleaving: the answer that ends a transaction without a commit comes, and its reply is
   * the one of its operation alone at that moment if and only if it was not overtaken. Alone it would
   * change nothing either.
   */
  lemma {:induction false} QuittersAnswerExactly(db0: Tables, run: seq<Event>, id: nat, a: Answer)
    requires Sound(db0) && Legal(Start(db0), run) && Enabled(After(Start(db0), run), Step(id, a))
    requires NextStmt(Advance(After(Start(db0), run).open[id], a)).Quit?
    ensures var s := After(Start(db0), run); var tx := Advance(s.open[id], a);
      && (NextStmt(tx).reply == Execute(s.db, tx.program, QuoteOf(tx.program, tx.log)).reply <==>
            !Overtaken(s.db, tx.program, tx.log))
      && Execute(s.db, tx.program, QuoteOf(tx.program, tx.log)).tables == s.db
  {
    RunKeeps(db0, Start(db0), run);
    var s := After(Start(db0), run);
    var tx := s.open[id];
    AdvanceKeeps(s, id, a);
    assert Advance(tx, a).log[..|tx.log|] == tx.log;
    QuitAnswersExactly(s.db, Advance(tx, a));
  }

  /** An operation refused without a question to the tables is refused alone, too. */
  lemma RefusedAtOnce(db: Tables, p: Program)
    requires Sound(db) && Next(p, []).Quit?
    ensures Effect(db, Next(p, []).reply) == Execute(db, p, None)
  {
    QuitIsSerial(db, p, []);
  }

  // ----- the idempotent credit at any later moment -----

  lemma PostingKeepsUsers(
    t: Tables, user: Uuid, source: string, kind: Kind, direction: Direction, amount: I64)
    requires PostInTx(t, user, source, kind, direction, amount).Posted?
    ensures PostInTx(t, user, source, kind, direction, amount).tables.balances.Keys == t.balances.Keys
  {
  }

  lemma PostKeepsUsers(t: Tables, p: Program)
    requires p.Post?
    ensures Execute(t, p, None).tables.balances.Keys == t.balances.Keys
  {
    if PostInTx(t, p.user, p.source, p.kind, p.direction, p.amount).Posted? {
      PostingKeepsUsers(t, p.user, p.source, p.kind, p.direction, p.amount);
    }
  }

  lemma AdjustKeepsUsers(t: Tables, p: Program)
    requires p.AdjustBalance?
    ensures Execute(t, p, None).tables.balances.Keys == t.balances.Keys
  {
    var direction := if p.amount > 0 then Credit else Debit;
    if PostInTx(t, p.user, p.key, AdjustmentKind, direction, Abs64(p.amount)).Posted? {
      PostingKeepsUsers(t, p.user, p.key, AdjustmentKind, direction, Abs64(p.amount));
    }
  }

  lemma PurchaseKeepsUsers(t: Tables, p: Program, quote: Option<I64>)
    requires p.CreditOnce? || p.Checkout?
    ensures Execute(t, p, quote).tables.balances.Keys == t.balances.Keys
  {
  }

  lemma ApproveKeepsUsers(t: Tables, p: Program)
    requires p.ApproveDeposit?
    ensures Execute(t, p, None).tables.balances.Keys == t.balances.Keys
  {
    var e, a := ApprovalShape(t, p.actor, p.owner, p.deposit);
  }

  lemma RefundKeepsUsers(t: Tables, p: Program)
    requires p.RefundDeposit?
    ensures Execute(t, p, None).tables.balances.Keys == t.balances.Keys
  {
    var e, a := RefundShape(t, p.actor, p.deposit, p.key);
  }

  lemma ExecuteKeepsUsers(t: Tables, p: Program, quote: Option<I64>)
    ensures Execute(t, p, quote).tables.balances.Keys == t.balances.Keys
  {
    match p
    case Post(_, _, _, _, _, _) => PostKeepsUsers(t, p);
    case CreditOnce(_, _, _, _) => PurchaseKeepsUsers(t, p, quote);
    case Checkout(_, _, _, _, _, _) => PurchaseKeepsUsers(t, p, quote);
    case AdjustBalance(_, _, _, _) => AdjustKeepsUsers(t, p);
    case ApproveDeposit(_, _, _) => ApproveKeepsUsers(t, p);
    case RefundDeposit(_, _, _) => RefundKeepsUsers(t, p);
    case _ =>
  }

  /** Claims and sources are taken for good, and an unknown user stays unknown. */
  predicate Final(db: Tables, stmt: Stmt) {
    || (stmt.Reserve? && (stmt.row.ClaimRow? || stmt.row.SourceRow?) && CellOf(db, stmt.row).Some?)
    || (stmt.Lock? && stmt.row.UserRow? && CellOf(db, stmt.row).None?)
  }

  lemma FinalStays(db: Tables, delta: Delta, held: map<Row, Option<Cell>>, stmt: Stmt)
    requires Covered(db, delta, held) && Apply(db, delta).balances.Keys == db.balances.Keys && Final(db, stmt)
    ensures Final(Apply(db, delta), stmt)
  {
    if stmt.Reserve? && stmt.row.SourceRow? { OtherSourcesStay(db.ledger, delta.entries, held, stmt.row.source); }
  }

  /** A credit's later answers that it holds nothing by: each said so for good. */
  ghost predicate CreditTold(db: Tables, tx: Tx) {
    tx.program.CreditOnce? ==>
      forall i {:trigger tx.log[i]} :: 1 <= i < |tx.log| && !tx.log[i].Locked? && !tx.log[i].Reserved? ==>
        Final(db, Next(tx.program, tx.log[..i]))
  }

  ghost predicate CreditsTold(s: System) {
    forall id :: id in s.open ==> CreditTold(s.db, s.open[id])
  }

  lemma AnswerStaysTold(s: System, id: nat, a: Answer)
    requires id in s.open && CreditTold(s.db, s.open[id]) && MayAnswer(s, id, NextStmt(s.open[id]), a)
    ensures CreditTold(s.db, Advance(s.open[id], a))
  {
    var tx, tx' := s.open[id], Advance(s.open[id], a);
    if tx.program.CreditOnce? {
      forall i | 1 <= i < |tx'.log| && !tx'.log[i].Locked? && !tx'.log[i].Reserved?
        ensures Final(s.db, Next(tx.program, tx'.log[..i]))
      {
        if i < |tx.log| {
          assert tx'.log[..i] == tx.log[..i] && tx'.log[i] == tx.log[i];
        } else {
          assert tx'.log[..i] == tx.log && tx'.log[i] == a;
        }
      }
    }
  }

  lemma CommitStaysTold(s: System, id: nat, other: Tx)
    requires Steady(s) && Sound(s.db) && Enabled(s, Finish(id)) && CreditTold(s.db, other)
    ensures CreditTold(Do(s, Finish(id)).db, other)
  {
    var tx := s.open[id];
    var delta := NextStmt(tx).delta;
    CommitIsCovered(s.db, tx);
    CurrentBacks(s.db, tx);
    CommitIsSerial(s.db, tx.program, tx.log);
    ExecuteKeepsUsers(s.db, tx.program, QuoteOf(tx.program, tx.log));
    if other.program.CreditOnce? {
      forall i | 1 <= i < |other.log| && !other.log[i].Locked? && !other.log[i].Reserved?
        ensures Final(Apply(s.db, delta), Next(other.program, other.log[..i]))
      {
        FinalStays(s.db, delta, tx.held, Next(other.program, other.log[..i]));
      }
    }
  }

  lemma EventStaysTold(s: System, ev: Event)
    requires Steady(s) && Sound(s.db) && Enabled(s, ev) && CreditsTold(s)
    ensures CreditsTold(Do(s, ev))
  {
    match ev
    case Begin(id, p) =>
    case Step(id, a) => AnswerStaysTold(s, id, a);
    case Finish(id) =>
      forall o | o in s.open && o != id
        ensures CreditTold(Do(s, ev).db, s.open[o])
      {
        CommitStaysTold(s, id, s.open[o]);
      }
    case Rollback(id) =>
  }

  lemma {:induction false} RunStaysTold(db0: Tables, s: System, run: seq<Event>)
    requires Steady(s) && Faithful(db0, s) && Legal(s, run) && CreditsTold(s)
    ensures Steady(After(s, run)) && Faithful(db0, After(s, run)) && CreditsTold(After(s, run))
    decreases |run|
  {
    if |run| > 0 {
      EventKeeps(db0, s, run[0]);
      EventStaysTold(s, run[0]);
      RunStaysTold(db0, Do(s, run[0]), run[1..]);
    }
  }

  lemma {:induction false} CreditAnswers(db: Tables, tx: Tx)
    requires Sound(db) && Logged(tx) && Current(db, tx) && CreditTold(db, tx)
    requires tx.program.CreditOnce? && NextStmt(tx).Quit?
    ensures AnswersExactly(db, tx.program, tx.log)
  {
    var p, log := tx.program, tx.log;
    if log == [] || Holds(db, Next(p, log[..0]), log[0]) {
      NotOvertaken(db, p, log);
      forall i | 0 <= i < |log| ensures Holds(db, Next(p, log[..i]), log[i]) {
        if i > 0 { CreditHolds(db, tx, i); }
      }
      CreditOnceQuits(db, p, log);
    } else {
      OneAnswer(tx, 0);
      assert log[..0] == [];
      CreditOvertaken(db, tx);
    }
  }

  lemma CreditHolds(db: Tables, tx: Tx, i: nat)
    requires Logged(tx) && Current(db, tx) && CreditTold(db, tx) && tx.program.CreditOnce? && 1 <= i < |tx.log|
    ensures Holds(db, Next(tx.program, tx.log[..i]), tx.log[i])
  {
    OneAnswer(tx, i);
    var stmt, a := Next(tx.program, tx.log[..i]), tx.log[i];
    if a.Locked? || a.Reserved? { HeldHolds(db, stmt, a, tx.held); } else { FinalHolds(db, stmt, a, tx.held); }
  }

  lemma FinalHolds(db: Tables, stmt: Stmt, a: Answer, held: map<Row, Option<Cell>>)
    requires Final(db, stmt) && Recorded(stmt, a, held) && !a.Locked? && !a.Reserved?
    ensures Holds(db, stmt, a)
  {
  }

  /**
   * An idempotent credit that is about to quit, in any state of any interleaving and however long it has
   * waited: its reply is the one of the credit alone at that moment if and only if it was not overtaken,
   * that is, unless it found no claim and the same credit has been committed by somebody else since.
   */
  lemma {:induction false} IdempotentCreditAnswersExactly(db0: Tables, run: seq<Event>, id: nat)
    requires Sound(db0) && Legal(Start(db0), run)
    requires var s := After(Start(db0), run);
      id in s.open && s.open[id].program.CreditOnce? && NextStmt(s.open[id]).Quit?
    ensures var s := After(Start(db0), run); var tx := s.open[id]; var p := tx.program;
      NextStmt(tx).reply == Execute(s.db, p, None).reply <==>
        !(tx.log != [] && tx.log[0] == Missing && p.key in s.db.claims && s.db.claims[p.key].digest == p.digest)
  {
    RunStaysTold(db0, Start(db0), run);
    var s := After(Start(db0), run);
    CreditAnswers(s.db, s.open[id]);
  }

  lemma {:induction false} OneMore(s: System, run: seq<Event>, e: Event)
    requires Legal(s, run) && Enabled(After(s, run), e)
    ensures Legal(s, run + [e]) && After(s, run + [e]) == Do(After(s, run), e)
    decreases |run|
  {
    if |run| == 0 {
      assert run + [e] == [e] && [e][1..] == [];
      assert Legal(Do(s, e), []);
    } else {
      assert (run + [e])[1..] == run[1..] + [e];
      OneMore(Do(s, run[0]), run[1..], e);
    }
  }

  /** Two requests for the same program have got no answer to their first question. */
  lemma BothFindNothing(db: Tables, p: Program, row: Row) returns (run: seq<Event>)
    requires Next(p, []) == Lock(row) && CellOf(db, row).None?
    ensures Legal(Start(db), run)
    ensures var s := After(Start(db), run);
      && s.db == db && s.open.Keys == {0, 1} && s.open[0] == Tx(p, [Missing], map[])
      && s.open[1] == Tx(p, [Missing], map[])
  {
    var s := Start(db);
    run := [];
    OneMore(s, run, Begin(0, p));
    run := run + [Begin(0, p)];
    OneMore(s, run, Begin(1, p));
    run := run + [Begin(1, p)];
    OneMore(s, run, Step(0, Missing));
    run := run + [Step(0, Missing)];
    OneMore(s, run, Step(1, Missing));
    run := run + [Step(1, Missing)];
  }

  /** The first of them puts in its claim and locks its user. */
  lemma FirstHasClaim(db: Tables, p: Program) returns (run: seq<Event>)
    requires p.CreditOnce? && 0 < p.amount && p.key != "" && p.digest != "" && p.key !in db.claims
    requires p.user in db.balances && db.balances[p.user] + p.amount <= I64_MAX && Find(db.ledger, p.key).None?
    ensures Legal(Start(db), run)
    ensures var s := After(Start(db), run);
      && s.db == db && s.open.Keys == {0, 1} && s.open[1] == Tx(p, [Missing], map[]) && s.open[0].program == p
      && s.open[0].log == [Missing, Reserved, Locked(BalanceCell(db.balances[p.user]))]
  {
    var s, balance := Start(db), BalanceCell(db.balances[p.user]);
    run := BothFindNothing(db, p, ClaimRow(p.key));
    OneMore(s, run, Step(0, Reserved));
    run := run + [Step(0, Reserved)];
    OneMore(s, run, Step(0, Locked(balance)));
    run := run + [Step(0, Locked(balance))];
  }

  /** It reserves its source and is about to commit. */
  lemma FirstIsReady(db: Tables, p: Program) returns (run: seq<Event>)
    requires p.CreditOnce? && 0 < p.amount && p.key != "" && p.digest != "" && p.key !in db.claims
    requires p.user in db.balances && db.balances[p.user] + p.amount <= I64_MAX && Find(db.ledger, p.key).None?
    ensures Legal(Start(db), run)
    ensures var s := After(Start(db), run);
      && s.db == db && s.open.Keys == {0, 1} && s.open[1] == Tx(p, [Missing], map[])
      && s.open[0].program == p
      && s.open[0].log == [Missing, Reserved, Locked(BalanceCell(db.balances[p.user])), Reserved]
  {
    run := FirstHasClaim(db, p);
    OneMore(Start(db), run, Step(0, Reserved));
    run := run + [Step(0, Reserved)];
  }

  lemma FirstCommits(db: Tables, p: Program) returns (run: seq<Event>)
    requires p.CreditOnce? && 0 < p.amount && p.key != "" && p.digest != "" && p.key !in db.claims
    requires p.user in db.balances && db.balances[p.user] + p.amount <= I64_MAX && Find(db.ledger, p.key).None?
    ensures Legal(Start(db), run)
    ensures var s := After(Start(db), run);
      && s.open.Keys == {1} && s.open[1] == Tx(p, [Missing], map[]) && s.db == Execute(db, p, None).tables
      && p.key in s.db.claims && s.db.claims[p.key] == Claim(p.digest, Some(db.balances[p.user] + p.amount))
  {
    run := FirstIsReady(db, p);
    CommittedCredit(db, p, After(Start(db), run).open[0].log);
    OneMore(Start(db), run, Finish(0));
    run := run + [Finish(0)];
  }

  lemma CommittedCredit(db: Tables, p: Program, log: seq<Answer>)
    requires p.CreditOnce? && 0 < p.amount && p.key != "" && p.digest != "" && p.key !in db.claims
    requires p.user in db.balances && db.balances[p.user] + p.amount <= I64_MAX && Find(db.ledger, p.key).None?
    requires log == [Missing, Reserved, Locked(BalanceCell(db.balances[p.user])), Reserved]
    ensures Next(p, log).Commit? && Apply(db, Next(p, log).delta) == Execute(db, p, None).tables
    ensures var t := Execute(db, p, None).tables;
      p.key in t.claims && t.claims[p.key] == Claim(p.digest, Some(db.balances[p.user] + p.amount))
  {
    assert log[..0] == [] && log[..1] == [Missing] && log[..2] == [Missing, Reserved];
    assert log[..3] == [Missing, Reserved, Locked(BalanceCell(db.balances[p.user]))];
    assert AllBacked(db, p, log);
    CreditOnceCommits(db, p, log);
  }

  /**
   * It happens: of two requests for the same credit that both find no claim, the second is refused
   * with a conflict, although at that moment, alone, it would be answered with the balance.
   */
  lemma RacingCreditIsRefused(db: Tables, p: Program) returns (run: seq<Event>)
    requires p.CreditOnce? && 0 < p.amount && p.key != "" && p.digest != "" && p.key !in db.claims
    requires p.user in db.balances && db.balances[p.user] + p.amount <= I64_MAX && Find(db.ledger, p.key).None?
    ensures Legal(Start(db), run)
    ensures var s := After(Start(db), run);
      && 1 in s.open && s.open[1].program == p && NextStmt(s.open[1]) == Quit(Err(Conflict))
      && Execute(s.db, p, None) == Effect(s.db, Value(db.balances[p.user] + p.amount))
  {
    run := FirstCommits(db, p);
    OneMore(Start(db), run, Step(1, Duplicate));
    run := run + [Step(1, Duplicate)];
  }

  /** A member's order that can be paid twice. */
  predicate Payable(db: Tables, p: Program, price: I64) {
    && p.Checkout? && !p.abort && p.key != "" && p.digest != "" && p.product != "" && 0 < price
    && ListedPrice(db.products, p.product, p.level) == Some(price)
    && p.user in db.balances && 2 * price <= db.balances[p.user]
    && p.key !in db.orders && p.key !in db.outbox && Find(db.ledger, p.key).None?
  }

  /** The first of two checkouts under one key has its price and its buyer. */
  lemma FirstHasBuyer(db: Tables, p: Program, price: I64) returns (run: seq<Event>)
    requires Payable(db, p, price)
    ensures Legal(Start(db), run)
    ensures var s, balance := After(Start(db), run), BalanceCell(db.balances[p.user]);
      && s.db == db && s.open.Keys == {0, 1} && s.open[1] == Tx(p, [Missing], map[])
      && s.open[0] == Tx(p, [Missing, Data(Some(price)), Locked(balance)], map[UserRow(p.user) := Some(balance)])
  {
    var s, balance := Start(db), BalanceCell(db.balances[p.user]);
    run := BothFindNothing(db, p, OrderRow(p.key));
    OneMore(s, run, Step(0, Data(Some(price))));
    run := run + [Step(0, Data(Some(price)))];
    OneMore(s, run, Step(0, Locked(balance)));
    run := run + [Step(0, Locked(balance))];
  }

  /** It reserves its source and its order. */
  lemma FirstHasOrder(db: Tables, p: Program, price: I64) returns (run: seq<Event>)
    requires Payable(db, p, price)
    ensures Legal(Start(db), run)
    ensures var s, balance := After(Start(db), run), BalanceCell(db.balances[p.user]);
      && s.db == db && s.open.Keys == {0, 1} && s.open[1] == Tx(p, [Missing], map[]) && s.open[0].program == p
      && s.open[0].log == [Missing, Data(Some(price)), Locked(balance), Reserved, Reserved]
  {
    var s := Start(db);
    run := FirstHasBuyer(db, p, price);
    OneMore(s, run, Step(0, Reserved));
    run := run + [Step(0, Reserved)];
    OneMore(s, run, Step(0, Reserved));
    run := run + [Step(0, Reserved)];
  }

  /** And its outbox row. */
  lemma FirstHasRows(db: Tables, p: Program, price: I64) returns (run: seq<Event>)
    requires Payable(db, p, price)
    ensures Legal(Start(db), run)
    ensures var s, balance := After(Start(db), run), BalanceCell(db.balances[p.user]);
      && s.db == db && s.open.Keys == {0, 1} && s.open[1] == Tx(p, [Missing], map[]) && s.open[0].program == p
      && s.open[0].log == [Missing, Data(Some(price)), Locked(balance), Reserved, Reserved, Reserved]
  {
    var s := Start(db);
    run := FirstHasOrder(db, p, price);
    OneMore(s, run, Step(0, Reserved));
    run := run + [Step(0, Reserved)];
  }

  /** The tables after the first of them has committed. */
  ghost predicate Ordered(t: Tables, p: Program, price: I64, left: I64)
    requires p.Checkout?
  {
    && p.key in t.orders && t.orders[p.key].digest == p.digest && t.orders[p.key].user == p.user
    && p.user in t.balances && t.balances[p.user] == left
    && ListedPrice(t.products, p.product, p.level) == Some(price) && Find(t.ledger, p.key).Some?
  }

  lemma CommittedCheckout(db: Tables, p: Program, price: I64, log: seq<Answer>)
    requires Payable(db, p, price)
    requires log == [Missing, Data(Some(price)), Locked(BalanceCell(db.balances[p.user])), Reserved, Reserved, Reserved]
    ensures Next(p, log).Commit? && Ordered(Apply(db, Next(p, log).delta), p, price, db.balances[p.user] - price)
  {
    CheckoutCommits(db, p, log);
    FindAfterAppend(db.ledger, Entry(p.user, p.key, DebitKind, Debit, price, db.balances[p.user] - price), p.key);
  }

  lemma FirstPays(db: Tables, p: Program, price: I64) returns (run: seq<Event>)
    requires Payable(db, p, price)
    ensures Legal(Start(db), run)
    ensures var s := After(Start(db), run);
      s.open.Keys == {1} && s.open[1] == Tx(p, [Missing], map[]) && Ordered(s.db, p, price, db.balances[p.user] - price)
  {
    run := FirstHasRows(db, p, price);
    CommittedCheckout(db, p, price, After(Start(db), run).open[0].log);
    OneMore(Start(db), run, Finish(0));
    run := run + [Finish(0)];
  }

  lemma {:induction false} SecondStops(s: System, run: seq<Event>, p: Program, price: I64, left: I64)
    returns (more: seq<Event>)
    requires p.Checkout? && p.key != "" && p.digest != "" && p.product != "" && 0 < price <= left && Legal(s, run)
    requires var now := After(s, run);
      now.open.Keys == {1} && now.open[1] == Tx(p, [Missing], map[]) && Ordered(now.db, p, price, left)
    ensures Legal(s, more)
    ensures var now := After(s, more);
      && now.db == After(s, run).db && 1 in now.open && now.open[1].program == p
      && now.open[1].log == [Missing, Data(Some(price)), Locked(BalanceCell(left)), Duplicate]
  {
    OneMore(s, run, Step(1, Data(Some(price))));
    more := run + [Step(1, Data(Some(price)))];
    OneMore(s, more, Step(1, Locked(BalanceCell(left))));
    more := more + [Step(1, Locked(BalanceCell(left)))];
    OneMore(s, more, Step(1, Duplicate));
    more := more + [Step(1, Duplicate)];
  }

  lemma AcknowledgedAlone(t: Tables, p: Program, price: I64, left: I64)
    requires p.Checkout? && p.key != "" && p.digest != "" && p.product != "" && 0 < price <= left
    requires Ordered(t, p, price, left)
    ensures Execute(t, p, Some(price)) == Effect(t, Value(left))
    ensures Next(p, [Missing, Data(Some(price)), Locked(BalanceCell(left)), Duplicate]) == Quit(Err(Conflict))
  {
  }

  /**
   * Of two requests for the same checkout that both find no order, the second is refused with a conflict,
   * although at that moment, alone, it would be acknowledged with the balance.
   */
  lemma RacingCheckoutIsRefused(db: Tables, p: Program, price: I64) returns (run: seq<Event>)
    requires Payable(db, p, price)
    ensures Legal(Start(db), run)
    ensures var s := After(Start(db), run);
      && 1 in s.open && s.open[1].program == p && NextStmt(s.open[1]) == Quit(Err(Conflict))
      && Execute(s.db, p, Some(price)) == Effect(s.db, Value(db.balances[p.user] - price))
  {
    run := FirstPays(db, p, price);
    AcknowledgedAlone(After(Start(db), run).db, p, price, db.balances[p.user] - price);
    run := SecondStops(Start(db), run, p, price, db.balances[p.user] - price);
  }
}
