/**
 * On which terms an operation commits: when it does, what exactly it writes, and from where a checkout
 * has its price.
 */
module WalletTerms {
  import opened Base
  import opened WalletTables
  import opened WalletSpec
  import opened WalletSoundness
  import opened WalletPostings
  import opened WalletTransactions
  import opened WalletInterleaving
  import opened WalletGuarantees

  // ----- what is written -----

  /** The tables and the reply that an operation leaves when it goes through. */
  predicate OnTerms(t: Tables, p: Program, quote: Option<I64>, r: Effect) {
    match p
    case Post(user, source, kind, direction, amount, _) =>
      && Entered(t, r.tables, user, source, kind, direction, amount)
      && r == Effect(t.(balances := r.tables.balances, ledger := r.tables.ledger), Value(r.tables.balances[user]))
    case CreditOnce(user, key, digest, amount) => CreditOnTerms(t, user, key, digest, amount, r)
    case Checkout(user, key, digest, product, level, _) =>
      quote.Some? && CheckoutOnTerms(t, user, key, Order(user, digest, product, level, quote.value), r)
    case ApproveDeposit(actor, _, deposit) =>
      deposit in t.deposits && ApproveOnTerms(t, actor, deposit, t.deposits[deposit], r)
    case RefundDeposit(actor, deposit, key) =>
      deposit in t.deposits && RefundOnTerms(t, actor, deposit, key, t.deposits[deposit], r)
    case AdjustBalance(actor, user, key, amount) => AdjustOnTerms(t, actor, user, key, amount, r)
    case GuestCheckout(key, digest, invoice, product, _) =>
      product in t.products && GuestOnTerms(t, key, digest, invoice, product, t.products[product], r)
    case Enqueue(ref, payload) =>
      r == Effect(t.(outbox := t.outbox[ref := OutboxRow(Raw(payload), Pending, 0, None)]), Unit)
    case ClaimProvider(ref) =>
      && ref in t.outbox
      && r == Effect(t.(outbox := t.outbox[ref := t.outbox[ref].(state := Sending, lease := 1)]), Value(1))
    case MarkAmbiguous(ref, lease) =>
      ref in t.outbox && r == Effect(t.(outbox := t.outbox[ref := t.outbox[ref].(state := Ambiguous)]), Unit)
    case ReconcileProvider(ref, result) =>
      && ref in t.outbox
      && r == Effect(t.(outbox := t.outbox[ref := t.outbox[ref].(state := Sent, result := Some(result))]), Unit)
    case Reprice(_, _) => true
  }

  predicate CreditOnTerms(t: Tables, user: Uuid, key: string, digest: string, amount: I64, r: Effect) {
    var t' := r.tables;
    && Entered(t, t', user, key, CreditKind, Credit, amount) && r.reply == Value(t'.balances[user])
    && t'.claims == t.claims[key := Claim(digest, Some(t'.balances[user]))]
    && t' == t.(balances := t'.balances, ledger := t'.ledger, claims := t'.claims)
  }

  predicate CheckoutOnTerms(t: Tables, user: Uuid, key: string, order: Order, r: Effect) {
    var t' := r.tables;
    && Entered(t, t', user, key, DebitKind, Debit, order.price) && r.reply == Value(t'.balances[user])
    && t'.orders == t.orders[key := order]
    && t'.outbox == t.outbox[key := OutboxRow(MemberOrder(order.product, order.price), Pending, 0, None)]
    && t' == t.(balances := t'.balances, ledger := t'.ledger, orders := t'.orders, outbox := t'.outbox)
  }

  predicate ApproveOnTerms(t: Tables, actor: Uuid, deposit: string, d: Deposit, r: Effect) {
    var t', source := r.tables, "deposit-approve:" + deposit;
    && Entered(t, t', d.user, source, CreditKind, Credit, d.amount - d.fee) && r.reply == Value(t'.balances[d.user])
    && DepositMoved(t, t', deposit, d.(status := Approved), source, actor, DepositApprove)
  }

  predicate RefundOnTerms(t: Tables, actor: Uuid, deposit: string, key: string, d: Deposit, r: Effect) {
    var t' := r.tables;
    && Entered(t, t', d.user, key, DebitKind, Debit, d.amount - d.fee) && r.reply == Value(t'.balances[d.user])
    && DepositMoved(t, t', deposit, d.(status := Refunded), key, actor, DepositRefund)
  }

  predicate AdjustOnTerms(t: Tables, actor: Uuid, user: Uuid, key: string, amount: I64, r: Effect) {
    var t', size := r.tables, if amount > 0 then amount else 0 - amount;
    && I64_MIN < amount && r.reply.Value?
    && Entered(t, t', user, key, AdjustmentKind, if amount > 0 then Credit else Debit, size)
    && t'.audits == t.audits[key := Audit(actor, Adjustment, user, size)] && r.reply == Value(t'.balances[user])
    && t' == t.(balances := t'.balances, ledger := t'.ledger, audits := t'.audits)
  }

  predicate GuestOnTerms(
    t: Tables, key: string, digest: string, invoice: string, product: string, row: Product, r: Effect)
  {
    var t' := r.tables;
    && r.reply == Value(row.basic)
    && t'.guests == t.guests[key := GuestOrder(invoice, digest, product, row.basic)]
    && t'.outbox == t.outbox[key := OutboxRow(GuestInvoice(invoice), Pending, 0, None)]
    && t'.products ==
         t.products[product := if row.stock.Some? then row.(stock := Some(row.stock.value - 1)) else row]
    && t' == t.(guests := t'.guests, outbox := t'.outbox, products := t'.products)
  }

  predicate DepositMoved(
    t: Tables, t': Tables, deposit: string, moved: Deposit, key: string, actor: Uuid, action: AuditAction)
  {
    && I64_MIN <= moved.amount - moved.fee <= I64_MAX
    && t'.deposits == t.deposits[deposit := moved]
    && t'.audits == t.audits[key := Audit(actor, action, deposit, moved.amount - moved.fee)]
    && t' == t.(balances := t'.balances, ledger := t'.ledger, deposits := t'.deposits, audits := t'.audits)
  }

  // ----- when -----

  predicate Sellable(t: Tables, key: string, invoice: string, product: string, at: int) {
    && product in t.products
    && var row := t.products[product];
    && row.active && 0 < row.basic && (row.stock.Some? ==> row.stock.value != 0)
    && (row.opens.Some? && row.closes.Some? ==> row.opens.value <= at && at < row.closes.value)
    && key !in t.guests && key !in t.outbox && forall k :: k in t.guests ==> t.guests[k].invoice != invoice
  }

  /** The operation goes through. */
  predicate Allowed(t: Tables, p: Program, quote: Option<I64>) {
    match p
    case GuestCheckout(key, digest, invoice, product, at) =>
      key != "" && digest != "" && invoice != "" && Sellable(t, key, invoice, product, at)
    case Enqueue(ref, _) => ref !in t.outbox
    case ClaimProvider(ref) => ref in t.outbox && t.outbox[ref].state == Pending
    case MarkAmbiguous(ref, lease) =>
      ref in t.outbox && t.outbox[ref].state == Sending && t.outbox[ref].lease == lease
    case ReconcileProvider(ref, _) =>
      && ref in t.outbox && t.outbox[ref].result.None?
      && (t.outbox[ref].state == Ambiguous || t.outbox[ref].state == Sending)
    case Reprice(_, _) => false
    case _ => WalletPostings.Posts(t, p, quote)
  }

  ghost predicate Termed(t: Tables, p: Program, quote: Option<I64>) {
    && (Execute(t, p, quote).tables != t <==> Allowed(t, p, quote))
    && (Allowed(t, p, quote) ==> OnTerms(t, p, quote, Execute(t, p, quote)))
  }

  lemma PostTerms(t: Tables, p: Program)
    requires p.Post? && Sound(t)
    ensures Termed(t, p, None)
  {
    Enters(t, p.user, p.source, p.kind, p.direction, p.amount);
  }

  lemma CreditTerms(t: Tables, p: Program)
    requires p.CreditOnce? && Sound(t)
    ensures Termed(t, p, None)
  {
    if Allowed(t, p, None) { assert |Execute(t, p, None).tables.ledger| == |t.ledger| + 1; }
  }

  lemma CheckoutTerms(t: Tables, p: Program, quote: Option<I64>)
    requires p.Checkout? && Sound(t)
    ensures Termed(t, p, quote)
  {
    if Allowed(t, p, quote) { assert |Execute(t, p, quote).tables.ledger| == |t.ledger| + 1; }
  }

  lemma ApproveTerms(t: Tables, actor: Uuid, owner: bool, deposit: string)
    requires Sound(t)
    ensures var r := ApproveEffect(t, actor, owner, deposit);
      && (r.tables != t <==> deposit in t.deposits && Approvable(t, t.deposits[deposit], actor, owner, deposit))
      && (r.tables != t ==> ApproveOnTerms(t, actor, deposit, t.deposits[deposit], r))
  {
    if deposit in t.deposits {
      var d := t.deposits[deposit];
      assert DepositSound(deposit, d, t.audits, t.ledger);
      WrapFits(d.amount - d.fee);
      Enters(t, d.user, ApprovalSource(deposit), CreditKind, Credit, d.amount - d.fee);
    }
  }

  lemma RefundTerms(t: Tables, actor: Uuid, deposit: string, key: string)
    requires Sound(t)
    ensures var r := RefundEffect(t, actor, deposit, key);
      && (r.tables != t <==> key != "" && deposit in t.deposits && Returnable(t, actor, deposit, key))
      && (r.tables != t ==> RefundOnTerms(t, actor, deposit, key, t.deposits[deposit], r))
  {
    if deposit in t.deposits {
      var d, approval := t.deposits[deposit], Find(t.ledger, ApprovalSource(deposit));
      assert DepositSound(deposit, d, t.audits, t.ledger);
      if approval.Some? { Enters(t, d.user, key, DebitKind, Debit, approval.value.amount); }
    }
  }

  lemma AbsoluteAmount(amount: I64)
    ensures 0 < Abs64(amount) <==> amount != 0 && amount != I64_MIN
    ensures amount != I64_MIN ==> Abs64(amount) == if amount > 0 then amount else 0 - amount
  {
  }

  lemma {:induction false} AdjustTerms(t: Tables, actor: Uuid, user: Uuid, key: string, amount: I64)
    requires Sound(t)
    ensures var r := AdjustEffect(t, actor, user, key, amount);
      && (r.tables != t <==>
            && key != "" && 0 < Abs64(amount) && key !in t.audits && actor in t.balances
            && PostingFits(t, key, user, (if amount > 0 then Credit else Debit).Of(Abs64(amount))))
      && (r.tables != t ==> AdjustOnTerms(t, actor, user, key, amount, r))
  {
    AbsoluteAmount(amount);
    Enters(t, user, key, AdjustmentKind, if amount > 0 then Credit else Debit, Abs64(amount));
  }

  lemma GuestTerms(t: Tables, p: Program)
    requires p.GuestCheckout? && Sound(t)
    ensures Termed(t, p, None)
  {
  }

  lemma OutboxTerms(t: Tables, p: Program)
    requires (p.Enqueue? || p.ClaimProvider? || p.MarkAmbiguous? || p.ReconcileProvider?) && Sound(t)
    ensures Termed(t, p, None)
  {
  }

  /** On sound tables an operation changes them exactly when it is allowed, and then writes exactly its terms. */
  lemma TermsExactly(t: Tables, p: Program, quote: Option<I64>)
    requires Sound(t) && !p.Reprice?
    ensures Execute(t, p, quote).tables != t <==> Allowed(t, p, quote)
    ensures Allowed(t, p, quote) ==> OnTerms(t, p, quote, Execute(t, p, quote))
  {
    if p.Post? || p.CreditOnce? || p.Checkout? || p.GuestCheckout? { MoneyTerms(t, p, quote); }
    else if p.ApproveDeposit? || p.RefundDeposit? || p.AdjustBalance? { AuditedTerms(t, p, quote); }
    else { OutboxTerms(t, p); }
  }

  lemma MoneyTerms(t: Tables, p: Program, quote: Option<I64>)
    requires Sound(t) && (p.Post? || p.CreditOnce? || p.Checkout? || p.GuestCheckout?)
    ensures Termed(t, p, quote)
  {
    match p
    case Post(_, _, _, _, _, _) => PostTerms(t, p);
    case CreditOnce(_, _, _, _) => CreditTerms(t, p);
    case Checkout(_, _, _, _, _, _) => CheckoutTerms(t, p, quote);
    case GuestCheckout(_, _, _, _, _) => GuestTerms(t, p);
  }

  lemma AuditedTerms(t: Tables, p: Program, quote: Option<I64>)
    requires Sound(t) && (p.ApproveDeposit? || p.RefundDeposit? || p.AdjustBalance?)
    ensures Termed(t, p, quote)
  {
    match p
    case ApproveDeposit(actor, owner, deposit) => ApproveTerms(t, actor, owner, deposit);
    case RefundDeposit(actor, deposit, key) => RefundTerms(t, actor, deposit, key);
    case AdjustBalance(actor, user, key, amount) => AdjustTerms(t, actor, user, key, amount);
  }

  // ----- what it answers when it does not go through -----

  predicate InRange(balance: int) {
    0 <= balance <= I64_MAX
  }

  /** Too little on the account, or too much for 64 bits. */
  predicate Overdraws(t: Tables, user: Uuid, direction: Direction, amount: int) {
    user in t.balances && !InRange(if direction == Credit then t.balances[user] + amount else t.balances[user] - amount)
  }

  function PostOtherwise(t: Tables, user: Uuid, source: string, direction: Direction, amount: int, abort: bool): Reply {
    if amount <= 0 || source == "" then Err(Conflict)
    else if Overdraws(t, user, direction, amount) then Err(Insufficient)
    else if abort && user in t.balances && Find(t.ledger, source).None? then Value(t.balances[user])
    else Err(Conflict)
  }

  /** A repetition is answered from the claim; an unknown user or an overflow is the database's refusal. */
  function CreditOtherwise(t: Tables, user: Uuid, key: string, digest: string, amount: int): Reply {
    if amount <= 0 || key == "" || digest == "" then Err(Conflict)
    else if key in t.claims then
      if t.claims[key].digest == digest && t.claims[key].response.Some? then Value(t.claims[key].response.value)
      else Err(Conflict)
    else if user !in t.balances || t.balances[user] + amount > I64_MAX then Err(Unavailable)
    else Err(Conflict)
  }

  /** A repetition is acknowledged with the owner's balance. */
  function CheckoutOtherwise(
    t: Tables, user: Uuid, key: string, digest: string, product: string, abort: bool, quote: Option<I64>): Reply
  {
    if key == "" || digest == "" || product == "" then Err(Conflict)
    else if key in t.orders then
      if t.orders[key].digest == digest && t.orders[key].user in t.balances then Value(t.balances[t.orders[key].user])
      else Err(Conflict)
    else if quote.None? || quote.value <= 0 || user !in t.balances then Err(Conflict)
    else if t.balances[user] < quote.value then Err(Insufficient)
    else if abort && Find(t.ledger, key).None? && key !in t.outbox then Value(t.balances[user])
    else Err(Conflict)
  }

  function ApproveOtherwise(t: Tables, actor: Uuid, owner: bool, deposit: string): Reply {
    if deposit !in t.deposits then Err(Conflict)
    else
      var d := t.deposits[deposit];
      if d.status == Awaiting && (owner || d.assignee == None || d.assignee == Some(actor))
        && Overdraws(t, d.user, Credit, d.amount - d.fee)
      then Err(Insufficient) else Err(Conflict)
  }

  /** A refund made before, under whatever key, is answered with the balance. */
  function RefundOtherwise(t: Tables, deposit: string, key: string): Reply {
    if key == "" || deposit !in t.deposits then Err(Conflict)
    else
      var d := t.deposits[deposit];
      if RefundRecorded(t.audits, deposit) && d.user in t.balances then Value(t.balances[d.user])
      else if d.status == Approved && Overdraws(t, d.user, Debit, d.amount - d.fee) then Err(Insufficient)
      else Err(Conflict)
  }

  /** An adjustment made before is answered with the balance that it left. */
  function AdjustOtherwise(t: Tables, user: Uuid, key: string, amount: int): Reply {
    if key == "" || amount == 0 then Err(Conflict)
    else
      match Find(t.ledger, key)
      case Some(e) => if e.user == user then Value(e.balanceAfter) else AdjustRefused(t, user, amount)
      case None => AdjustRefused(t, user, amount)
  }

  function AdjustRefused(t: Tables, user: Uuid, amount: int): Reply {
    if I64_MIN < amount && user in t.balances && !InRange(t.balances[user] + amount) then Err(Insufficient)
    else Err(Conflict)
  }

  function GuestOtherwise(t: Tables, key: string, digest: string, invoice: string): Reply {
    if key != "" && digest != "" && invoice != "" && key in t.guests && t.guests[key].digest == digest
    then Value(t.guests[key].price) else Err(Conflict)
  }

  function Otherwise(t: Tables, p: Program, quote: Option<I64>): Reply {
    match p
    case Post(user, source, _, direction, amount, abort) => PostOtherwise(t, user, source, direction, amount, abort)
    case CreditOnce(user, key, digest, amount) => CreditOtherwise(t, user, key, digest, amount)
    case Checkout(user, key, digest, product, _, abort) =>
      CheckoutOtherwise(t, user, key, digest, product, abort, quote)
    case ApproveDeposit(actor, owner, deposit) => ApproveOtherwise(t, actor, owner, deposit)
    case RefundDeposit(_, deposit, key) => RefundOtherwise(t, deposit, key)
    case AdjustBalance(_, user, key, amount) => AdjustOtherwise(t, user, key, amount)
    case GuestCheckout(key, digest, invoice, _, _) => GuestOtherwise(t, key, digest, invoice)
    case ReconcileProvider(ref, result) =>
      if ref in t.outbox && t.outbox[ref].result == Some(result) then Unit else Err(Conflict)
    case _ => Err(Conflict)
  }

  lemma Refuses(t: Tables, user: Uuid, source: string, kind: Kind, direction: Direction, amount: I64)
    requires user in t.balances ==> 0 <= t.balances[user]
    ensures var posting := PostInTx(t, user, source, kind, direction, amount);
      posting.Refused? ==>
        posting.error == if 0 < amount && source != "" && Overdraws(t, user, direction, amount) then Insufficient
          else Conflict
  {
  }

  lemma CreditAnswers(t: Tables, user: Uuid, key: string, digest: string, amount: I64)
    requires Sound(t) && CreditOnceEffect(t, user, key, digest, amount).tables == t
    ensures CreditOnceEffect(t, user, key, digest, amount).reply == CreditOtherwise(t, user, key, digest, amount)
  {
    if key in t.claims { assert t.claims[key].response.Some?; }
  }

  lemma CheckoutAnswers(
    t: Tables, user: Uuid, key: string, digest: string, product: string, level: string, abort: bool, quote: Option<I64>)
    requires Sound(t) && CheckoutEffect(t, user, key, digest, product, level, abort, quote).tables == t
    ensures CheckoutEffect(t, user, key, digest, product, level, abort, quote).reply ==
      CheckoutOtherwise(t, user, key, digest, product, abort, quote)
  {
    if key in t.orders { assert OrderSound(key, t.orders[key], t.balances, t.ledger, t.outbox); }
  }

  lemma ApproveAnswers(t: Tables, actor: Uuid, owner: bool, deposit: string)
    requires Sound(t) && ApproveEffect(t, actor, owner, deposit).tables == t
    ensures ApproveEffect(t, actor, owner, deposit).reply == ApproveOtherwise(t, actor, owner, deposit)
  {
    if deposit in t.deposits {
      var d := t.deposits[deposit];
      assert DepositSound(deposit, d, t.audits, t.ledger);
      WrapFits(d.amount - d.fee);
      Refuses(t, d.user, ApprovalSource(deposit), CreditKind, Credit, d.amount - d.fee);
      Enters(t, d.user, ApprovalSource(deposit), CreditKind, Credit, d.amount - d.fee);
    }
  }

  lemma RefundAnswers(t: Tables, actor: Uuid, deposit: string, key: string)
    requires Sound(t) && RefundEffect(t, actor, deposit, key).tables == t
    ensures RefundEffect(t, actor, deposit, key).reply == RefundOtherwise(t, deposit, key)
  {
    if deposit in t.deposits {
      var d, approval := t.deposits[deposit], Find(t.ledger, ApprovalSource(deposit));
      assert DepositSound(deposit, d, t.audits, t.ledger);
      if approval.Some? {
        Refuses(t, d.user, key, DebitKind, Debit, approval.value.amount);
        Enters(t, d.user, key, DebitKind, Debit, approval.value.amount);
      }
    }
  }

  lemma {:induction false} AdjustAnswers(t: Tables, actor: Uuid, user: Uuid, key: string, amount: I64)
    requires Sound(t) && AdjustEffect(t, actor, user, key, amount).tables == t
    ensures AdjustEffect(t, actor, user, key, amount).reply == AdjustOtherwise(t, user, key, amount)
  {
    AbsoluteAmount(amount);
    var direction := if amount > 0 then Credit else Debit;
    Refuses(t, user, key, AdjustmentKind, direction, Abs64(amount));
    Enters(t, user, key, AdjustmentKind, direction, Abs64(amount));
  }

  lemma PostAnswers(
    t: Tables, user: Uuid, source: string, kind: Kind, direction: Direction, amount: I64, abort: bool)
    requires Sound(t) && PostEffect(t, user, source, kind, direction, amount, abort).tables == t
    ensures PostEffect(t, user, source, kind, direction, amount, abort).reply ==
      PostOtherwise(t, user, source, direction, amount, abort)
  {
    Refuses(t, user, source, kind, direction, amount);
    Enters(t, user, source, kind, direction, amount);
  }

  lemma ShortAnswers(t: Tables, p: Program)
    requires p.GuestCheckout? || p.Enqueue? || p.ClaimProvider? || p.MarkAmbiguous? || p.ReconcileProvider?
    requires Sound(t) && Execute(t, p, None).tables == t
    ensures Execute(t, p, None).reply == Otherwise(t, p, None)
  {
    if p.GuestCheckout? { GuestTerms(t, p); } else { OutboxTerms(t, p); }
  }

  /** What each operation answers when it changes nothing: the refusal, or the replay of what was done before. */
  lemma OtherwiseExactly(t: Tables, p: Program, quote: Option<I64>)
    requires Sound(t) && !p.Reprice? && Execute(t, p, quote).tables == t
    ensures Execute(t, p, quote).reply == Otherwise(t, p, quote)
  {
    match p
    case Post(user, source, kind, direction, amount, abort) =>
      PostAnswers(t, user, source, kind, direction, amount, abort);
    case CreditOnce(user, key, digest, amount) => CreditAnswers(t, user, key, digest, amount);
    case Checkout(user, key, digest, product, level, abort) =>
      CheckoutAnswers(t, user, key, digest, product, level, abort, quote);
    case ApproveDeposit(actor, owner, deposit) => ApproveAnswers(t, actor, owner, deposit);
    case RefundDeposit(actor, deposit, key) => RefundAnswers(t, actor, deposit, key);
    case AdjustBalance(actor, user, key, amount) => AdjustAnswers(t, actor, user, key, amount);
    case _ => ShortAnswers(t, p);
  }

  // ----- prices -----

  /** The product's price for this level: gold and platinum have their own, everybody else pays the basic one. */
  predicate PricedAt(t: Tables, product: string, level: string, price: I64) {
    && product in t.products
    && (level == "gold" ==> price == t.products[product].gold)
    && (level == "platinum" ==> price == t.products[product].platinum)
    && (level != "gold" && level != "platinum" ==> price == t.products[product].basic)
  }

  lemma ListedIsPriced(t: Tables, product: string, level: string, price: I64)
    ensures ListedPrice(t.products, product, level) == Some(price) <==> PricedAt(t, product, level, price)
  {
  }

  /** Some committed state up to the first `n` jobs had this price. */
  ghost predicate HadPrice(db0: Tables, jobs: seq<Job>, n: nat, p: Program, price: I64)
    requires n <= |jobs| && p.Checkout?
  {
    exists j :: 0 <= j <= n && PricedAt(Serial(db0, jobs[..j]), p.product, p.level, price)
  }

  ghost predicate AsksPrice(p: Program, log: seq<Answer>) {
    |log| > 1 && Next(p, log[..1]).Read? && Next(p, log[..1]).query.PriceOf?
  }

  /** What an open checkout was told is the price in a committed state, and so is what a committed one paid. */
  ghost predicate PricesTrue(db0: Tables, s: System) {
    && (forall id :: id in s.open ==>
          var tx := s.open[id];
          tx.program.Checkout? && AsksPrice(tx.program, tx.log) && tx.log[1].Data? && tx.log[1].number.Some? ==>
            HadPrice(db0, s.history, |s.history|, tx.program, tx.log[1].number.value))
    && (forall i {:trigger s.history[i]} :: 0 <= i < |s.history| && s.history[i].program.Checkout? ==>
          s.history[i].quote.Some? && HadPrice(db0, s.history, i, s.history[i].program, s.history[i].quote.value))
  }

  lemma {:induction false} LaterHadPrice(db0: Tables, jobs: seq<Job>, job: Job, n: nat, p: Program, price: I64)
    requires n <= |jobs| && p.Checkout? && HadPrice(db0, jobs, n, p, price)
    ensures HadPrice(db0, jobs + [job], n, p, price) && HadPrice(db0, jobs + [job], |jobs| + 1, p, price)
  {
    var j :| 0 <= j <= n && PricedAt(Serial(db0, jobs[..j]), p.product, p.level, price);
    assert (jobs + [job])[..j] == jobs[..j];
  }

  lemma PriceIsTold(db0: Tables, s: System, id: nat, a: Answer)
    requires Faithful(db0, s) && id in s.open && s.open[id].program.Checkout?
    requires NextStmt(s.open[id]).Read? && NextStmt(s.open[id]).query.PriceOf?
    requires MayAnswer(s, id, NextStmt(s.open[id]), a) && a.Data? && a.number.Some?
    ensures HadPrice(db0, s.history, |s.history|, s.open[id].program, a.number.value)
  {
    var p := s.open[id].program;
    ListedIsPriced(s.db, p.product, p.level, a.number.value);
    assert s.history[..|s.history|] == s.history;
    assert PricedAt(Serial(db0, s.history[..|s.history|]), p.product, p.level, a.number.value);
  }

  lemma StepKeepsPrices(db0: Tables, s: System, id: nat, a: Answer)
    requires Faithful(db0, s) && PricesTrue(db0, s) && Enabled(s, Step(id, a))
    ensures PricesTrue(db0, Do(s, Step(id, a)))
  {
    var tx, tx' := s.open[id], Advance(s.open[id], a);
    if tx.program.Checkout? && |tx'.log| > 1 {
      assert tx'.log[..1] == if |tx.log| == 1 then tx.log else tx.log[..1];
      if |tx.log| == 1 && NextStmt(tx).Read? && NextStmt(tx).query.PriceOf? && a.Data? && a.number.Some? {
        PriceIsTold(db0, s, id, a);
      }
    }
  }

  lemma CommittedCheckoutAsked(p: Program, log: seq<Answer>)
    requires p.Checkout? && Next(p, log).Commit?
    ensures AsksPrice(p, log) && log[1].Data? && log[1].number.Some? && QuoteOf(p, log) == log[1].number
  {
    assert log[..1] == [log[0]];
  }

  lemma FinishKeepsPrices(db0: Tables, s: System, id: nat)
    requires PricesTrue(db0, s) && Enabled(s, Finish(id))
    ensures PricesTrue(db0, Do(s, Finish(id)))
  {
    var tx, s' := s.open[id], Do(s, Finish(id));
    var job := s'.history[|s.history|];
    assert s'.history == s.history + [job];
    forall o | o in s'.open && s.open[o].program.Checkout? && AsksPrice(s.open[o].program, s.open[o].log)
        && s.open[o].log[1].Data? && s.open[o].log[1].number.Some?
      ensures HadPrice(db0, s'.history, |s'.history|, s.open[o].program, s.open[o].log[1].number.value)
    {
      LaterHadPrice(db0, s.history, job, |s.history|, s.open[o].program, s.open[o].log[1].number.value);
    }
    forall i | 0 <= i < |s'.history| && s'.history[i].program.Checkout?
      ensures s'.history[i].quote.Some?
      ensures HadPrice(db0, s'.history, i, s'.history[i].program, s'.history[i].quote.value)
    {
      if i < |s.history| {
        LaterHadPrice(db0, s.history, job, i, s.history[i].program, s.history[i].quote.value);
      } else {
        CommittedCheckoutAsked(tx.program, tx.log);
        LaterHadPrice(db0, s.history, job, i, tx.program, tx.log[1].number.value);
      }
    }
  }

  lemma {:induction false} RunKeepsPrices(db0: Tables, s: System, run: seq<Event>)
    requires Steady(s) && Faithful(db0, s) && Legal(s, run) && PricesTrue(db0, s)
    ensures PricesTrue(db0, After(s, run))
    decreases |run|
  {
    if |run| > 0 {
      match run[0] {
        case Begin(id, p) =>
        case Step(id, a) => StepKeepsPrices(db0, s, id, a);
        case Finish(id) => FinishKeepsPrices(db0, s, id);
        case Rollback(id) =>
      }
      EventKeeps(db0, s, run[0]);
      RunKeepsPrices(db0, Do(s, run[0]), run[1..]);
    }
  }

  // ----- over runs -----

  /** Every committed operation was allowed when it committed, and wrote and answered exactly its terms. */
  lemma {:induction false} CommittedOnTerms(db0: Tables, run: seq<Event>, i: nat)
    requires Sound(db0) && Legal(Start(db0), run) && i < |After(Start(db0), run).history|
    requires !After(Start(db0), run).history[i].program.Reprice?
    ensures var jobs := After(Start(db0), run).history;
      var t, t' := Serial(db0, jobs[..i]), Serial(db0, jobs[..i + 1]);
      && Allowed(t, jobs[i].program, jobs[i].quote)
      && OnTerms(t, jobs[i].program, jobs[i].quote, Effect(t', jobs[i].reply))
  {
    EveryRunIsSerial(db0, run);
    var jobs := After(Start(db0), run).history;
    assert jobs[..i + 1][..i] == jobs[..i];
    SerialIsSound(db0, jobs, i);
    JobOnTerms(Serial(db0, jobs[..i]), jobs[i]);
  }

  lemma JobOnTerms(t: Tables, job: Job)
    requires Sound(t) && !job.program.Reprice? && job.reply == Execute(t, job.program, job.quote).reply
    requires Execute(t, job.program, job.quote).tables != t
    ensures Allowed(t, job.program, job.quote)
    ensures OnTerms(t, job.program, job.quote, Effect(Execute(t, job.program, job.quote).tables, job.reply))
  {
    TermsExactly(t, job.program, job.quote);
  }

  lemma {:induction false} SerialIsSound(db0: Tables, jobs: seq<Job>, n: nat)
    requires Sound(db0) && n <= |jobs|
    ensures Sound(Serial(db0, jobs[..n]))
    decreases n
  {
    if n > 0 {
      assert jobs[..n][..n - 1] == jobs[..n - 1];
      SerialIsSound(db0, jobs, n - 1);
      ExecuteKeepsSound(Serial(db0, jobs[..n - 1]), jobs[n - 1].program, jobs[n - 1].quote);
    }
  }

  /**
   * Whatever ran meanwhile, a committed checkout's order and debit carry the price that its member's
   * column had for its product in some committed state no later than its commit.
   */
  lemma {:induction false} CheckoutsPayACommittedPrice(db0: Tables, run: seq<Event>, i: nat)
    requires Sound(db0) && Legal(Start(db0), run) && i < |After(Start(db0), run).history|
    requires After(Start(db0), run).history[i].program.Checkout?
    ensures var s := After(Start(db0), run); var p := s.history[i].program;
      && p.key in s.db.orders && 0 < s.db.orders[p.key].price
      && Find(s.db.ledger, p.key).Some? && Find(s.db.ledger, p.key).value.amount == s.db.orders[p.key].price
      && exists j :: 0 <= j <= i && PricedAt(Serial(db0, s.history[..j]), p.product, p.level, s.db.orders[p.key].price)
  {
    RunKeepsPrices(db0, Start(db0), run);
    CheckoutStands(db0, run, i);
  }

  /** The order of a committed checkout is still there, at the price that the checkout was quoted. */
  lemma {:induction false} CheckoutStands(db0: Tables, run: seq<Event>, i: nat)
    requires Sound(db0) && Legal(Start(db0), run) && i < |After(Start(db0), run).history|
    requires After(Start(db0), run).history[i].program.Checkout?
    ensures var s := After(Start(db0), run); var key := s.history[i].program.key;
      && key in s.db.orders && Some(s.db.orders[key].price) == s.history[i].quote
      && OrderSound(key, s.db.orders[key], s.db.balances, s.db.ledger, s.db.outbox)
  {
    EveryRunIsSerial(db0, run);
    CommittedOnTerms(db0, run, i);
    var s := After(Start(db0), run);
    assert s.history[..|s.history|] == s.history;
    SerialPreserves(db0, s.history, i + 1, |s.history|);
  }
}
