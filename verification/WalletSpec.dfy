/**
 * What each money operation does to the committed tables when it runs alone. A refused operation
 * leaves the tables as they were: its transaction rolls back. Each contract names the only tables
 * that the operation may write.
 */
module WalletSpec {
  import opened Base
  import opened WalletTables

  datatype Effect = Effect(tables: Tables, reply: Reply)

  datatype Program =
    | Post(user: Uuid, source: string, kind: Kind, direction: Direction, amount: I64, abort: bool)
    | CreditOnce(user: Uuid, key: string, digest: string, amount: I64)
    | Checkout(user: Uuid, key: string, digest: string, product: string, level: string, abort: bool)
    | ApproveDeposit(actor: Uuid, owner: bool, deposit: string)
    | RefundDeposit(actor: Uuid, deposit: string, key: string)
    | AdjustBalance(actor: Uuid, user: Uuid, key: string, amount: I64)
    | GuestCheckout(key: string, digest: string, invoice: string, product: string, at: int)
    | Enqueue(ref: string, payload: string)
    | ClaimProvider(ref: string)
    | MarkAmbiguous(ref: string, lease: int)
    | ReconcileProvider(ref: string, result: string)
    | Reprice(product: string, row: Product)

  datatype Posting = Posted(tables: Tables, next: I64) | Refused(error: WalletError)

  function Fail(t: Tables, error: WalletError): Effect {
    Effect(t, Err(error))
  }

  function WithEntry(t: Tables, e: Entry): Tables {
    t.(ledger := t.ledger + [e], balances := t.balances[e.user := e.balanceAfter])
  }

  /** One posting inside a transaction: both the standalone `post` and `post_in_tx`. */
  function PostInTx(t: Tables, user: Uuid, source: string, kind: Kind, direction: Direction, amount: I64): Posting {
    if amount <= 0 || source == "" then Refused(Conflict)
    else if user !in t.balances then Refused(Conflict)
    else
      var next := Wrap64(t.balances[user] + direction.Of(amount));
      if next < 0 then Refused(Insufficient)
      else if Find(t.ledger, source).Some? then Refused(Conflict)
      else Posted(WithEntry(t, Entry(user, source, kind, direction, amount, next)), next)
  }

  function PostEffect(
    t: Tables, user: Uuid, source: string, kind: Kind, direction: Direction, amount: I64, abort: bool): (r: Effect)
    ensures r.tables == t.(ledger := r.tables.ledger, balances := r.tables.balances)
  {
    match PostInTx(t, user, source, kind, direction, amount)
    case Refused(error) => Fail(t, error)
    case Posted(t', next) => if abort then Effect(t, Value(t.balances[user])) else Effect(t', Value(next))
  }

  function CreditOnceEffect(t: Tables, user: Uuid, key: string, digest: string, amount: I64): (r: Effect)
    ensures r.tables == t.(ledger := r.tables.ledger, balances := r.tables.balances, claims := r.tables.claims)
  {
    if amount <= 0 || key == "" || digest == "" then Fail(t, Conflict)
    else if key in t.claims then
      if t.claims[key].digest != digest then Fail(t, Conflict)
      else if t.claims[key].response.None? then Fail(t, Unavailable)
      else Effect(t, Value(t.claims[key].response.value))
    else if user !in t.balances || I64_MAX < t.balances[user] + amount then Fail(t, Unavailable)
    else if Find(t.ledger, key).Some? then Fail(t, Conflict)
    else
      var next := t.balances[user] + amount;
      var t' := WithEntry(t, Entry(user, key, CreditKind, Credit, amount, next));
      Effect(t'.(claims := t.claims[key := Claim(digest, Some(next))]), Value(next))
  }

  function CheckoutEffect(
    t: Tables, user: Uuid, key: string, digest: string, product: string, level: string, abort: bool,
    quote: Option<I64>): (r: Effect)
    ensures r.tables ==
      t.(ledger := r.tables.ledger, balances := r.tables.balances, orders := r.tables.orders, outbox := r.tables.outbox)
  {
    if key == "" || digest == "" || product == "" then Fail(t, Conflict)
    else if key in t.orders && t.orders[key].user in t.balances then
      if t.orders[key].digest == digest then Effect(t, Value(t.balances[t.orders[key].user])) else Fail(t, Conflict)
    else if quote.None? || quote.value <= 0 then Fail(t, Conflict)
    else if user !in t.balances then Fail(t, Conflict)
    else if t.balances[user] < quote.value then Fail(t, Insufficient)
    else if Find(t.ledger, key).Some? || key in t.orders || key in t.outbox then Fail(t, Conflict)
    else if abort then Effect(t, Value(t.balances[user]))
    else
      var price, next := quote.value, t.balances[user] - quote.value;
      var t' := WithEntry(t, Entry(user, key, DebitKind, Debit, price, next));
      Effect(
        t'.(orders := t.orders[key := Order(user, digest, product, level, price)],
            outbox := t.outbox[key := OutboxRow(MemberOrder(product, price), Pending, 0, None)]),
        Value(next))
  }

  function ApproveEffect(t: Tables, actor: Uuid, owner: bool, deposit: string): (r: Effect)
    ensures r.tables ==
      t.(ledger := r.tables.ledger, balances := r.tables.balances, deposits := r.tables.deposits,
        audits := r.tables.audits)
  {
    if deposit !in t.deposits then Fail(t, Conflict)
    else
      var d := t.deposits[deposit];
      if d.status != Awaiting || (!owner && d.assignee.Some? && d.assignee.value != actor) then Fail(t, Conflict)
      else
        var net := Wrap64(d.amount - d.fee);
        var source := ApprovalSource(deposit);
        match PostInTx(t, d.user, source, CreditKind, Credit, net)
        case Refused(error) => Fail(t, error)
        case Posted(t', next) =>
          if source in t.audits || actor !in t.balances then Fail(t, Conflict)
          else Effect(
              t'.(deposits := t.deposits[deposit := d.(status := Approved)],
                  audits := t.audits[source := Audit(actor, DepositApprove, deposit, net)]),
              Value(next))
  }

  function RefundEffect(t: Tables, actor: Uuid, deposit: string, key: string): (r: Effect)
    ensures r.tables ==
      t.(ledger := r.tables.ledger, balances := r.tables.balances, deposits := r.tables.deposits,
        audits := r.tables.audits)
  {
    if key == "" then Fail(t, Conflict)
    else if RefundRecorded(t.audits, deposit) && deposit in t.deposits && t.deposits[deposit].user in t.balances then
      Effect(t, Value(t.balances[t.deposits[deposit].user]))
    else if deposit !in t.deposits || t.deposits[deposit].status != Approved then Fail(t, Conflict)
    else
      var d, approval := t.deposits[deposit], Find(t.ledger, ApprovalSource(deposit));
      if approval.None? then Fail(t, Conflict)
      else
        match PostInTx(t, d.user, key, DebitKind, Debit, approval.value.amount)
        case Refused(error) => Fail(t, error)
        case Posted(t', next) =>
          if key in t.audits || actor !in t.balances then Fail(t, Conflict)
          else Effect(
              t'.(deposits := t.deposits[deposit := d.(status := Refunded)],
                  audits := t.audits[key := Audit(actor, DepositRefund, deposit, approval.value.amount)]),
              Value(next))
  }

  function AdjustEffect(t: Tables, actor: Uuid, user: Uuid, key: string, amount: I64): (r: Effect)
    ensures r.tables == t.(ledger := r.tables.ledger, balances := r.tables.balances, audits := r.tables.audits)
  {
    if key == "" || amount == 0 then Fail(t, Conflict)
    else
      var earlier := Find(t.ledger, key);
      if earlier.Some? && earlier.value.user == user then Effect(t, Value(earlier.value.balanceAfter))
      else
        var direction := if amount > 0 then Credit else Debit;
        match PostInTx(t, user, key, AdjustmentKind, direction, Abs64(amount))
        case Refused(error) => Fail(t, error)
        case Posted(t', next) =>
          if key in t.audits || actor !in t.balances then Fail(t, Conflict)
          else Effect(t'.(audits := t.audits[key := Audit(actor, Adjustment, user, Abs64(amount))]), Value(next))
  }

  /** A product is on sale at second `at` of the day. */
  predicate OnSale(p: Product, at: int) {
    && p.active && p.basic > 0 && p.stock != Some(0)
    && (p.opens.Some? && p.closes.Some? ==> p.opens.value <= at < p.closes.value)
  }

  function TakeOne(p: Product): Product {
    if p.stock.Some? && p.stock.value > 0 then p.(stock := Some(p.stock.value - 1)) else p
  }

  function GuestEffect(t: Tables, key: string, digest: string, invoice: string, product: string, at: int): (r: Effect)
    ensures r.tables == t.(products := r.tables.products, guests := r.tables.guests, outbox := r.tables.outbox)
  {
    if key == "" || digest == "" || invoice == "" then Fail(t, Conflict)
    else if key in t.guests then
      if t.guests[key].digest == digest then Effect(t, Value(t.guests[key].price)) else Fail(t, Conflict)
    else if product !in t.products || !OnSale(t.products[product], at) then Fail(t, Conflict)
    else if InvoiceTaken(t.guests, invoice) || key in t.outbox then Fail(t, Conflict)
    else
      var p := t.products[product];
      Effect(
        t.(products := t.products[product := TakeOne(p)],
           guests := t.guests[key := GuestOrder(invoice, digest, product, p.basic)],
           outbox := t.outbox[key := OutboxRow(GuestInvoice(invoice), Pending, 0, None)]),
        Value(p.basic))
  }

  function EnqueueEffect(t: Tables, ref: string, payload: string): (r: Effect)
    ensures r.tables == t.(outbox := r.tables.outbox)
  {
    if ref in t.outbox then Fail(t, Conflict)
    else Effect(t.(outbox := t.outbox[ref := OutboxRow(Raw(payload), Pending, 0, None)]), Unit)
  }

  function ClaimEffect(t: Tables, ref: string): (r: Effect)
    ensures r.tables == t.(outbox := r.tables.outbox)
  {
    if ref !in t.outbox || t.outbox[ref].state != Pending then Fail(t, Conflict)
    else
      var row := t.outbox[ref];
      Effect(t.(outbox := t.outbox[ref := row.(state := Sending, lease := row.lease + 1)]), Value(row.lease + 1))
  }

  function AmbiguousEffect(t: Tables, ref: string, lease: int): (r: Effect)
    ensures r.tables == t.(outbox := r.tables.outbox)
  {
    if ref !in t.outbox || t.outbox[ref].state != Sending || t.outbox[ref].lease != lease then Fail(t, Conflict)
    else Effect(t.(outbox := t.outbox[ref := t.outbox[ref].(state := Ambiguous)]), Unit)
  }

  function ReconcileProviderEffect(t: Tables, ref: string, result: string): (r: Effect)
    ensures r.tables == t.(outbox := r.tables.outbox)
  {
    if ref !in t.outbox then Fail(t, Conflict)
    else
      var row := t.outbox[ref];
      if row.result.Some? then Effect(t, if row.result.value == result then Unit else Err(Conflict))
      else if row.state != Ambiguous && row.state != Sending then Fail(t, Conflict)
      else Effect(t.(outbox := t.outbox[ref := row.(state := Sent, result := Some(result))]), Unit)
  }

  /** The catalogue side of the system: anything but the stock of an existing product may change. */
  function RepriceEffect(t: Tables, code: string, row: Product): (r: Effect)
    ensures r.tables == t.(products := r.tables.products)
  {
    if code !in t.products || row.basic < 0 || row.gold < 0 || row.platinum < 0 then Fail(t, Conflict)
    else Effect(t.(products := t.products[code := row.(stock := t.products[code].stock)]), Unit)
  }

  /** `quote` is the price that a checkout read, without a lock, from the product row. */
  function Execute(t: Tables, p: Program, quote: Option<I64>): Effect {
    match p
    case Post(user, source, kind, direction, amount, abort) =>
      PostEffect(t, user, source, kind, direction, amount, abort)
    case CreditOnce(user, key, digest, amount) => CreditOnceEffect(t, user, key, digest, amount)
    case Checkout(user, key, digest, product, level, abort) =>
      CheckoutEffect(t, user, key, digest, product, level, abort, quote)
    case ApproveDeposit(actor, owner, deposit) => ApproveEffect(t, actor, owner, deposit)
    case RefundDeposit(actor, deposit, key) => RefundEffect(t, actor, deposit, key)
    case AdjustBalance(actor, user, key, amount) => AdjustEffect(t, actor, user, key, amount)
    case GuestCheckout(key, digest, invoice, product, at) => GuestEffect(t, key, digest, invoice, product, at)
    case Enqueue(ref, payload) => EnqueueEffect(t, ref, payload)
    case ClaimProvider(ref) => ClaimEffect(t, ref)
    case MarkAmbiguous(ref, lease) => AmbiguousEffect(t, ref, lease)
    case ReconcileProvider(ref, result) => ReconcileProviderEffect(t, ref, result)
    case Reprice(product, row) => RepriceEffect(t, product, row)
  }
}
