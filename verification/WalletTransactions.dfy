/**
 * The money operations as the database sees them: transactions that issue one SQL statement at a
 * time. A transaction is its program together with the answers it has received; `Next` is the
 * statement it issues after them. Writes stay invisible until the transaction finishes.
 */
module WalletTransactions {
  import opened Base
  import opened WalletTables
  import opened WalletSpec

  /** Everything that can be locked by `FOR UPDATE` or reserved by an insert into a unique column. */
  datatype Row =
    | UserRow(user: Uuid)
    | SourceRow(source: string)
    | ClaimRow(key: string)
    | OrderRow(key: string)
    | OutboxRef(ref: string)
    | DepositRow(id: string)
    | AuditRow(key: string)
    | ProductRow(code: string)
    | GuestRow(key: string)
    | InvoiceRow(invoice: string)

  /** What a committed row shows to a transaction that locks it. */
  datatype Cell =
    | BalanceCell(balance: I64)
    | ClaimCell(claim: Claim)
    | OrderCell(order: Order)
    | OutboxCell(row: OutboxRow)
    | DepositCell(deposit: Deposit)
    | ProductCell(product: Product)
    | GuestCell(guest: GuestOrder)
    | Occupied

  function CellOf(t: Tables, r: Row): Option<Cell> {
    match r
    case UserRow(u) => if u in t.balances then Some(BalanceCell(t.balances[u])) else None
    case SourceRow(s) => if Find(t.ledger, s).Some? then Some(Occupied) else None
    case ClaimRow(k) => if k in t.claims then Some(ClaimCell(t.claims[k])) else None
    case OrderRow(k) => if k in t.orders then Some(OrderCell(t.orders[k])) else None
    case OutboxRef(k) => if k in t.outbox then Some(OutboxCell(t.outbox[k])) else None
    case DepositRow(k) => if k in t.deposits then Some(DepositCell(t.deposits[k])) else None
    case AuditRow(k) => if k in t.audits then Some(Occupied) else None
    case ProductRow(k) => if k in t.products then Some(ProductCell(t.products[k])) else None
    case GuestRow(k) => if k in t.guests then Some(GuestCell(t.guests[k])) else None
    case InvoiceRow(i) => if InvoiceTaken(t.guests, i) then Some(Occupied) else None
  }

  /** Plain reads, which take no lock. */
  datatype Query =
    | BalanceOf(user: Uuid)
    | OrderOwnerBalance(key: string)
    | PriceOf(product: string, level: string)
    | RefundReplay(deposit: string)
    | AmountOf(source: string)
    | PostedFor(source: string, user: Uuid)

  function Ask(t: Tables, q: Query): Option<I64> {
    match q
    case BalanceOf(u) => if u in t.balances then Some(t.balances[u]) else None
    case OrderOwnerBalance(k) =>
      if k in t.orders && t.orders[k].user in t.balances then Some(t.balances[t.orders[k].user]) else None
    case PriceOf(product, level) => ListedPrice(t.products, product, level)
    case RefundReplay(d) =>
      if RefundRecorded(t.audits, d) && d in t.deposits && t.deposits[d].user in t.balances then
        Some(t.balances[t.deposits[d].user])
      else None
    case AmountOf(s) => (match Find(t.ledger, s) case Some(e) => Some(e.amount) case None => None)
    case PostedFor(s, u) =>
      (match Find(t.ledger, s) case Some(e) => if e.user == u then Some(e.balanceAfter) else None case None => None)
  }

  /** The rows that a committing transaction writes; the entries are appended to the ledger. */
  datatype Delta = Delta(
    balances: map<Uuid, I64>,
    entries: seq<Entry>,
    claims: map<string, Claim>,
    orders: map<string, Order>,
    outbox: map<string, OutboxRow>,
    deposits: map<string, Deposit>,
    audits: map<string, Audit>,
    products: map<string, Product>,
    guests: map<string, GuestOrder>)

  const NOTHING := Delta(map[], [], map[], map[], map[], map[], map[], map[], map[])

  function Apply(t: Tables, d: Delta): Tables {
    Tables(
      t.balances + d.balances, t.ledger + d.entries, t.claims + d.claims, t.orders + d.orders, t.outbox + d.outbox,
      t.deposits + d.deposits, t.audits + d.audits, t.products + d.products, t.guests + d.guests)
  }

  datatype Stmt =
    | Lock(row: Row)
    | Reserve(row: Row)
    | Read(query: Query)
    | Commit(delta: Delta, reply: Reply)
    | Quit(reply: Reply)

  datatype Answer = Missing | Locked(cell: Cell) | Reserved | Duplicate | Data(number: Option<I64>)

  function Refuse(error: WalletError): Stmt {
    Quit(Err(error))
  }

  // ---- The posting shared by several transactions: answers k and k + 1 of the log ----

  function PostStmt(log: seq<Answer>, k: nat, user: Uuid, source: string, direction: Direction, amount: I64): Stmt
    requires k <= |log|
  {
    if amount <= 0 || source == "" then Refuse(Conflict)
    else if |log| == k then Lock(UserRow(user))
    else if !(log[k].Locked? && log[k].cell.BalanceCell?) then Refuse(Conflict)
    else if Wrap64(log[k].cell.balance + direction.Of(amount)) < 0 then Refuse(Insufficient)
    else if |log| == k + 1 then Reserve(SourceRow(source))
    else Refuse(Conflict)
  }

  predicate PostDone(log: seq<Answer>, k: nat, source: string, direction: Direction, amount: I64) {
    && k + 2 <= |log| && 0 < amount && source != ""
    && log[k].Locked? && log[k].cell.BalanceCell? && 0 <= Wrap64(log[k].cell.balance + direction.Of(amount))
    && log[k + 1].Reserved?
  }

  function PostDelta(
    log: seq<Answer>, k: nat, user: Uuid, source: string, kind: Kind, direction: Direction, amount: I64): Delta
    requires PostDone(log, k, source, direction, amount)
  {
    var next := Wrap64(log[k].cell.balance + direction.Of(amount));
    NOTHING.(balances := map[user := next], entries := [Entry(user, source, kind, direction, amount, next)])
  }

  // ---- The statement that each program issues next ----

  function NextPost(
    log: seq<Answer>, user: Uuid, source: string, kind: Kind, direction: Direction, amount: I64, abort: bool): Stmt {
    if !PostDone(log, 0, source, direction, amount) then PostStmt(log, 0, user, source, direction, amount)
    else if abort then Quit(Value(log[0].cell.balance))
    else Commit(PostDelta(log, 0, user, source, kind, direction, amount),
                Value(Wrap64(log[0].cell.balance + direction.Of(amount))))
  }

  function NextCreditOnce(log: seq<Answer>, user: Uuid, key: string, digest: string, amount: I64): Stmt {
    if amount <= 0 || key == "" || digest == "" then Refuse(Conflict)
    else if |log| == 0 then Lock(ClaimRow(key))
    else if log[0].Locked? && log[0].cell.ClaimCell? then
      var stored := log[0].cell.claim;
      if stored.digest != digest then Refuse(Conflict)
      else if stored.response.None? then Refuse(Unavailable)
      else Quit(Value(stored.response.value))
    else if |log| == 1 then Reserve(ClaimRow(key))
    else if !log[1].Reserved? then Refuse(Conflict)
    else if |log| == 2 then Lock(UserRow(user))
    else if !(log[2].Locked? && log[2].cell.BalanceCell?) then Refuse(Unavailable)
    else if I64_MAX < log[2].cell.balance + amount then Refuse(Unavailable)
    else if |log| == 3 then Reserve(SourceRow(key))
    else if !log[3].Reserved? then Refuse(Conflict)
    else
      var next := log[2].cell.balance + amount;
      Commit(
        NOTHING.(balances := map[user := next], entries := [Entry(user, key, CreditKind, Credit, amount, next)],
                 claims := map[key := Claim(digest, Some(next))]),
        Value(next))
  }

  function NextCheckout(
    log: seq<Answer>, user: Uuid, key: string, digest: string, product: string, level: string, abort: bool): Stmt
  {
    if key == "" || digest == "" || product == "" then Refuse(Conflict)
    else if |log| == 0 then Lock(OrderRow(key))
    else if log[0].Locked? && log[0].cell.OrderCell? then
      if log[0].cell.order.digest != digest then Refuse(Conflict)
      else if |log| == 1 then Read(OrderOwnerBalance(key))
      else if log[1].Data? && log[1].number.Some? then Quit(Value(log[1].number.value))
      else Refuse(Conflict)
    else if |log| == 1 then Read(PriceOf(product, level))
    else if !log[1].Data? || log[1].number.None? || log[1].number.value <= 0 then Refuse(Conflict)
    else if |log| == 2 then Lock(UserRow(user))
    else if !(log[2].Locked? && log[2].cell.BalanceCell?) then Refuse(Conflict)
    else
      var price, balance := log[1].number.value, log[2].cell.balance;
      if balance < price then Refuse(Insufficient)
      else if |log| == 3 then Reserve(SourceRow(key))
      else if !log[3].Reserved? then Refuse(Conflict)
      else if |log| == 4 then Reserve(OrderRow(key))
      else if !log[4].Reserved? then Refuse(Conflict)
      else if |log| == 5 then Reserve(OutboxRef(key))
      else if !log[5].Reserved? then Refuse(Conflict)
      else if abort then Quit(Value(balance))
      else
        Commit(
          NOTHING.(balances := map[user := balance - price],
                   entries := [Entry(user, key, DebitKind, Debit, price, balance - price)],
                   orders := map[key := Order(user, digest, product, level, price)],
                   outbox := map[key := OutboxRow(MemberOrder(product, price), Pending, 0, None)]),
          Value(balance - price))
  }

  /** The last statements of an audited posting: the audit row and its actor. */
  function AuditStmt(log: seq<Answer>, k: nat, key: string, actor: Uuid): Stmt
    requires k <= |log|
  {
    if |log| == k then Reserve(AuditRow(key))
    else if !log[k].Reserved? then Refuse(Conflict)
    else if |log| == k + 1 then Read(BalanceOf(actor))
    else Refuse(Conflict)
  }

  predicate AuditDone(log: seq<Answer>, k: nat) {
    k + 2 <= |log| && log[k].Reserved? && log[k + 1].Data? && log[k + 1].number.Some?
  }

  function NextApprove(log: seq<Answer>, actor: Uuid, owner: bool, deposit: string): Stmt {
    if |log| == 0 then Lock(DepositRow(deposit))
    else if !(log[0].Locked? && log[0].cell.DepositCell?) then Refuse(Conflict)
    else
      var d := log[0].cell.deposit;
      var net, source := Wrap64(d.amount - d.fee), ApprovalSource(deposit);
      if d.status != Awaiting || (!owner && d.assignee.Some? && d.assignee.value != actor) then Refuse(Conflict)
      else if !PostDone(log, 1, source, Credit, net) then PostStmt(log, 1, d.user, source, Credit, net)
      else if !AuditDone(log, 3) then AuditStmt(log, 3, source, actor)
      else
        Commit(
          PostDelta(log, 1, d.user, source, CreditKind, Credit, net).(
            deposits := map[deposit := d.(status := Approved)],
            audits := map[source := Audit(actor, DepositApprove, deposit, net)]),
          Value(Wrap64(log[1].cell.balance + net)))
  }

  function NextRefund(log: seq<Answer>, actor: Uuid, deposit: string, key: string): Stmt {
    if key == "" then Refuse(Conflict)
    else if |log| == 0 then Read(RefundReplay(deposit))
    else if log[0].Data? && log[0].number.Some? then Quit(Value(log[0].number.value))
    else if |log| == 1 then Lock(DepositRow(deposit))
    else if !(log[1].Locked? && log[1].cell.DepositCell?) then Refuse(Conflict)
    else
      var d := log[1].cell.deposit;
      if d.status != Approved then Refuse(Conflict)
      else if |log| == 2 then Read(AmountOf(ApprovalSource(deposit)))
      else if !log[2].Data? || log[2].number.None? then Refuse(Conflict)
      else
        var amount := log[2].number.value;
        if !PostDone(log, 3, key, Debit, amount) then PostStmt(log, 3, d.user, key, Debit, amount)
        else if !AuditDone(log, 5) then AuditStmt(log, 5, key, actor)
        else
          Commit(
            PostDelta(log, 3, d.user, key, DebitKind, Debit, amount).(
              deposits := map[deposit := d.(status := Refunded)],
              audits := map[key := Audit(actor, DepositRefund, deposit, amount)]),
            Value(Wrap64(log[3].cell.balance - amount)))
  }

  function NextAdjust(log: seq<Answer>, actor: Uuid, user: Uuid, key: string, amount: I64): Stmt {
    if key == "" || amount == 0 then Refuse(Conflict)
    else if |log| == 0 then Read(PostedFor(key, user))
    else if log[0].Data? && log[0].number.Some? then Quit(Value(log[0].number.value))
    else
      var direction, value := if amount > 0 then Credit else Debit, Abs64(amount);
      if !PostDone(log, 1, key, direction, value) then PostStmt(log, 1, user, key, direction, value)
      else if !AuditDone(log, 3) then AuditStmt(log, 3, key, actor)
      else
        Commit(
          PostDelta(log, 1, user, key, AdjustmentKind, direction, value).(
            audits := map[key := Audit(actor, Adjustment, user, value)]),
          Value(Wrap64(log[1].cell.balance + direction.Of(value))))
  }

  function NextGuest(log: seq<Answer>, key: string, digest: string, invoice: string, product: string, at: int): Stmt {
    if key == "" || digest == "" || invoice == "" then Refuse(Conflict)
    else if |log| == 0 then Lock(GuestRow(key))
    else if log[0].Locked? && log[0].cell.GuestCell? then
      if log[0].cell.guest.digest == digest then Quit(Value(log[0].cell.guest.price)) else Refuse(Conflict)
    else if |log| == 1 then Lock(ProductRow(product))
    else if !(log[1].Locked? && log[1].cell.ProductCell?) then Refuse(Conflict)
    else
      var p := log[1].cell.product;
      if !OnSale(p, at) then Refuse(Conflict)
      else if |log| == 2 then Reserve(InvoiceRow(invoice))
      else if !log[2].Reserved? then Refuse(Conflict)
      else if |log| == 3 then Reserve(GuestRow(key))
      else if !log[3].Reserved? then Refuse(Conflict)
      else if |log| == 4 then Reserve(OutboxRef(key))
      else if !log[4].Reserved? then Refuse(Conflict)
      else
        Commit(
          NOTHING.(products := map[product := TakeOne(p)],
                   guests := map[key := GuestOrder(invoice, digest, product, p.basic)],
                   outbox := map[key := OutboxRow(GuestInvoice(invoice), Pending, 0, None)]),
          Value(p.basic))
  }

  function NextEnqueue(log: seq<Answer>, ref: string, payload: string): Stmt {
    if |log| == 0 then Reserve(OutboxRef(ref))
    else if !log[0].Reserved? then Refuse(Conflict)
    else Commit(NOTHING.(outbox := map[ref := OutboxRow(Raw(payload), Pending, 0, None)]), Unit)
  }

  function NextClaim(log: seq<Answer>, ref: string): Stmt {
    if |log| == 0 then Lock(OutboxRef(ref))
    else if !(log[0].Locked? && log[0].cell.OutboxCell?) || log[0].cell.row.state != Pending then Refuse(Conflict)
    else
      var row := log[0].cell.row;
      Commit(NOTHING.(outbox := map[ref := row.(state := Sending, lease := row.lease + 1)]), Value(row.lease + 1))
  }

  function NextAmbiguous(log: seq<Answer>, ref: string, lease: int): Stmt {
    if |log| == 0 then Lock(OutboxRef(ref))
    else if !(log[0].Locked? && log[0].cell.OutboxCell?) then Refuse(Conflict)
    else if log[0].cell.row.state != Sending || log[0].cell.row.lease != lease then Refuse(Conflict)
    else Commit(NOTHING.(outbox := map[ref := log[0].cell.row.(state := Ambiguous)]), Unit)
  }

  function NextReconcileProvider(log: seq<Answer>, ref: string, result: string): Stmt {
    if |log| == 0 then Lock(OutboxRef(ref))
    else if !(log[0].Locked? && log[0].cell.OutboxCell?) then Refuse(Conflict)
    else
      var row := log[0].cell.row;
      if row.result.Some? then Quit(if row.result.value == result then Unit else Err(Conflict))
      else if row.state != Ambiguous && row.state != Sending then Refuse(Conflict)
      else Commit(NOTHING.(outbox := map[ref := row.(state := Sent, result := Some(result))]), Unit)
  }

  function NextReprice(log: seq<Answer>, code: string, row: Product): Stmt {
    if row.basic < 0 || row.gold < 0 || row.platinum < 0 then Refuse(Conflict)
    else if |log| == 0 then Lock(ProductRow(code))
    else if !(log[0].Locked? && log[0].cell.ProductCell?) then Refuse(Conflict)
    else Commit(NOTHING.(products := map[code := row.(stock := log[0].cell.product.stock)]), Unit)
  }

  function Next(p: Program, log: seq<Answer>): Stmt {
    match p
    case Post(user, source, kind, direction, amount, abort) =>
      NextPost(log, user, source, kind, direction, amount, abort)
    case CreditOnce(user, key, digest, amount) => NextCreditOnce(log, user, key, digest, amount)
    case Checkout(user, key, digest, product, level, abort) =>
      NextCheckout(log, user, key, digest, product, level, abort)
    case ApproveDeposit(actor, owner, deposit) => NextApprove(log, actor, owner, deposit)
    case RefundDeposit(actor, deposit, key) => NextRefund(log, actor, deposit, key)
    case AdjustBalance(actor, user, key, amount) => NextAdjust(log, actor, user, key, amount)
    case GuestCheckout(key, digest, invoice, product, at) => NextGuest(log, key, digest, invoice, product, at)
    case Enqueue(ref, payload) => NextEnqueue(log, ref, payload)
    case ClaimProvider(ref) => NextClaim(log, ref)
    case MarkAmbiguous(ref, lease) => NextAmbiguous(log, ref, lease)
    case ReconcileProvider(ref, result) => NextReconcileProvider(log, ref, result)
    case Reprice(product, row) => NextReprice(log, product, row)
  }

  /** The unlocked price that a checkout has read so far. */
  function QuoteOf(p: Program, log: seq<Answer>): Option<I64> {
    if p.Checkout? && |log| > 1 && log[1].Data? then log[1].number else None
  }
}
