/**
 * The committed rows that the money store works on, one map per SQL table, and the ledger as the
 * sequence of its entries in commit order. Unique columns are map keys, except for
 * `ledger_entries.source` and `guest_orders.invoice`, whose uniqueness is an invariant that the
 * inserts check.
 */
module WalletTables {
  import opened Base

  datatype WalletError = Insufficient | Conflict | Unavailable

  datatype Reply = Value(amount: int) | Unit | Err(error: WalletError)

  datatype Direction = Credit | Debit {
    /** `i64::from(direction) * amount` */
    function Of(amount: int): int {
      if Credit? then amount else -amount
    }
  }

  datatype Kind = DebitKind | CreditKind | AdjustmentKind | RefundKind

  datatype Entry = Entry(user: Uuid, source: string, kind: Kind, direction: Direction, amount: I64, balanceAfter: I64) {
    function Signed(): int {
      direction.Of(amount)
    }
  }

  datatype Claim = Claim(digest: string, response: Option<I64>)

  datatype Order = Order(user: Uuid, digest: string, product: string, level: string, price: I64)

  datatype GuestOrder = GuestOrder(invoice: string, digest: string, product: string, price: I64)

  datatype Payload = MemberOrder(product: string, price: int) | GuestInvoice(invoice: string) | Raw(text: string)

  datatype SendState = Pending | Sending | Ambiguous | Sent

  datatype OutboxRow = OutboxRow(payload: Payload, state: SendState, lease: int, result: Option<string>)

  datatype DepositStatus = Awaiting | Approved | Rejected | Refunded

  datatype Deposit = Deposit(user: Uuid, amount: I64, fee: I64, status: DepositStatus, assignee: Option<Uuid>)

  datatype AuditAction = DepositApprove | DepositRefund | Adjustment

  datatype Audit = Audit(actor: Uuid, action: AuditAction, subject: string, amount: I64)

  datatype Product = Product(
    basic: I64, gold: I64, platinum: I64, stock: Option<int>, active: bool, opens: Option<int>, closes: Option<int>)

  datatype Tables = Tables(
    balances: map<Uuid, I64>,
    ledger: seq<Entry>,
    claims: map<string, Claim>,
    orders: map<string, Order>,
    outbox: map<string, OutboxRow>,
    deposits: map<string, Deposit>,
    audits: map<string, Audit>,
    products: map<string, Product>,
    guests: map<string, GuestOrder>)

  /** The ledger entry with the given source, if one is committed. */
  function Find(ledger: seq<Entry>, source: string): (e: Option<Entry>)
    ensures e.Some? ==> e.value in ledger && e.value.source == source
    ensures e.None? ==> forall i {:trigger ledger[i].source} :: 0 <= i < |ledger| ==> ledger[i].source != source
  {
    if |ledger| == 0 then None
    else if ledger[|ledger| - 1].source == source then Some(ledger[|ledger| - 1])
    else Find(ledger[..|ledger| - 1], source)
  }

  /** The signed sum of a user's entries: what `reconcile` compares the balance with. */
  function Total(ledger: seq<Entry>, user: Uuid): int {
    if |ledger| == 0 then 0
    else
      var last := ledger[|ledger| - 1];
      Total(ledger[..|ledger| - 1], user) + if last.user == user then last.Signed() else 0
  }

  lemma {:induction false} FindAfterAppend(ledger: seq<Entry>, e: Entry, source: string)
    ensures Find(ledger + [e], source) == if e.source == source then Some(e) else Find(ledger, source)
  {
    assert (ledger + [e])[..|ledger|] == ledger;
  }

  lemma {:induction false} TotalAfterAppend(ledger: seq<Entry>, e: Entry, user: Uuid)
    ensures Total(ledger + [e], user) == Total(ledger, user) + if e.user == user then e.Signed() else 0
  {
    assert (ledger + [e])[..|ledger|] == ledger;
  }

  /** A member of a ledger without repeated sources is the entry that its own source finds. */
  lemma {:induction false} FindMember(ledger: seq<Entry>, i: nat)
    requires i < |ledger|
    requires forall a, b :: 0 <= a < b < |ledger| ==> ledger[a].source != ledger[b].source
    ensures Find(ledger, ledger[i].source) == Some(ledger[i])
  {
    var n := |ledger| - 1;
    if i < n {
      assert ledger[..n][i] == ledger[i];
      FindMember(ledger[..n], i);
    }
  }

  function ApprovalSource(deposit: string): string {
    "deposit-approve:" + deposit
  }

  function InvoiceTaken(guests: map<string, GuestOrder>, invoice: string): bool {
    exists k :: k in guests && guests[k].invoice == invoice
  }

  function RefundRecorded(audits: map<string, Audit>, deposit: string): bool {
    exists k :: k in audits && audits[k].action == DepositRefund && audits[k].subject == deposit
  }

  /** The price column that a member level selects; unknown levels pay the basic price. */
  function ListedPrice(products: map<string, Product>, code: string, level: string): Option<I64> {
    if code !in products then None
    else if level == "gold" then Some(products[code].gold)
    else if level == "platinum" then Some(products[code].platinum)
    else Some(products[code].basic)
  }
}
