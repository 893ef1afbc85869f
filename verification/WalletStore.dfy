/**
 * The money store run one request at a time. Each method works on its own copy of the committed
 * tables, as a transaction does, and assigns the field only where the transaction commits.
 */
module WalletStore {
  import opened Base
  import opened WalletTables
  import opened WalletSpec
  import opened WalletSoundness
  import opened WalletTerms

  class Store {
    var tables: Tables

    constructor (initial: Tables)
      ensures tables == initial
    {
      tables := initial;
    }

    /** The posting shared by every money operation, inside the caller's transaction `tx`. */
    method PostWithin(
      tx: Tables, user: Uuid, source: string, kind: Kind, direction: Direction, amount: I64) returns (r: Posting)
      ensures r == PostInTx(tx, user, source, kind, direction, amount)
      ensures r.Posted? && Sound(tx) ==>
        r.next == tx.balances[user] + direction.Of(amount) && Find(r.tables.ledger, source).Some?
    {
      if amount <= 0 || source == "" { return Refused(Conflict); }
      if user !in tx.balances { return Refused(Conflict); }
      var next := Wrap64(tx.balances[user] + direction.Of(amount));
      if next < 0 { return Refused(Insufficient); }
      if Find(tx.ledger, source).Some? { return Refused(Conflict); }
      var entry := Entry(user, source, kind, direction, amount, next);
      var written := tx.(ledger := tx.ledger + [entry]);
      written := written.(balances := written.balances[user := next]);
      r := Posted(written, next);
      FindAfterAppend(tx.ledger, entry, source);
      if Sound(tx) {
        PostedExtends(tx, user, source, kind, direction, amount);
      }
    }

    /** `credit`, `debit`, `refund` and `credit_then_abort` are this method at fixed arguments. */
    method Post(
      user: Uuid, source: string, kind: Kind, direction: Direction, amount: I64, abort: bool) returns (reply: Reply)
      modifies this
      ensures Effect(tables, reply) ==
        Execute(old(tables), Program.Post(user, source, kind, direction, amount, abort), None)
      ensures old(Sound(tables)) ==> Sound(tables)
      ensures reply.Err? || abort ==> tables == old(tables)
    {
      ghost var p := Program.Post(user, source, kind, direction, amount, abort);
      if Sound(tables) { ExecuteKeepsSound(tables, p, None); }
      var posting := PostWithin(tables, user, source, kind, direction, amount);
      if posting.Refused? { return Err(posting.error); }
      if abort { return Value(tables.balances[user]); }
      tables := posting.tables;
      reply := Value(posting.next);
    }

    method IdempotentCredit(user: Uuid, key: string, digest: string, amount: I64) returns (reply: Reply)
      modifies this
      ensures Effect(tables, reply) == Execute(old(tables), CreditOnce(user, key, digest, amount), None)
      ensures old(Sound(tables)) ==> Sound(tables)
      ensures reply.Err? ==> tables == old(tables)
    {
      if Sound(tables) { ExecuteKeepsSound(tables, CreditOnce(user, key, digest, amount), None); }
      if amount <= 0 || key == "" || digest == "" { return Err(Conflict); }
      var tx := tables;
      if key in tx.claims {
        var stored := tx.claims[key];
        if stored.digest != digest { return Err(Conflict); }
        match stored.response {
          case None => return Err(Unavailable);
          case Some(balance) => return Value(balance);
        }
      }
      tx := tx.(claims := tx.claims[key := Claim(digest, None)]);
      if user !in tx.balances || I64_MAX < tx.balances[user] + amount { return Err(Unavailable); }
      var balance: I64 := tx.balances[user] + amount;
      tx := tx.(balances := tx.balances[user := balance]);
      if Find(tx.ledger, key).Some? { return Err(Conflict); }
      tx := tx.(ledger := tx.ledger + [Entry(user, key, CreditKind, Credit, amount, balance)]);
      tx := tx.(claims := tx.claims[key := Claim(digest, Some(balance))]);
      assert tx.claims == tables.claims[key := Claim(digest, Some(balance))];
      tables := tx;
      reply := Value(balance);
    }

    method Checkout(
      user: Uuid, key: string, digest: string, product: string, level: string, abort: bool) returns (reply: Reply)
      modifies this
      ensures Effect(tables, reply)
           == Execute(old(tables), Program.Checkout(user, key, digest, product, level, abort),
             ListedPrice(old(tables.products), product, level))
      ensures old(Sound(tables)) ==> Sound(tables)
      ensures reply.Err? || abort ==> tables == old(tables)
      ensures key !in old(tables.orders) && key in tables.orders ==>
        && var price := tables.orders[key].price;
        && PricedAt(old(tables), product, level, price) && 0 < price
        && user in old(tables.balances) && user in tables.balances
        && tables.balances[user] == old(tables.balances[user]) - price && reply == Value(tables.balances[user])
    {
      ghost var p := Program.Checkout(user, key, digest, product, level, abort);
      if Sound(tables) { ExecuteKeepsSound(tables, p, ListedPrice(tables.products, product, level)); }
      if key == "" || digest == "" || product == "" { return Err(Conflict); }
      var tx := tables;
      if key in tx.orders && tx.orders[key].user in tx.balances {
        if tx.orders[key].digest != digest { return Err(Conflict); }
        return Value(tx.balances[tx.orders[key].user]);
      }
      var price := ListedPrice(tx.products, product, level);
      if price.None? || price.value <= 0 { return Err(Conflict); }
      if user !in tx.balances { return Err(Conflict); }
      var balance := tx.balances[user];
      if balance < price.value { return Err(Insufficient); }
      var next: I64 := balance - price.value;
      tx := tx.(balances := tx.balances[user := next]);
      if Find(tx.ledger, key).Some? { return Err(Conflict); }
      tx := tx.(ledger := tx.ledger + [Entry(user, key, DebitKind, Debit, price.value, next)]);
      if key in tx.orders { return Err(Conflict); }
      tx := tx.(orders := tx.orders[key := Order(user, digest, product, level, price.value)]);
      if key in tx.outbox { return Err(Conflict); }
      tx := tx.(outbox := tx.outbox[key := OutboxRow(MemberOrder(product, price.value), Pending, 0, None)]);
      if abort { return Value(balance); }
      tables := tx;
      reply := Value(next);
    }

    method ApproveDeposit(actor: Uuid, owner: bool, deposit: string) returns (reply: Reply)
      modifies this
      ensures Effect(tables, reply) == Execute(old(tables), Program.ApproveDeposit(actor, owner, deposit), None)
      ensures old(Sound(tables)) ==> Sound(tables)
      ensures reply.Err? ==> tables == old(tables)
    {
      if Sound(tables) { ExecuteKeepsSound(tables, Program.ApproveDeposit(actor, owner, deposit), None); }
      if deposit !in tables.deposits { return Err(Conflict); }
      var row := tables.deposits[deposit];
      if row.status == Approved { return Err(Conflict); }
      if row.status != Awaiting || (!owner && row.assignee.Some? && row.assignee.value != actor) {
        return Err(Conflict);
      }
      var net := Wrap64(row.amount - row.fee);
      if net <= 0 { return Err(Conflict); }
      var source := ApprovalSource(deposit);
      var posting := PostWithin(tables, row.user, source, CreditKind, Credit, net);
      if posting.Refused? { return Err(posting.error); }
      var tx := posting.tables;
      tx := tx.(deposits := tx.deposits[deposit := row.(status := Approved)]);
      if source in tx.audits || actor !in tx.balances { return Err(Conflict); }
      tx := tx.(audits := tx.audits[source := Audit(actor, DepositApprove, deposit, net)]);
      tables := tx;
      reply := Value(posting.next);
    }

    method RefundDeposit(actor: Uuid, deposit: string, key: string) returns (reply: Reply)
      modifies this
      ensures Effect(tables, reply) == Execute(old(tables), Program.RefundDeposit(actor, deposit, key), None)
      ensures old(Sound(tables)) ==> Sound(tables)
      ensures reply.Err? ==> tables == old(tables)
    {
      if Sound(tables) { ExecuteKeepsSound(tables, Program.RefundDeposit(actor, deposit, key), None); }
      if key == "" { return Err(Conflict); }
      if RefundRecorded(tables.audits, deposit) && deposit in tables.deposits
        && tables.deposits[deposit].user in tables.balances
      {
        return Value(tables.balances[tables.deposits[deposit].user]);
      }
      if deposit !in tables.deposits { return Err(Conflict); }
      var row := tables.deposits[deposit];
      if row.status != Approved { return Err(Conflict); }
      var approval := Find(tables.ledger, ApprovalSource(deposit));
      if approval.None? { return Err(Conflict); }
      var amount := approval.value.amount;
      var posting := PostWithin(tables, row.user, key, DebitKind, Debit, amount);
      if posting.Refused? { return Err(posting.error); }
      var tx := posting.tables;
      tx := tx.(deposits := tx.deposits[deposit := row.(status := Refunded)]);
      if key in tx.audits || actor !in tx.balances { return Err(Conflict); }
      tx := tx.(audits := tx.audits[key := Audit(actor, DepositRefund, deposit, amount)]);
      tables := tx;
      reply := Value(posting.next);
    }

    method AdjustBalance(actor: Uuid, user: Uuid, key: string, amount: I64) returns (reply: Reply)
      modifies this
      ensures Effect(tables, reply) == Execute(old(tables), Program.AdjustBalance(actor, user, key, amount), None)
      ensures old(Sound(tables)) ==> Sound(tables)
      ensures reply.Err? ==> tables == old(tables)
    {
      if Sound(tables) { ExecuteKeepsSound(tables, Program.AdjustBalance(actor, user, key, amount), None); }
      if key == "" || amount == 0 { return Err(Conflict); }
      var earlier := Find(tables.ledger, key);
      if earlier.Some? && earlier.value.user == user { return Value(earlier.value.balanceAfter); }
      var direction := if amount > 0 then Credit else Debit;
      var value := Abs64(amount);
      var posting := PostWithin(tables, user, key, AdjustmentKind, direction, value);
      if posting.Refused? { return Err(posting.error); }
      var tx := posting.tables;
      if key in tx.audits || actor !in tx.balances { return Err(Conflict); }
      tx := tx.(audits := tx.audits[key := Audit(actor, Adjustment, user, value)]);
      tables := tx;
      reply := Value(posting.next);
    }

    method GuestCheckout(key: string, digest: string, invoice: string, product: string, at: int) returns (reply: Reply)
      modifies this
      ensures Effect(tables, reply) ==
        Execute(old(tables), Program.GuestCheckout(key, digest, invoice, product, at), None)
      ensures old(Sound(tables)) ==> Sound(tables)
      ensures reply.Err? ==> tables == old(tables)
    {
      if Sound(tables) { ExecuteKeepsSound(tables, Program.GuestCheckout(key, digest, invoice, product, at), None); }
      if key == "" || digest == "" || invoice == "" { return Err(Conflict); }
      var tx := tables;
      if key in tx.guests {
        if tx.guests[key].digest != digest { return Err(Conflict); }
        return Value(tx.guests[key].price);
      }
      if product !in tx.products { return Err(Conflict); }
      var row := tx.products[product];
      if !row.active || row.basic <= 0 || row.stock == Some(0) { return Err(Conflict); }
      if row.opens.Some? && row.closes.Some? {
        if at < row.opens.value || at >= row.closes.value { return Err(Conflict); }
      }
      if row.stock.Some? && row.stock.value > 0 {
        tx := tx.(products := tx.products[product := row.(stock := Some(row.stock.value - 1))]);
      }
      if InvoiceTaken(tx.guests, invoice) { return Err(Conflict); }
      tx := tx.(guests := tx.guests[key := GuestOrder(invoice, digest, product, row.basic)]);
      if key in tx.outbox { return Err(Conflict); }
      tx := tx.(outbox := tx.outbox[key := OutboxRow(GuestInvoice(invoice), Pending, 0, None)]);
      assert tx.products == tables.products[product := TakeOne(row)];
      tables := tx;
      reply := Value(row.basic);
    }

    method EnqueueProvider(ref: string, payload: string) returns (reply: Reply)
      modifies this
      ensures Effect(tables, reply) == Execute(old(tables), Enqueue(ref, payload), None)
      ensures old(Sound(tables)) ==> Sound(tables)
    {
      if Sound(tables) { ExecuteKeepsSound(tables, Enqueue(ref, payload), None); }
      if ref in tables.outbox { return Err(Conflict); }
      tables := tables.(outbox := tables.outbox[ref := OutboxRow(Raw(payload), Pending, 0, None)]);
      reply := Unit;
    }

    method ClaimProvider(ref: string) returns (reply: Reply)
      modifies this
      ensures Effect(tables, reply) == Execute(old(tables), Program.ClaimProvider(ref), None)
      ensures old(Sound(tables)) ==> Sound(tables) && (reply.Value? ==> reply.amount == 1)
    {
      if Sound(tables) { ExecuteKeepsSound(tables, Program.ClaimProvider(ref), None); }
      if ref !in tables.outbox || tables.outbox[ref].state != Pending { return Err(Conflict); }
      var row := tables.outbox[ref];
      tables := tables.(outbox := tables.outbox[ref := row.(state := Sending, lease := row.lease + 1)]);
      reply := Value(row.lease + 1);
    }

    method MarkProviderAmbiguous(ref: string, lease: int) returns (reply: Reply)
      modifies this
      ensures Effect(tables, reply) == Execute(old(tables), MarkAmbiguous(ref, lease), None)
      ensures old(Sound(tables)) ==> Sound(tables)
    {
      if Sound(tables) { ExecuteKeepsSound(tables, MarkAmbiguous(ref, lease), None); }
      if ref !in tables.outbox || tables.outbox[ref].state != Sending || tables.outbox[ref].lease != lease {
        return Err(Conflict);
      }
      tables := tables.(outbox := tables.outbox[ref := tables.outbox[ref].(state := Ambiguous)]);
      reply := Unit;
    }

    method ReconcileProvider(ref: string, result: string) returns (reply: Reply)
      modifies this
      ensures Effect(tables, reply) == Execute(old(tables), Program.ReconcileProvider(ref, result), None)
      ensures old(Sound(tables)) ==> Sound(tables)
      ensures reply.Unit? ==> ref in tables.outbox && tables.outbox[ref].result == Some(result)
    {
      if Sound(tables) { ExecuteKeepsSound(tables, Program.ReconcileProvider(ref, result), None); }
      if ref !in tables.outbox { return Err(Conflict); }
      var row := tables.outbox[ref];
      if row.result.Some? {
        return if row.result.value == result then Unit else Err(Conflict);
      }
      if row.state != Ambiguous && row.state != Sending { return Err(Conflict); }
      tables := tables.(outbox := tables.outbox[ref := row.(state := Sent, result := Some(result))]);
      reply := Unit;
    }

    /** Compares a user's balance with the sum of the ledger; an unknown user gives no answer. */
    method Reconcile(user: Uuid) returns (consistent: Option<bool>)
      ensures consistent.None? <==> user !in tables.balances
      ensures consistent.Some? ==> (consistent.value <==> tables.balances[user] == Total(tables.ledger, user))
      ensures Sound(tables) ==> consistent != Some(false)
    {
      if user !in tables.balances { return None; }
      var sum := 0;
      for i := 0 to |tables.ledger|
        invariant sum == Total(tables.ledger[..i], user)
      {
        var e := tables.ledger[i];
        TotalAfterAppend(tables.ledger[..i], e, user);
        assert tables.ledger[..i + 1] == tables.ledger[..i] + [e];
        if e.user == user { sum := sum + e.Signed(); }
      }
      assert tables.ledger[..|tables.ledger|] == tables.ledger;
      consistent := Some(tables.balances[user] == sum);
    }
  }
}
