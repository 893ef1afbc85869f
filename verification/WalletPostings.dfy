/** Under which source each wallet operation posts, exactly when it does, and that it touches no other. */
module WalletPostings {
  import opened Base
  import opened WalletTables
  import opened WalletSpec
  import opened WalletSoundness

  /** The source under which a wallet operation posts, if it posts at all. */
  function Writes(p: Program): string {
    match p
    case Post(_, source, _, _, _, _) => source
    case CreditOnce(_, key, _, _) => key
    case Checkout(_, key, _, _, _, _) => key
    case ApproveDeposit(_, _, deposit) => ApprovalSource(deposit)
    case RefundDeposit(_, _, key) => key
    case AdjustBalance(_, _, key, _) => key
    case _ => ""
  }

  /** A posting is found under its own source and changes no other. */
  lemma {:induction false} PostingFinds(
    t: Tables, user: Uuid, source: string, kind: Kind, direction: Direction, amount: I64, other: string)
    requires PostInTx(t, user, source, kind, direction, amount).Posted?
    ensures var t' := PostInTx(t, user, source, kind, direction, amount).tables;
      && (other != source ==> Find(t'.ledger, other) == Find(t.ledger, other))
      && Find(t.ledger, source).None?
      && Find(t'.ledger, source).Some? && t'.balances.Keys == t.balances.Keys
      && var e := Find(t'.ledger, source).value; e.user == user && e.direction == direction && e.amount == amount
  {
    var r := PostInTx(t, user, source, kind, direction, amount);
    var e := Entry(user, source, kind, direction, amount, r.next);
    FindAfterAppend(t.ledger, e, other);
    FindAfterAppend(t.ledger, e, source);
  }

  lemma {:induction false} AppendFinds(t: Tables, e: Entry, other: string)
    requires other != e.source
    ensures Find(WithEntry(t, e).ledger, other) == Find(t.ledger, other)
  {
    FindAfterAppend(t.ledger, e, other);
  }

  lemma {:induction false} ApprovalFinds(t: Tables, actor: Uuid, owner: bool, deposit: string, other: string)
    requires other != ApprovalSource(deposit) || Find(t.ledger, other).Some?
    ensures Find(ApproveEffect(t, actor, owner, deposit).tables.ledger, other) == Find(t.ledger, other)
  {
    var e, a := ApprovalShape(t, actor, owner, deposit);
    if ApproveEffect(t, actor, owner, deposit).tables != t { AppendFinds(t, e, other); }
  }

  lemma {:induction false} RefundFinds(t: Tables, actor: Uuid, deposit: string, key: string, other: string)
    requires other != key || Find(t.ledger, other).Some?
    ensures Find(RefundEffect(t, actor, deposit, key).tables.ledger, other) == Find(t.ledger, other)
  {
    if deposit in t.deposits && Find(t.ledger, ApprovalSource(deposit)).Some? {
      var user, amount := t.deposits[deposit].user, Find(t.ledger, ApprovalSource(deposit)).value.amount;
      if PostInTx(t, user, key, DebitKind, Debit, amount).Posted? {
        PostingFinds(t, user, key, DebitKind, Debit, amount, other);
      }
    }
  }

  lemma {:induction false} CreditFinds(t: Tables, user: Uuid, key: string, digest: string, amount: I64, other: string)
    requires other != key || Find(t.ledger, other).Some?
    ensures Find(CreditOnceEffect(t, user, key, digest, amount).tables.ledger, other) == Find(t.ledger, other)
  {
    if user in t.balances && I64_MIN <= t.balances[user] + amount <= I64_MAX && Find(t.ledger, key).None? {
      AppendFinds(t, Entry(user, key, CreditKind, Credit, amount, t.balances[user] + amount), other);
    }
  }

  lemma {:induction false} CheckoutFinds(
    t: Tables, user: Uuid, key: string, digest: string, product: string, level: string, abort: bool,
    quote: Option<I64>, other: string)
    requires other != key || Find(t.ledger, other).Some?
    ensures Find(CheckoutEffect(t, user, key, digest, product, level, abort, quote).tables.ledger, other) ==
      Find(t.ledger, other)
  {
    if user in t.balances && quote.Some? && 0 <= t.balances[user] - quote.value <= I64_MAX
      && Find(t.ledger, key).None?
    {
      AppendFinds(t, Entry(user, key, DebitKind, Debit, quote.value, t.balances[user] - quote.value), other);
    }
  }

  lemma {:induction false} PostFinds(
    t: Tables, user: Uuid, source: string, kind: Kind, direction: Direction, amount: I64, abort: bool, other: string)
    requires other != source || Find(t.ledger, other).Some?
    ensures Find(PostEffect(t, user, source, kind, direction, amount, abort).tables.ledger, other) ==
      Find(t.ledger, other)
  {
    if PostInTx(t, user, source, kind, direction, amount).Posted? {
      PostingFinds(t, user, source, kind, direction, amount, other);
    }
  }

  lemma {:induction false} AdjustFinds(t: Tables, actor: Uuid, user: Uuid, key: string, amount: I64, other: string)
    requires other != key || Find(t.ledger, other).Some?
    ensures Find(AdjustEffect(t, actor, user, key, amount).tables.ledger, other) == Find(t.ledger, other)
  {
    var direction := if amount > 0 then Credit else Debit;
    if PostInTx(t, user, key, AdjustmentKind, direction, Abs64(amount)).Posted? {
      PostingFinds(t, user, key, AdjustmentKind, direction, Abs64(amount), other);
    }
  }

  /** A wallet operation posts under its own source only. */
  lemma {:induction false} OperationFinds(t: Tables, p: Program, quote: Option<I64>, other: string)
    requires other != Writes(p) || Find(t.ledger, other).Some?
    ensures Find(Execute(t, p, quote).tables.ledger, other) == Find(t.ledger, other)
  {
    match p
    case Post(user, source, kind, direction, amount, abort) =>
      PostFinds(t, user, source, kind, direction, amount, abort, other);
    case AdjustBalance(actor, user, key, amount) => AdjustFinds(t, actor, user, key, amount, other);
    case ApproveDeposit(actor, owner, deposit) => ApprovalFinds(t, actor, owner, deposit, other);
    case RefundDeposit(actor, deposit, key) => RefundFinds(t, actor, deposit, key, other);
    case CreditOnce(user, key, digest, amount) => CreditFinds(t, user, key, digest, amount, other);
    case Checkout(user, key, digest, product, level, abort) =>
      CheckoutFinds(t, user, key, digest, product, level, abort, quote, other);
    case _ =>
  }

  // ----- exactly when it posts -----

  /** One entry that adds to the user's balance or takes from it, and leaves it within 64 bits and not below zero. */
  predicate Entered(
    t: Tables, t': Tables, user: Uuid, source: string, kind: Kind, direction: Direction, amount: int)
  {
    && user in t.balances && 0 < amount <= I64_MAX
    && var left := if direction == Credit then t.balances[user] + amount else t.balances[user] - amount;
    && 0 <= left <= I64_MAX && t'.balances == t.balances[user := left]
    && t'.ledger == t.ledger + [Entry(user, source, kind, direction, amount, left)]
  }

  predicate PostingFits(t: Tables, source: string, user: Uuid, change: int) {
    user in t.balances && Wrap64(t.balances[user] + change) >= 0 && Find(t.ledger, source).None?
  }

  lemma Enters(t: Tables, user: Uuid, source: string, kind: Kind, direction: Direction, amount: I64)
    requires user in t.balances ==> 0 <= t.balances[user]
    ensures var posting := PostInTx(t, user, source, kind, direction, amount);
      && (posting.Posted? <==> 0 < amount && source != "" && PostingFits(t, source, user, direction.Of(amount)))
      && (posting.Posted? ==>
            && Entered(t, posting.tables, user, source, kind, direction, amount)
            && posting.tables == t.(balances := posting.tables.balances, ledger := posting.tables.ledger)
            && posting.tables != t && posting.next == posting.tables.balances[user])
  {
  }

  /** The guards of each operation that posts, before it posts. */
  predicate Posts(t: Tables, p: Program, quote: Option<I64>) {
    match p
    case Post(user, source, _, direction, amount, abort) =>
      !abort && 0 < amount && source != "" && PostingFits(t, source, user, direction.Of(amount))
    case CreditOnce(user, key, digest, amount) =>
      && 0 < amount && key != "" && digest != "" && key !in t.claims
      && user in t.balances && t.balances[user] + amount <= I64_MAX && Find(t.ledger, key).None?
    case Checkout(user, key, digest, product, _, abort) =>
      && !abort && key != "" && digest != "" && product != "" && key !in t.orders && key !in t.outbox
      && quote.Some? && 0 < quote.value && user in t.balances && quote.value <= t.balances[user]
      && Find(t.ledger, key).None?
    case ApproveDeposit(actor, owner, deposit) =>
      deposit in t.deposits && Approvable(t, t.deposits[deposit], actor, owner, deposit)
    case RefundDeposit(actor, deposit, key) => key != "" && deposit in t.deposits && Returnable(t, actor, deposit, key)
    case AdjustBalance(actor, user, key, amount) =>
      && key != "" && 0 < Abs64(amount) && key !in t.audits && actor in t.balances
      && PostingFits(t, key, user, (if amount > 0 then Credit else Debit).Of(Abs64(amount)))
    case _ => false
  }

  predicate Approvable(t: Tables, d: Deposit, actor: Uuid, owner: bool, deposit: string) {
    var net := Wrap64(d.amount - d.fee);
    && d.status == Awaiting && (owner || d.assignee.None? || d.assignee.value == actor) && 0 < net
    && ApprovalSource(deposit) !in t.audits && actor in t.balances
    && PostingFits(t, ApprovalSource(deposit), d.user, net)
  }

  predicate Returnable(t: Tables, actor: Uuid, deposit: string, key: string)
    requires deposit in t.deposits
  {
    var d, approval := t.deposits[deposit], Find(t.ledger, ApprovalSource(deposit));
    && !(RefundRecorded(t.audits, deposit) && d.user in t.balances) && d.status == Approved
    && approval.Some? && 0 < approval.value.amount && key !in t.audits && actor in t.balances
    && PostingFits(t, key, d.user, -approval.value.amount)
  }

  lemma {:induction false} PostingGoesThrough(
    t: Tables, user: Uuid, source: string, kind: Kind, direction: Direction, amount: I64)
    ensures var posting := PostInTx(t, user, source, kind, direction, amount);
      && (posting.Posted? <==> 0 < amount && source != "" && PostingFits(t, source, user, direction.Of(amount)))
      && (posting.Posted? ==> Find(posting.tables.ledger, source).Some?)
  {
    if PostInTx(t, user, source, kind, direction, amount).Posted? {
      PostingFinds(t, user, source, kind, direction, amount, "");
    }
  }

  lemma {:induction false} PostPosts(t: Tables, p: Program)
    requires p.Post? && Find(t.ledger, p.source).None?
    ensures Find(Execute(t, p, None).tables.ledger, p.source).Some? <==> Posts(t, p, None)
  {
    PostingGoesThrough(t, p.user, p.source, p.kind, p.direction, p.amount);
  }

  lemma {:induction false} PurchasePosts(t: Tables, p: Program, quote: Option<I64>)
    requires (p.CreditOnce? || p.Checkout?) && Find(t.ledger, p.key).None?
    ensures Find(Execute(t, p, quote).tables.ledger, p.key).Some? <==> Posts(t, p, quote)
  {
    if Posts(t, p, quote) {
      var balance := t.balances[p.user];
      var entry :=
        if p.CreditOnce? then Entry(p.user, p.key, CreditKind, Credit, p.amount, balance + p.amount)
        else Entry(p.user, p.key, DebitKind, Debit, quote.value, balance - quote.value);
      FindAfterAppend(t.ledger, entry, p.key);
    }
  }

  lemma {:induction false} ApprovePosts(t: Tables, p: Program)
    requires p.ApproveDeposit? && Find(t.ledger, ApprovalSource(p.deposit)).None?
    ensures Find(Execute(t, p, None).tables.ledger, ApprovalSource(p.deposit)).Some? <==> Posts(t, p, None)
  {
    if p.deposit in t.deposits {
      var d := t.deposits[p.deposit];
      PostingGoesThrough(t, d.user, ApprovalSource(p.deposit), CreditKind, Credit, Wrap64(d.amount - d.fee));
    }
  }

  lemma {:induction false} RefundPosts(t: Tables, p: Program)
    requires p.RefundDeposit? && Find(t.ledger, p.key).None?
    ensures Find(Execute(t, p, None).tables.ledger, p.key).Some? <==> Posts(t, p, None)
  {
    var approval := Find(t.ledger, ApprovalSource(p.deposit));
    if p.deposit in t.deposits && approval.Some? {
      PostingGoesThrough(t, t.deposits[p.deposit].user, p.key, DebitKind, Debit, approval.value.amount);
    }
  }

  lemma {:induction false} AdjustPosts(t: Tables, actor: Uuid, user: Uuid, key: string, amount: I64)
    requires Find(t.ledger, key).None?
    ensures Find(AdjustEffect(t, actor, user, key, amount).tables.ledger, key).Some? <==>
      Posts(t, AdjustBalance(actor, user, key, amount), None)
  {
    var direction := if amount > 0 then Credit else Debit;
    PostingGoesThrough(t, user, key, AdjustmentKind, direction, Abs64(amount));
  }

  /** An operation whose source is free takes it exactly when its guards hold; where they hold, the source is free. */
  lemma PostsExactly(t: Tables, p: Program, quote: Option<I64>)
    ensures Posts(t, p, quote) <==>
      Find(t.ledger, Writes(p)).None? && Find(Execute(t, p, quote).tables.ledger, Writes(p)).Some?
  {
    if Find(t.ledger, Writes(p)).None? {
      match p
      case Post(_, _, _, _, _, _) => PostPosts(t, p);
      case CreditOnce(_, _, _, _) => PurchasePosts(t, p, quote);
      case Checkout(_, _, _, _, _, _) => PurchasePosts(t, p, quote);
      case ApproveDeposit(_, _, _) => ApprovePosts(t, p);
      case RefundDeposit(_, _, _) => RefundPosts(t, p);
      case AdjustBalance(actor, user, key, amount) => AdjustPosts(t, actor, user, key, amount);
      case _ =>
    }
  }
}
