/**
 * Provider callbacks that settle a purchase, and the points they award and that rewards cost. The
 * books are the wallet's tables with the callback events, the points of the users, the awards, the
 * rewards and the point ledger beside them.
 */
module SettlementSpec {
  import opened Base
  import opened WalletTables
  import opened WalletSpec

  datatype EventRow = EventRow(status: string, refunded: bool)

  datatype Award = Award(source: string, user: Uuid, points: int)

  const I32_MAX := 0x7FFF_FFFF

  datatype Reward = Reward(price: I64, stock: int, status: bool)

  datatype RowKind = Redeem | Giveback

  datatype PointRow = PointRow(userRef: string, reward: int, key: string, points: I64, kind: RowKind)

  datatype Books = Books(
    tables: Tables, events: map<(string, string), EventRow>, points: map<Uuid, I64>, awards: seq<Award>,
    rewards: map<int, Reward>, nextReward: int, rows: seq<PointRow>)

  datatype Verdict =
    | Replay | Applied
    | Missing | Exhausted | TooFewPoints | Claimed | Returned
    | Created(id: int) | Deleted(done: bool)
    | Failed(error: WalletError)

  datatype Result = Result(books: Books, verdict: Verdict)

  /** How a callback's key is spelled inside its sources. */
  function KeyText(provider: string, ref: string): string {
    provider + ":" + ref
  }

  function RefundSource(provider: string, ref: string): string {
    "webhook-refund:" + KeyText(provider, ref)
  }

  function CorrectionSource(provider: string, ref: string): string {
    "webhook-correction:" + KeyText(provider, ref)
  }

  function PointsSource(provider: string, ref: string): string {
    "webhook-points:" + KeyText(provider, ref)
  }

  /** `amount / 10_000 * 100`, on positive amounts. */
  function PointsFor(amount: I64): int
    requires 0 < amount
  {
    amount / 10_000 * 100
  }

  /** A hundred points for each full ten thousand. */
  predicate FairPoints(points: int, amount: I64) {
    points % 100 == 0 && 100 * points <= amount < 100 * (points + 100)
  }

  lemma PointsAreFair(amount: I64, points: int)
    requires 0 < amount
    ensures FairPoints(points, amount) <==> points == PointsFor(amount)
  {
  }

  predicate Awarded(awards: seq<Award>, source: string) {
    exists i :: 0 <= i < |awards| && awards[i].source == source
  }

  /** `INSERT ... ON CONFLICT DO NOTHING`, and the points only if the row went in. */
  function GrantPoints(b: Books, source: string, user: Uuid, points: int): Option<Books> {
    if points <= 0 || Awarded(b.awards, source) then Some(b)
    else if user !in b.points || I64_MAX < b.points[user] + points then None
    else Some(b.(awards := b.awards + [Award(source, user, points)],
      points := b.points[user := b.points[user] + points]))
  }

  /** The wallet side of a callback: the new tables and the refund flag, or why it is refused. */
  datatype Move = Moved(tables: Tables, refunded: bool) | NoMove(verdict: Verdict)

  function MoveMoney(b: Books, provider: string, ref: string, status: string, user: Uuid, amount: I64): Move {
    if (provider, ref) in b.events then
      var current := b.events[(provider, ref)];
      if current.status == status then NoMove(Replay)
      else if current.refunded && current.status == "failed" && status != "failed" then
        match PostInTx(b.tables, user, CorrectionSource(provider, ref), DebitKind, Debit, amount)
        case Refused(error) => NoMove(Failed(error))
        case Posted(tables, _) => Moved(tables, false)
      else NoMove(Failed(Conflict))
    else if status == "failed" then
      match PostInTx(b.tables, user, RefundSource(provider, ref), CreditKind, Credit, amount)
      case Refused(error) => NoMove(Failed(error))
      case Posted(tables, _) => Moved(tables, true)
    else Moved(b.tables, false)
  }

  /** `authentic` is whether the signature is the HMAC of the body. */
  function Callback(
    b: Books, authentic: bool, provider: string, ref: string, status: string, user: Uuid, amount: I64): Result {
    if !authentic || (status != "success" && status != "failed") || amount <= 0 then Result(b, Failed(Conflict))
    else
      match MoveMoney(b, provider, ref, status, user, amount)
      case NoMove(verdict) => Result(b, verdict)
      case Moved(tables, refunded) =>
        var granted :=
          if status == "success" then GrantPoints(b, PointsSource(provider, ref), user, PointsFor(amount)) else Some(b);
        match granted
        case None => Result(b, Failed(Unavailable))
        case Some(g) =>
          Result(g.(tables := tables, events := b.events[(provider, ref) := EventRow(status, refunded)]), Applied)
  }

  // ----- rewards -----

  predicate RowExists(rows: seq<PointRow>, reward: int, key: string) {
    exists i :: 0 <= i < |rows| && rows[i].reward == reward && rows[i].key == key
  }

  /** `parsed` is the user id that `user_ref` spells, `member` whether that user's role is `member`. */
  function ClaimReward(
    b: Books, parsed: Option<Uuid>, userRef: string, reward: int, key: string, member: bool): Result {
    if parsed.None? || key == "" then Result(b, Failed(Conflict))
    else if reward !in b.rewards then Result(b, Missing)
    else if RowExists(b.rows, reward, key) then Result(b, Replay)
    else
      var r := b.rewards[reward];
      if !r.status then Result(b, Missing)
      else if r.stock < 1 then Result(b, Exhausted)
      else if parsed.value !in b.points || !member then Result(b, Missing)
      else if b.points[parsed.value] < r.price then Result(b, TooFewPoints)
      else if r.price <= 0 then Result(b, Failed(Unavailable))
      else
        Result(
          b.(rewards := b.rewards[reward := r.(stock := r.stock - 1)],
             points := b.points[parsed.value := b.points[parsed.value] - r.price],
             rows := b.rows + [PointRow(userRef, reward, key, -r.price, Redeem)]),
          Claimed)
  }

  predicate Refundable(rows: seq<PointRow>, i: int, userRef: string, key: string) {
    0 <= i < |rows| && rows[i].userRef == userRef && rows[i].key == key && rows[i].kind == Redeem && rows[i].points < 0
  }

  predicate SomeRefundable(rows: seq<PointRow>, userRef: string, key: string) {
    exists i :: 0 <= i < |rows| && Refundable(rows, i, userRef, key)
  }

  function RefundKey(key: string): string {
    "refund:" + key
  }

  /** `pick` is the row that the unordered query returns first. */
  function RefundClaim(b: Books, parsed: Option<Uuid>, userRef: string, key: string, pick: int): Result
    requires SomeRefundable(b.rows, userRef, key) ==> Refundable(b.rows, pick, userRef, key)
  {
    if parsed.None? then Result(b, Failed(Conflict))
    else if !SomeRefundable(b.rows, userRef, key) then Result(b, Missing)
    else
      var claim := b.rows[pick];
      if RowExists(b.rows, claim.reward, RefundKey(key)) then Result(b, Replay)
      else if claim.reward in b.rewards && b.rewards[claim.reward].stock == I32_MAX then Result(b, Failed(Unavailable))
      else if parsed.value in b.points && I64_MAX < b.points[parsed.value] - claim.points
      then Result(b, Failed(Unavailable))
      else if claim.points == I64_MIN then Result(b, Failed(Unavailable))
      else
        Result(
          b.(rewards :=
               if claim.reward in b.rewards
               then b.rewards[claim.reward := b.rewards[claim.reward].(stock := b.rewards[claim.reward].stock + 1)]
               else b.rewards,
             points :=
               if parsed.value in b.points
               then b.points[parsed.value := b.points[parsed.value] - claim.points] else b.points,
             rows := b.rows + [PointRow(userRef, claim.reward, RefundKey(key), -claim.points, Giveback)]),
          Returned)
  }

  function CreateReward(b: Books, price: I64, stock: int): Result {
    if price <= 0 || !(0 <= stock <= I32_MAX) then Result(b, Failed(Unavailable))
    else
      Result(
        b.(rewards := b.rewards[b.nextReward := Reward(price, stock, true)], nextReward := b.nextReward + 1),
        Created(b.nextReward))
  }

  predicate HasHistory(rows: seq<PointRow>, reward: int) {
    exists i :: 0 <= i < |rows| && rows[i].reward == reward
  }

  function DeleteReward(b: Books, reward: int): Result {
    if HasHistory(b.rows, reward) then Result(b, Deleted(false))
    else if reward !in b.rewards then Result(b, Deleted(false))
    else Result(b.(rewards := b.rewards - {reward}), Deleted(true))
  }

  /** The catalogue side: price and availability may be edited, the stock only by claims and refunds. */
  function EditReward(b: Books, reward: int, price: I64, status: bool): Result {
    if reward !in b.rewards || price <= 0 then Result(b, Missing)
    else Result(b.(rewards := b.rewards[reward := b.rewards[reward].(price := price, status := status)]), Applied)
  }
}
