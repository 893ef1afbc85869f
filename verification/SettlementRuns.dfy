/**
 * Runs of callbacks, reward claims and refunds, catalogue edits and other wallet operations, one at
 * a time. Any of them may use any provider, reference, key, user and amount.
 */
module SettlementRuns {
  import opened Base
  import opened WalletTables
  import opened WalletSpec
  import opened WalletSoundness
  import opened WalletPostings
  import opened SettlementSpec

  /** What a purchase was: whose, and for how much. */
  datatype Deal = Deal(user: Uuid, amount: I64)

  /** `parse` reads a user reference as a user id. */
  datatype Config = Config(parse: string -> Option<Uuid>)

  datatype Event =
    | Hook(authentic: bool, provider: string, ref: string, status: string, user: Uuid, amount: I64)
    | Take(userRef: string, reward: int, key: string, member: bool)
    | GiveBack(userRef: string, key: string, pick: int)
    | Add(price: I64, stock: int)
    | Drop(reward: int)
    | Edit(reward: int, price: I64, open: bool)
    | Money(program: Program, quote: Option<I64>)

  predicate Enabled(b: Books, e: Event) {
    match e
    case GiveBack(userRef, key, pick) => SomeRefundable(b.rows, userRef, key) ==> Refundable(b.rows, pick, userRef, key)
    case _ => true
  }

  function Do(cfg: Config, b: Books, e: Event): Books
    requires Enabled(b, e)
  {
    match e
    case Hook(authentic, provider, ref, status, user, amount) =>
      Callback(b, authentic, provider, ref, status, user, amount).books
    case Take(userRef, reward, key, member) => ClaimReward(b, cfg.parse(userRef), userRef, reward, key, member).books
    case GiveBack(userRef, key, pick) => RefundClaim(b, cfg.parse(userRef), userRef, key, pick).books
    case Add(price, stock) => CreateReward(b, price, stock).books
    case Drop(reward) => DeleteReward(b, reward).books
    case Edit(reward, price, open) => EditReward(b, reward, price, open).books
    case Money(program, quote) => b.(tables := Execute(b.tables, program, quote).tables)
  }

  predicate Legal(cfg: Config, b: Books, es: seq<Event>)
    decreases |es|
  {
    |es| == 0 || (Enabled(b, es[0]) && Legal(cfg, Do(cfg, b, es[0]), es[1..]))
  }

  function After(cfg: Config, b: Books, es: seq<Event>): Books
    requires Legal(cfg, b, es)
    decreases |es|
  {
    if |es| == 0 then b else After(cfg, Do(cfg, b, es[0]), es[1..])
  }

  // ----- what the sources of different callbacks have to do with each other -----

  predicate NoColon(s: string) {
    forall i :: 0 <= i < |s| ==> s[i] != ':'
  }

  lemma ColonSplits(p: string, r: string, q: string, s: string)
    requires NoColon(p) && NoColon(q) && KeyText(p, r) == KeyText(q, s)
    ensures p == q && r == s
  {
    var x := KeyText(p, r);
    assert x[|p|] == ':' && x[|q|] == ':';
    assert x[..|p|] == p && x[..|q|] == q;
    assert x[|p| + 1..] == r && x[|q| + 1..] == s;
  }

  lemma SamePrefix(a: string, x: string, y: string)
    requires a + x == a + y
    ensures x == y
  {
    assert (a + x)[|a|..] == x && (a + y)[|a|..] == y;
  }

  /** Two keys share their sources exactly when they are spelled alike; the two ledger sources always differ. */
  lemma SourcesDiffer(p: string, r: string, q: string, s: string)
    ensures RefundSource(p, r) != CorrectionSource(q, s)
    ensures RefundSource(p, r) == RefundSource(q, s) <==> KeyText(p, r) == KeyText(q, s)
    ensures CorrectionSource(p, r) == CorrectionSource(q, s) <==> KeyText(p, r) == KeyText(q, s)
    ensures PointsSource(p, r) == PointsSource(q, s) <==> KeyText(p, r) == KeyText(q, s)
  {
    assert RefundSource(p, r)[8] == 'r' && CorrectionSource(q, s)[8] == 'c';
    if RefundSource(p, r) == RefundSource(q, s) { SamePrefix("webhook-refund:", KeyText(p, r), KeyText(q, s)); }
    if CorrectionSource(p, r) == CorrectionSource(q, s) {
      SamePrefix("webhook-correction:", KeyText(p, r), KeyText(q, s));
    }
    if PointsSource(p, r) == PointsSource(q, s) { SamePrefix("webhook-points:", KeyText(p, r), KeyText(q, s)); }
  }

  /** The part of the longer provider beyond the shorter one and its colon. */
  function Tail(p: string, q: string): string {
    if |p| < |q| then q[|p| + 1..] else ""
  }

  predicate MovesColon(p: string, r: string, q: string, s: string) {
    |p| < |q| && q == KeyText(p, Tail(p, q)) && r == KeyText(Tail(p, q), s)
  }

  lemma MovedColonCollides(p: string, x: string, s: string)
    ensures KeyText(p, KeyText(x, s)) == KeyText(KeyText(p, x), s)
  {
    assert p + ":" + (x + ":" + s) == (p + ":" + x) + ":" + s;
  }

  /** Inside a text with a colon at two places, the longer provider continues the shorter one. */
  lemma LongerProvider(p: string, r: string, q: string, s: string)
    requires |p| < |q| && KeyText(p, r) == KeyText(q, s)
    ensures MovesColon(p, r, q, s)
  {
    var x, t := KeyText(p, r), Tail(p, q);
    assert x[..|q|] == q && x[|q|] == ':' && x[|q| + 1..] == s;
    assert x[..|p|] == p && x[|p|] == ':' && x[|p| + 1..] == r;
    assert x[|p| + 1..|q|] == t;
    assert q == x[..|p|] + [x[|p|]] + x[|p| + 1..|q|];
    assert r == x[|p| + 1..|q|] + [x[|q|]] + x[|q| + 1..];
  }

  lemma EqualProviders(p: string, r: string, q: string, s: string)
    requires |p| == |q| && KeyText(p, r) == KeyText(q, s)
    ensures p == q && r == s
  {
    var x := KeyText(p, r);
    assert x[..|p|] == p && x[..|q|] == q && x[|p| + 1..] == r && x[|q| + 1..] == s;
  }

  /**
   * Exactly when two callback keys share their sources: one provider is the other with a colon and
   * the beginning of its reference added.
   */
  lemma KeysCollideExactly(p: string, r: string, q: string, s: string)
    ensures KeyText(p, r) == KeyText(q, s) <==> (p, r) == (q, s) || MovesColon(p, r, q, s) || MovesColon(q, s, p, r)
    ensures NoColon(p) && NoColon(q) ==> (KeyText(p, r) == KeyText(q, s) <==> (p, r) == (q, s))
  {
    if KeyText(p, r) == KeyText(q, s) {
      if |p| < |q| { LongerProvider(p, r, q, s); }
      else if |q| < |p| { LongerProvider(q, s, p, r); }
      else { EqualProviders(p, r, q, s); }
      if NoColon(p) && NoColon(q) { ColonSplits(p, r, q, s); }
    }
    if MovesColon(p, r, q, s) { MovedColonCollides(p, Tail(p, q), s); }
    if MovesColon(q, s, p, r) { MovedColonCollides(q, Tail(q, p), r); }
  }

  // ----- awards -----

  predicate AwardsDistinct(awards: seq<Award>) {
    forall i, j :: 0 <= i < j < |awards| ==> awards[i].source != awards[j].source
  }

  /** One award more, under `source`, or none. */
  predicate AwardsGrowBy(awards: seq<Award>, awards': seq<Award>, source: string, user: Uuid, points: int) {
    awards' == awards || (awards' == awards + [Award(source, user, points)] && !Awarded(awards, source) && points > 0)
  }

  lemma AwardedAfter(awards: seq<Award>, awards': seq<Award>, source: string, user: Uuid, points: int, other: string)
    requires AwardsGrowBy(awards, awards', source, user, points)
    ensures other != source ==> Awarded(awards', other) == Awarded(awards, other)
    ensures awards' != awards ==> Awarded(awards', source)
    ensures AwardsDistinct(awards) ==> AwardsDistinct(awards')
  {
    if awards' != awards {
      var n := |awards|;
      assert awards'[n].source == source;
      if Awarded(awards, other) {
        var i :| 0 <= i < n && awards[i].source == other;
        assert awards'[i] == awards[i];
      }
      if Awarded(awards', other) && other != source {
        var i :| 0 <= i < |awards'| && awards'[i].source == other;
        assert awards'[i] == awards[i];
      }
    }
  }

  lemma CallbackAwards(b: Books, authentic: bool, p: string, r: string, status: string, d: Deal)
    ensures var b' := Callback(b, authentic, p, r, status, d.user, d.amount).books;
      b' == b || (0 < d.amount && AwardsGrowBy(b.awards, b'.awards, PointsSource(p, r), d.user, PointsFor(d.amount)))
  {
  }

  // ----- points, claims and stock -----

  function AwardedTo(awards: seq<Award>, user: Uuid): int {
    if |awards| == 0 then 0
    else
      var last := awards[|awards| - 1];
      AwardedTo(awards[..|awards| - 1], user) + if last.user == user then last.points else 0
  }

  /** The sum of a user's rows in the point ledger. */
  function RowsOf(cfg: Config, rows: seq<PointRow>, user: Uuid): int {
    if |rows| == 0 then 0
    else
      var last := rows[|rows| - 1];
      RowsOf(cfg, rows[..|rows| - 1], user) + if cfg.parse(last.userRef) == Some(user) then last.points else 0
  }

  /** Claims of a reward minus refunds of such claims. */
  function TakenOf(rows: seq<PointRow>, reward: int): int {
    if |rows| == 0 then 0
    else
      var last := rows[|rows| - 1];
      TakenOf(rows[..|rows| - 1], reward) + if last.reward != reward then 0 else if last.kind == Redeem then 1 else -1
  }

  predicate Returns(rows: seq<PointRow>, i: int, j: int)
    requires 0 <= i < |rows| && 0 <= j < |rows|
  {
    && rows[j].kind == Redeem && rows[i].reward == rows[j].reward && rows[i].userRef == rows[j].userRef
    && rows[i].key == RefundKey(rows[j].key) && rows[i].points + rows[j].points == 0
  }

  predicate RowTrue(cfg: Config, b: Books, i: int)
    requires 0 <= i < |b.rows|
  {
    var row := b.rows[i];
    && row.reward in b.rewards
    && cfg.parse(row.userRef).Some? && cfg.parse(row.userRef).value in b.points
    && (row.kind == Redeem ==> -I64_MAX <= row.points < 0)
    && (row.kind == Giveback ==> exists j :: 0 <= j < |b.rows| && Returns(b.rows, i, j))
  }

  predicate RowsDistinct(rows: seq<PointRow>) {
    forall i, j :: 0 <= i < j < |rows| ==> (rows[i].reward, rows[i].key) != (rows[j].reward, rows[j].key)
  }

  predicate RewardsTrue(b: Books) {
    && (forall r :: r in b.rewards ==> r < b.nextReward && 0 < b.rewards[r].price && 0 <= b.rewards[r].stock <= I32_MAX)
    && (forall u :: u in b.points ==> 0 <= b.points[u])
  }

  predicate ClaimsTrue(cfg: Config, b: Books) {
    RewardsTrue(b) && RowsDistinct(b.rows) && forall i :: 0 <= i < |b.rows| ==> RowTrue(cfg, b, i)
  }

  /** The points of a user beyond what awards and the point ledger explain; the stock beyond what was taken. */
  function Unexplained(cfg: Config, b: Books, user: Uuid): int
    requires user in b.points
  {
    b.points[user] - AwardedTo(b.awards, user) - RowsOf(cfg, b.rows, user)
  }

  function Delivered(b: Books, reward: int): int
    requires reward in b.rewards
  {
    b.rewards[reward].stock + TakenOf(b.rows, reward)
  }

  ghost predicate Conserves(cfg: Config, b: Books, b': Books) {
    && b'.points.Keys == b.points.Keys && b.nextReward <= b'.nextReward
    && (forall u :: u in b.points ==> Unexplained(cfg, b', u) == Unexplained(cfg, b, u))
    && (forall r :: r in b.rewards && r in b'.rewards ==> Delivered(b', r) == Delivered(b, r))
    && (forall r :: r in b'.rewards && r !in b.rewards ==> b.nextReward <= r)
  }

  lemma {:induction false} OneMoreAward(awards: seq<Award>, a: Award, user: Uuid)
    ensures AwardedTo(awards + [a], user) == AwardedTo(awards, user) + if a.user == user then a.points else 0
  {
    assert (awards + [a])[..|awards|] == awards;
  }

  lemma {:induction false} OneMoreRow(cfg: Config, rows: seq<PointRow>, row: PointRow, user: Uuid, reward: int)
    ensures RowsOf(cfg, rows + [row], user) == RowsOf(cfg, rows, user) + if cfg.parse(row.userRef) ==
      Some(user) then row.points else 0
    ensures TakenOf(rows + [row], reward) ==
      TakenOf(rows, reward) + if row.reward != reward then 0 else if row.kind == Redeem then 1 else -1
  {
    assert (rows + [row])[..|rows|] == rows;
  }

  lemma GrantConserves(cfg: Config, b: Books, source: string, user: Uuid, points: int)
    requires ClaimsTrue(cfg, b) && GrantPoints(b, source, user, points).Some?
    ensures var b' := GrantPoints(b, source, user, points).value; ClaimsTrue(cfg, b') && Conserves(cfg, b, b')
  {
    var b' := GrantPoints(b, source, user, points).value;
    forall u | u in b.points ensures Unexplained(cfg, b', u) == Unexplained(cfg, b, u) {
      OneMoreAward(b.awards, Award(source, user, points), u);
    }
    forall i | 0 <= i < |b.rows| ensures RowTrue(cfg, b', i) {
      assert RowTrue(cfg, b, i);
    }
  }

  /** A row added with the matching change of stock and points. */
  lemma RowConserves(cfg: Config, b: Books, row: PointRow, user: Uuid, stock: int)
    requires ClaimsTrue(cfg, b) && row.reward in b.rewards && cfg.parse(row.userRef) == Some(user) && user in b.points
    requires !RowExists(b.rows, row.reward, row.key) && 0 <= stock <= I32_MAX
    requires 0 <= b.points[user] + row.points <= I64_MAX
    requires stock == b.rewards[row.reward].stock + if row.kind == Redeem then -1 else 1
    requires row.kind == Redeem ==> -I64_MAX <= row.points < 0
    requires row.kind == Giveback ==> exists j :: 0 <= j < |b.rows| && Returns(b.rows + [row], |b.rows|, j)
    ensures var b' := b.(rewards := b.rewards[row.reward := b.rewards[row.reward].(stock := stock)],
                         points := b.points[user := b.points[user] + row.points], rows := b.rows + [row]);
      ClaimsTrue(cfg, b') && Conserves(cfg, b, b')
  {
    var b' := b.(rewards := b.rewards[row.reward := b.rewards[row.reward].(stock := stock)],
                 points := b.points[user := b.points[user] + row.points], rows := b.rows + [row]);
    RowAdded(cfg, b, b', row);
    forall u | u in b.points ensures Unexplained(cfg, b', u) == Unexplained(cfg, b, u) {
      OneMoreRow(cfg, b.rows, row, u, 0);
    }
    forall r | r in b.rewards ensures Delivered(b', r) == Delivered(b, r) {
      OneMoreRow(cfg, b.rows, row, user, r);
    }
  }

  lemma RowAdded(cfg: Config, b: Books, b': Books, row: PointRow)
    requires RowsDistinct(b.rows) && (forall i :: 0 <= i < |b.rows| ==> RowTrue(cfg, b, i))
    requires b'.rows == b.rows + [row] && b'.rewards.Keys == b.rewards.Keys && b'.points.Keys == b.points.Keys
    requires row.reward in b.rewards && cfg.parse(row.userRef).Some? && cfg.parse(row.userRef).value in b.points
    requires !RowExists(b.rows, row.reward, row.key)
    requires row.kind == Redeem ==> -I64_MAX <= row.points < 0
    requires row.kind == Giveback ==> exists j :: 0 <= j < |b.rows| && Returns(b'.rows, |b.rows|, j)
    ensures RowsDistinct(b'.rows) && (forall i :: 0 <= i < |b'.rows| ==> RowTrue(cfg, b', i))
  {
    forall i | 0 <= i < |b'.rows| ensures RowTrue(cfg, b', i) {
      if i < |b.rows| {
        assert RowTrue(cfg, b, i);
        if b.rows[i].kind == Giveback {
          var j :| 0 <= j < |b.rows| && Returns(b.rows, i, j);
          assert Returns(b'.rows, i, j);
        }
      }
    }
  }

  lemma ClaimConserves(cfg: Config, b: Books, userRef: string, reward: int, key: string, member: bool)
    requires ClaimsTrue(cfg, b)
    ensures var b' := ClaimReward(b, cfg.parse(userRef), userRef, reward, key, member).books;
      ClaimsTrue(cfg, b') && Conserves(cfg, b, b')
  {
    if ClaimReward(b, cfg.parse(userRef), userRef, reward, key, member).verdict == Claimed {
      var r := b.rewards[reward];
      RowConserves(cfg, b, PointRow(userRef, reward, key, -r.price, Redeem), cfg.parse(userRef).value, r.stock - 1);
    }
  }

  lemma RefundConserves(cfg: Config, b: Books, userRef: string, key: string, pick: int)
    requires ClaimsTrue(cfg, b) && (SomeRefundable(b.rows, userRef, key) ==> Refundable(b.rows, pick, userRef, key))
    ensures var b' := RefundClaim(b, cfg.parse(userRef), userRef, key, pick).books;
      ClaimsTrue(cfg, b') && Conserves(cfg, b, b')
  {
    if RefundClaim(b, cfg.parse(userRef), userRef, key, pick).verdict == Returned {
      var claim := b.rows[pick];
      assert RowTrue(cfg, b, pick);
      var row := PointRow(userRef, claim.reward, RefundKey(key), -claim.points, Giveback);
      assert Returns(b.rows + [row], |b.rows|, pick);
      RowConserves(cfg, b, row, cfg.parse(userRef).value, b.rewards[claim.reward].stock + 1);
    }
  }

  lemma CatalogConserves(cfg: Config, b: Books, e: Event)
    requires ClaimsTrue(cfg, b) && (e.Add? || e.Drop? || e.Edit?)
    ensures ClaimsTrue(cfg, Do(cfg, b, e)) && Conserves(cfg, b, Do(cfg, b, e))
  {
    var b' := Do(cfg, b, e);
    forall i | 0 <= i < |b.rows| ensures RowTrue(cfg, b', i) {
      assert RowTrue(cfg, b, i);
    }
  }

  lemma HookConserves(cfg: Config, b: Books, authentic: bool, p: string, r: string, status: string, d: Deal)
    requires ClaimsTrue(cfg, b)
    ensures var b' := Callback(b, authentic, p, r, status, d.user, d.amount).books;
      ClaimsTrue(cfg, b') && Conserves(cfg, b, b')
  {
    var b' := Callback(b, authentic, p, r, status, d.user, d.amount).books;
    var g := b;
    if b' != b && status == "success" {
      GrantConserves(cfg, b, PointsSource(p, r), d.user, PointsFor(d.amount));
      g := GrantPoints(b, PointsSource(p, r), d.user, PointsFor(d.amount)).value;
    }
    SameClaims(cfg, g, b');
  }

  lemma SameClaims(cfg: Config, g: Books, b: Books)
    requires ClaimsTrue(cfg, g) && b.points == g.points && b.awards == g.awards && b.rewards == g.rewards
    requires b.nextReward == g.nextReward && b.rows == g.rows
    ensures ClaimsTrue(cfg, b) && Conserves(cfg, g, b)
  {
    forall i | 0 <= i < |b.rows| ensures RowTrue(cfg, b, i) {
      assert RowTrue(cfg, g, i);
    }
  }

  // ----- runs -----

  ghost predicate Good(cfg: Config, b: Books) {
    AwardsDistinct(b.awards) && ClaimsTrue(cfg, b)
  }

  lemma HookKeeps(cfg: Config, b: Books, authentic: bool, p: string, r: string, status: string, d: Deal)
    requires Good(cfg, b)
    ensures var b' := Callback(b, authentic, p, r, status, d.user, d.amount).books;
      Good(cfg, b') && Conserves(cfg, b, b')
  {
    CallbackAwards(b, authentic, p, r, status, d);
    var b' := Callback(b, authentic, p, r, status, d.user, d.amount).books;
    if b' != b { AwardedAfter(b.awards, b'.awards, PointsSource(p, r), d.user, PointsFor(d.amount), ""); }
    HookConserves(cfg, b, authentic, p, r, status, d);
  }

  lemma EventKeeps(cfg: Config, b: Books, e: Event)
    requires Good(cfg, b) && Enabled(b, e)
    ensures Good(cfg, Do(cfg, b, e)) && Conserves(cfg, b, Do(cfg, b, e))
  {
    match e
    case Hook(authentic, p, r, status, user, amount) => HookKeeps(cfg, b, authentic, p, r, status, Deal(user, amount));
    case Money(p, quote) => SameClaims(cfg, b, Do(cfg, b, e));
    case Take(userRef, reward, key, member) => ClaimConserves(cfg, b, userRef, reward, key, member);
    case GiveBack(userRef, key, pick) => RefundConserves(cfg, b, userRef, key, pick);
    case _ => CatalogConserves(cfg, b, e);
  }

  lemma ConservesTrans(cfg: Config, a: Books, b: Books, c: Books)
    requires Conserves(cfg, a, b) && Conserves(cfg, b, c)
    requires RewardsTrue(a)
    ensures Conserves(cfg, a, c)
  {
    forall r | r in a.rewards && r in c.rewards ensures Delivered(c, r) == Delivered(a, r) {
      assert r in b.rewards;
    }
  }

  lemma {:induction false} RunKeeps(cfg: Config, b: Books, es: seq<Event>)
    requires Good(cfg, b) && Legal(cfg, b, es)
    ensures Good(cfg, After(cfg, b, es)) && Conserves(cfg, b, After(cfg, b, es))
    decreases |es|
  {
    if |es| != 0 {
      var b1 := Do(cfg, b, es[0]);
      EventKeeps(cfg, b, es[0]);
      RunKeeps(cfg, b1, es[1..]);
      ConservesTrans(cfg, b, b1, After(cfg, b1, es[1..]));
    }
  }
}
