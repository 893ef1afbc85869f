/**
 * Daily payment references. A counter per civil day of the UTC+7 zone hands out the numbers 1 to
 * 9999, and each number is written into a reference with its date.
 */
module References {
  import opened Base
  import opened Calendar
  import opened Timestamp
  import opened TimestampText

  const WIB_OFFSET := 7 * 3600
  const LAST := 9999

  /** The civil day, counted from the epoch, at `now` seconds after it. */
  function WibDay(now: int): int {
    (now + WIB_OFFSET) / 86_400
  }

  function Decimal(n: nat): (s: string)
    ensures Digits(s)
  {
    if n <= 9 then [DigitChar(n)] else Decimal(n / 10) + [DigitChar(n % 10)]
  }

  /** Years of four digits stand alone; any other year carries its sign. */
  function YearText(y: int): string {
    if 0 <= y <= 9999 then Four(y)
    else if y < 0 then "-" + AtLeastFour(-y)
    else "+" + AtLeastFour(y)
  }

  function AtLeastFour(n: nat): (s: string)
    ensures Digits(s)
  {
    if n <= 9999 then Four(n) else Decimal(n)
  }

  function Render(day: int, sequence: int): string
    requires 1 <= sequence <= LAST
  {
    var d := DateFromDay(day);
    DateOfDay(day);
    "REF" + Two(d.day) + Two(d.month) + YearText(d.year) + Four(sequence)
  }

  lemma {:induction false} NumberOfDecimal(n: nat)
    ensures Number(Decimal(n)) == n
  {
    var s := Decimal(n);
    if n <= 9 {
      assert s[..0] == "";
    } else {
      NumberOfDecimal(n / 10);
      assert s[..|s| - 1] == Decimal(n / 10);
    }
  }

  lemma YearOfText(y: int)
    ensures var s := YearText(y);
      && s != ""
      && (0 <= y <= 9999 <==> Digit(s[0]))
      && (0 <= y <= 9999 ==> Digits(s) && Number(s) == y)
      && (y < 0 ==> s[0] == '-' && Digits(s[1..]) && Number(s[1..]) == -y)
      && (y > 9999 ==> s[0] == '+' && Digits(s[1..]) && Number(s[1..]) == y)
  {
    if 0 <= y <= 9999 {
      NumberOfFour(y);
    } else {
      var n := if y < 0 then -y else y;
      assert YearText(y)[1..] == AtLeastFour(n);
      if n <= 9999 { NumberOfFour(n); } else { NumberOfDecimal(n); }
    }
  }

  lemma YearTextIsInjective(y: int, z: int)
    requires YearText(y) == YearText(z)
    ensures y == z
  {
    YearOfText(y);
    YearOfText(z);
  }

  lemma RenderParts(day: int, sequence: int)
    requires 1 <= sequence <= LAST
    ensures var s, d := Render(day, sequence), DateFromDay(day);
      && |s| >= 11 && 1 <= d.day <= 31 && 1 <= d.month <= 12
      && s[3..5] == Two(d.day) && s[5..7] == Two(d.month) && s[7..|s| - 4] == YearText(d.year)
      && s[|s| - 4..] == Four(sequence)
  {
    DateOfDay(day);
    YearOfText(DateFromDay(day).year);
  }

  lemma WibDayIsLocal(now: int)
    ensures WibDay(now) == LocalDay(now * 1000, 7 * 60)
  {
    var q, r := (now + 25_200) / 86_400, (now + 25_200) % 86_400;
    assert now * 1000 + 25_200_000 == q * DAY_MS + r * 1000;
    SplitDay(q, r * 1000);
  }

  /** It lasts from midnight to midnight there. */
  lemma WibDaySpan(now: int)
    ensures 86_400 * WibDay(now) <= now + 25_200 < 86_400 * (WibDay(now) + 1)
  {
  }

  /** The day of a moment is the one on the calendar of the zone seven hours ahead of UTC. */
  lemma WibDayIsTheLocalDay(now: int)
    ensures DateFromDay(WibDay(now)) == LocalDate(now * 1000, 7 * 60)
  {
    WibDayIsLocal(now);
  }

  /** A reference reads `REF`, day, month and year of the local date, and the number, each padded with zeros. */
  lemma ReferenceReads(now: int, sequence: int)
    requires 1 <= sequence <= 9999 && 0 <= LocalDate(now * 1000, 7 * 60).year <= 9999
    ensures var s := Render(WibDay(now), sequence);
      && |s| == 15 && s[..3] == "REF" && Digits(s[3..5]) && Digits(s[5..7]) && Digits(s[7..11]) && Digits(s[11..])
      && Date(Number(s[7..11]), Number(s[5..7]), Number(s[3..5])) == LocalDate(now * 1000, 7 * 60)
      && Number(s[11..]) == sequence
  {
    WibDayIsTheLocalDay(now);
    RenderParts(WibDay(now), sequence);
    var d, s := DateFromDay(WibDay(now)), Render(WibDay(now), sequence);
    assert |s| == 3 + 2 + 2 + |YearText(d.year)| + 4;
    NumberOfTwo(d.day);
    NumberOfTwo(d.month);
    NumberOfFour(d.year);
    NumberOfFour(sequence);
  }

  /** Different days or numbers never render the same reference, in any year. */
  lemma RenderIsInjective(day: int, sequence: int, other: int, number: int)
    requires 1 <= sequence <= LAST && 1 <= number <= LAST && Render(day, sequence) == Render(other, number)
    ensures day == other && sequence == number
  {
    var d, e := DateFromDay(day), DateFromDay(other);
    RenderParts(day, sequence);
    RenderParts(other, number);
    assert Two(d.day) == Two(e.day) && Two(d.month) == Two(e.month) && YearText(d.year) == YearText(e.year);
    assert Four(sequence) == Four(number);
    SameDate(d, e);
    NumberOfFour(sequence);
    NumberOfFour(number);
    DateOfDay(day);
    DateOfDay(other);
  }

  lemma SameDate(d: Date, e: Date)
    requires 1 <= d.day <= 31 && 1 <= e.day <= 31 && 1 <= d.month <= 12 && 1 <= e.month <= 12
    requires Two(d.day) == Two(e.day) && Two(d.month) == Two(e.month) && YearText(d.year) == YearText(e.year)
    ensures d == e
  {
    NumberOfTwo(d.day);
    NumberOfTwo(e.day);
    NumberOfTwo(d.month);
    NumberOfTwo(e.month);
    YearTextIsInjective(d.year, e.year);
  }

  // ----- allocation -----

  datatype Allocation = Allocation(reference: string, payment: Uuid, day: int, sequence: int)

  /** `uses` are the methods that deposits or guest orders refer to. */
  datatype State = State(methods: set<Uuid>, uses: set<Uuid>, counters: map<int, nat>, allocations: seq<Allocation>)

  datatype Reply = Reference(text: string) | Deleted | Conflict

  function Next(s: State, day: int): nat {
    if day in s.counters then s.counters[day] + 1 else 1
  }

  /** The primary key on the reference and the unique pair of date and sequence. */
  predicate Taken(s: State, a: Allocation) {
    exists i :: 0 <= i < |s.allocations|
      && (|| s.allocations[i].reference == a.reference
          || (s.allocations[i].day == a.day && s.allocations[i].sequence == a.sequence))
  }

  function Allocate(s: State, payment: Uuid, now: int): (State, Reply) {
    if payment !in s.methods then (s, Conflict)
    else
      var day := WibDay(now);
      var sequence := Next(s, day);
      if sequence > LAST then (s, Conflict)
      else
        var a := Allocation(Render(day, sequence), payment, day, sequence);
        if Taken(s, a) then (s, Conflict)
        else (s.(counters := s.counters[day := sequence], allocations := s.allocations + [a]), Reference(a.reference))
  }

  predicate Allocated(s: State, payment: Uuid) {
    exists i :: 0 <= i < |s.allocations| && s.allocations[i].payment == payment
  }

  function Delete(s: State, payment: Uuid): (State, Reply) {
    if payment in s.methods && payment !in s.uses && !Allocated(s, payment)
    then (s.(methods := s.methods - {payment}), Deleted)
    else (s, Conflict)
  }

  datatype Op = Take(payment: Uuid, now: int) | Remove(payment: Uuid) | Add(payment: Uuid) | Use(payment: Uuid)

  predicate Holds(s: State, day: int, sequence: int) {
    exists i :: 0 <= i < |s.allocations| && s.allocations[i].day == day && s.allocations[i].sequence == sequence
  }

  function Counter(s: State, day: int): nat {
    if day in s.counters then s.counters[day] else 0
  }

  predicate AllocationsTrue(s: State) {
    && (forall i :: 0 <= i < |s.allocations| ==>
          && s.allocations[i].payment in s.methods
          && 1 <= s.allocations[i].sequence <= LAST
          && s.allocations[i].reference == Render(s.allocations[i].day, s.allocations[i].sequence))
    && (forall i, j :: 0 <= i < j < |s.allocations| ==>
          s.allocations[i].day != s.allocations[j].day || s.allocations[i].sequence != s.allocations[j].sequence)
  }

  ghost predicate Gapless(s: State) {
    && (forall d :: Counter(s, d) <= LAST)
    && (forall d, n :: Holds(s, d, n) <==> 1 <= n <= Counter(s, d))
    && AllocationsTrue(s) && s.uses <= s.methods
  }

  function Do(s: State, op: Op): State {
    match op
    case Take(payment, now) => Allocate(s, payment, now).0
    case Remove(payment) => Delete(s, payment).0
    case Add(payment) => s.(methods := s.methods + {payment})
    case Use(payment) => if payment in s.methods then s.(uses := s.uses + {payment}) else s
  }

  function After(s: State, ops: seq<Op>): State
    decreases |ops|
  {
    if |ops| == 0 then s else After(Do(s, ops[0]), ops[1..])
  }

  function Fresh(methods: set<Uuid>): State {
    State(methods, {}, map[], [])
  }

  lemma FreshNumberIsFree(s: State, payment: Uuid, day: int)
    requires Gapless(s) && Next(s, day) <= LAST
    ensures 1 <= Next(s, day) && !Taken(s, Allocation(Render(day, Next(s, day)), payment, day, Next(s, day)))
  {
    var sequence := Next(s, day);
    var a := Allocation(Render(day, sequence), payment, day, sequence);
    forall i | 0 <= i < |s.allocations|
      ensures s.allocations[i].reference != a.reference
      ensures (s.allocations[i].day, s.allocations[i].sequence) != (day, sequence)
    {
      assert !Holds(s, day, sequence);
      var b := s.allocations[i];
      if b.reference == a.reference { RenderIsInjective(b.day, b.sequence, day, sequence); }
    }
  }

  lemma FreshNumberIsGiven(s: State, payment: Uuid, now: int)
    requires Gapless(s) && payment in s.methods && Counter(s, WibDay(now)) < LAST
    ensures var (s', r) := Allocate(s, payment, now); var day := WibDay(now);
      r == Reference(Render(day, Counter(s, day) + 1)) && Counter(s', day) == Counter(s, day) + 1
  {
    FreshNumberIsFree(s, payment, WibDay(now));
  }

  /**
   * An allocation is refused exactly when its method does not exist or its day has used up its
   * numbers; the insert itself never conflicts. Refused, it leaves the counter alone.
   */
  lemma AllocationSucceedsExactly(s: State, payment: Uuid, now: int)
    requires Gapless(s)
    ensures var (s', r) := Allocate(s, payment, now); var day := WibDay(now);
      if payment in s.methods && Counter(s, day) < 9999
      then r == Reference(Render(day, Counter(s, day) + 1)) && Counter(s', day) == Counter(s, day) + 1
      else r == Conflict && s' == s
  {
    if payment in s.methods && Counter(s, WibDay(now)) < LAST { FreshNumberIsGiven(s, payment, now); }
  }

  lemma AppendCounts(s: State, s': State, a: Allocation)
    requires (forall d :: Counter(s, d) <= LAST) && (forall d, n :: Holds(s, d, n) <==> 1 <= n <= Counter(s, d))
    requires a.sequence == Counter(s, a.day) + 1 <= LAST
    requires s'.counters == s.counters[a.day := a.sequence] && s'.allocations == s.allocations + [a]
    ensures (forall d :: Counter(s', d) <= LAST) && (forall d, n :: Holds(s', d, n) <==> 1 <= n <= Counter(s', d))
  {
    forall d ensures Counter(s', d) <= LAST {
      assert Counter(s, d) <= LAST;
    }
    forall d, n ensures Holds(s', d, n) <==> 1 <= n <= Counter(s', d) {
      assert Holds(s, d, n) <==> 1 <= n <= Counter(s, d);
      if Holds(s, d, n) {
        var i :| 0 <= i < |s.allocations| && s.allocations[i].day == d && s.allocations[i].sequence == n;
        assert s'.allocations[i] == s.allocations[i];
      }
      if d == a.day && n == a.sequence {
        assert s'.allocations[|s.allocations|].day == d;
      }
    }
  }

  lemma AppendKeeps(s: State, s': State, a: Allocation)
    requires Gapless(s) && a.payment in s.methods && a.sequence == Counter(s, a.day) + 1 <= LAST
    requires a.reference == Render(a.day, a.sequence)
    requires s' == s.(counters := s.counters[a.day := a.sequence], allocations := s.allocations + [a])
    ensures Gapless(s')
  {
    AppendCounts(s, s', a);
    assert !Holds(s, a.day, a.sequence);
  }

  lemma SameAllocations(s: State, s': State)
    requires Gapless(s) && s'.counters == s.counters && s'.allocations == s.allocations && s'.uses <= s'.methods
    requires forall i :: 0 <= i < |s.allocations| ==> s.allocations[i].payment in s'.methods
    ensures Gapless(s')
  {
    forall d ensures Counter(s', d) == Counter(s, d) {}
    forall d ensures Counter(s', d) <= LAST { assert Counter(s, d) <= LAST; }
    forall d, n ensures Holds(s', d, n) <==> 1 <= n <= Counter(s', d) {
      assert Holds(s, d, n) <==> 1 <= n <= Counter(s, d);
    }
  }

  lemma TakeKeeps(s: State, payment: Uuid, now: int)
    requires Gapless(s)
    ensures Gapless(Allocate(s, payment, now).0)
  {
    AllocationSucceedsExactly(s, payment, now);
    var day := WibDay(now);
    if payment in s.methods && Counter(s, day) < LAST {
      var sequence := Counter(s, day) + 1;
      AppendKeeps(s, Allocate(s, payment, now).0, Allocation(Render(day, sequence), payment, day, sequence));
    }
  }

  lemma OpKeeps(s: State, op: Op)
    requires Gapless(s)
    ensures Gapless(Do(s, op))
  {
    match op
    case Take(payment, now) => TakeKeeps(s, payment, now);
    case Remove(payment) => SameAllocations(s, Do(s, op));
    case Add(payment) => SameAllocations(s, Do(s, op));
    case Use(payment) => SameAllocations(s, Do(s, op));
  }

  lemma FreshIsGapless(methods: set<Uuid>)
    ensures Gapless(Fresh(methods))
  {
  }

  lemma {:induction false} RunKeeps(s: State, ops: seq<Op>)
    requires Gapless(s)
    ensures Gapless(After(s, ops))
    decreases |ops|
  {
    if |ops| != 0 {
      OpKeeps(s, ops[0]);
      RunKeeps(Do(s, ops[0]), ops[1..]);
    }
  }

  /**
   * After any operations: the numbers allocated on a day are exactly 1 to some k of at most 9999, no
   * reference occurs twice, and every method that a reference, a deposit or a guest order names still exists.
   */
  lemma {:induction false} NumbersAreGapless(methods: set<Uuid>, ops: seq<Op>, day: int)
    ensures var s := After(Fresh(methods), ops);
      && Counter(s, day) <= 9999
      && (forall n :: Holds(s, day, n) <==> 1 <= n <= Counter(s, day))
      && (forall i :: 0 <= i < |s.allocations| ==> s.allocations[i].payment in s.methods)
      && s.uses <= s.methods
    ensures var s := After(Fresh(methods), ops);
      forall i, j | 0 <= i < j < |s.allocations| :: s.allocations[i].reference != s.allocations[j].reference
  {
    FreshIsGapless(methods);
    RunKeeps(Fresh(methods), ops);
    var s := After(Fresh(methods), ops);
    forall i, j | 0 <= i < j < |s.allocations| ensures s.allocations[i].reference != s.allocations[j].reference {
      var a, b := s.allocations[i], s.allocations[j];
      if a.reference == b.reference { RenderIsInjective(a.day, a.sequence, b.day, b.sequence); }
    }
  }

  class Store {
    var methods: set<Uuid>
    var uses: set<Uuid>
    var counters: map<int, nat>
    var allocations: seq<Allocation>

    function View(): State
      reads this
    {
      State(methods, uses, counters, allocations)
    }

    constructor (known: set<Uuid>)
      ensures Gapless(View()) && methods == known && allocations == []
    {
      methods, uses, counters, allocations := known, {}, map[], [];
      new;
      FreshIsGapless(known);
    }

    method AllocateReference(payment: Uuid, now: int) returns (reply: Reply)
      requires Gapless(View())
      modifies this`counters, this`allocations
      ensures Gapless(View()) && View() == Do(old(View()), Take(payment, now))
      ensures var day := WibDay(now); var k := Counter(old(View()), day);
        reply == if payment in methods && k < 9999 then Reference(Render(day, k + 1)) else Conflict
    {
      AllocationSucceedsExactly(View(), payment, now);
      OpKeeps(View(), Take(payment, now));
      if payment !in methods { return Conflict; }
      var day := WibDay(now);
      var sequence := if day in counters then counters[day] + 1 else 1;
      if sequence > LAST { return Conflict; }
      var allocation := Allocation(Render(day, sequence), payment, day, sequence);
      if Taken(View(), allocation) { return Conflict; }
      counters := counters[day := sequence];
      allocations := allocations + [allocation];
      reply := Reference(allocation.reference);
    }

    method DeletePaymentMethod(payment: Uuid) returns (reply: Reply)
      requires Gapless(View())
      modifies this`methods
      ensures Gapless(View()) && (View(), reply) == Delete(old(View()), payment)
      ensures reply.Deleted? <==>
        && payment in old(methods) && payment !in uses
        && forall i :: 0 <= i < |allocations| ==> allocations[i].payment != payment
      ensures methods == if reply.Deleted? then old(methods) - {payment} else old(methods)
      ensures forall i :: 0 <= i < |allocations| ==> allocations[i].payment in methods
    {
      OpKeeps(View(), Remove(payment));
      if payment in methods && payment !in uses && !Allocated(View(), payment) {
        methods := methods - {payment};
        return Deleted;
      }
      reply := Conflict;
    }
  }
}
