/** Writing timestamps: every moment written canonically is read back, whatever white space surrounds it. */
module TimestampText {
  import opened Base
  import opened Calendar
  import opened Timestamp

  function DigitChar(n: int): (c: char)
    requires 0 <= n <= 9
    ensures Digit(c) && c as int - '0' as int == n
  {
    n as char + '0'
  }

  function Two(n: int): (s: string)
    requires 0 <= n <= 99
    ensures |s| == 2 && Digits(s)
  {
    [DigitChar(n / 10), DigitChar(n % 10)]
  }

  function Three(n: int): (s: string)
    requires 0 <= n <= 999
    ensures |s| == 3 && Digits(s)
  {
    [DigitChar(n / 100)] + Two(n % 100)
  }

  function Four(n: int): (s: string)
    requires 0 <= n <= 9999
    ensures |s| == 4 && Digits(s)
  {
    Two(n / 100) + Two(n % 100)
  }

  lemma {:induction false} NumberConcat(a: string, b: string)
    requires Digits(a) && Digits(b) && |b| <= 2
    ensures Digits(a + b)
    ensures Number(a + b) == Number(a) * (if |b| == 0 then 1 else if |b| == 1 then 10 else 100) + Number(b)
  {
    if b == "" {
      assert a + b == a;
    } else {
      var n := |b| - 1;
      assert (a + b)[..|a| + n] == a + b[..n];
      NumberConcat(a, b[..n]);
      assert b[..n] == if n == 0 then "" else [b[0]];
    }
  }

  lemma NumberOfTwo(n: int)
    requires 0 <= n <= 99
    ensures Number(Two(n)) == n
  {
    var s := Two(n);
    assert s == [s[0]] + [s[1]] && [s[0]][..0] == "" && [s[1]][..0] == "";
    NumberConcat([s[0]], [s[1]]);
  }

  lemma NumberOfThree(n: int)
    requires 0 <= n <= 999
    ensures Number(Three(n)) == n
  {
    var c := [DigitChar(n / 100)];
    assert c[..0] == "";
    NumberConcat(c, Two(n % 100));
    NumberOfTwo(n % 100);
  }

  lemma NumberOfFour(n: int)
    requires 0 <= n <= 9999
    ensures Number(Four(n)) == n
  {
    NumberConcat(Two(n / 100), Two(n % 100));
    NumberOfTwo(n / 100);
    NumberOfTwo(n % 100);
  }

  predicate Printable(f: Fields) {
    && 0 <= f.date.year <= 9999 && 0 <= f.date.month <= 99 && 0 <= f.date.day <= 99
    && 0 <= f.hour <= 99 && 0 <= f.minute <= 99 && 0 <= f.second <= 99 && 0 <= f.ms <= 999
    && 0 <= f.zoneHour <= 99 && 0 <= f.zoneMinute <= 99
  }

  function DateText(d: Date): (s: string)
    requires 0 <= d.year <= 9999 && 0 <= d.month <= 99 && 0 <= d.day <= 99
    ensures |s| == 10 && s[..4] == Four(d.year) && s[4] == '-' && s[5..7] == Two(d.month) && s[7] == '-'
    ensures s[8..10] == Two(d.day)
  {
    Four(d.year) + "-" + Two(d.month) + "-" + Two(d.day)
  }

  function ClockText(hour: int, minute: int, second: int): (s: string)
    requires 0 <= hour <= 99 && 0 <= minute <= 99 && 0 <= second <= 99
    ensures |s| == 8 && s[..2] == Two(hour) && s[2] == ':' && s[3..5] == Two(minute) && s[5] == ':'
    ensures s[6..8] == Two(second)
  {
    Two(hour) + ":" + Two(minute) + ":" + Two(second)
  }

  function Head(f: Fields): (s: string)
    requires Printable(f)
    ensures |s| == 19
  {
    DateText(f.date) + "T" + ClockText(f.hour, f.minute, f.second)
  }

  function Zone(f: Fields): (s: string)
    requires Printable(f)
    ensures ZoneShape(s)
  {
    [if f.negative then '-' else '+'] + Two(f.zoneHour) + ":" + Two(f.zoneMinute)
  }

  /** The milliseconds to so many decimal places of a second. */
  function Fraction(ms: int, places: nat): (s: string)
    requires 0 <= ms <= 999 && places <= 3
    ensures |s| == places && Digits(s)
  {
    match places
    case 0 => ""
    case 1 => [DigitChar(ms / 100)]
    case 2 => Two(ms / 10)
    case _ => Three(ms)
  }

  /** The places suffice for the milliseconds, and `Z` stands only for no offset. */
  predicate Writable(f: Fields, places: nat, zulu: bool) {
    && Printable(f) && places <= 3
    && (places == 2 ==> f.ms % 10 == 0) && (places == 1 ==> f.ms % 100 == 0) && (places == 0 ==> f.ms == 0)
    && (zulu ==> !f.negative && f.zoneHour == 0 && f.zoneMinute == 0)
  }

  function Format(f: Fields, places: nat, zulu: bool): string
    requires Writable(f, places, zulu)
  {
    Head(f) + Dotted(Fraction(f.ms, places)) + if zulu then "Z" else Zone(f)
  }

  lemma HeadSlices(f: Fields)
    requires Printable(f)
    ensures var s := Head(f);
      && |s| == 19 && s[..4] == Four(f.date.year) && s[4] == '-' && s[5..7] == Two(f.date.month) && s[7] == '-'
      && s[8..10] == Two(f.date.day) && s[10] == 'T' && s[11..13] == Two(f.hour) && s[13] == ':'
      && s[14..16] == Two(f.minute) && s[16] == ':' && s[17..19] == Two(f.second)
  {
    var s, d, c := Head(f), DateText(f.date), ClockText(f.hour, f.minute, f.second);
    assert s[..4] == d[..4] && s[5..7] == d[5..7] && s[8..10] == d[8..10];
    assert s[11..13] == c[..2] && s[14..16] == c[3..5] && s[17..19] == c[6..8];
    assert s[4] == d[4] && s[7] == d[7] && s[13] == c[2] && s[16] == c[5];
  }

  lemma HeadReads(f: Fields)
    requires Printable(f)
    ensures HeadShape(Head(f))
    ensures var s := Head(f);
      && Date(Number(s[..4]), Number(s[5..7]), Number(s[8..10])) == f.date
      && Number(s[11..13]) == f.hour && Number(s[14..16]) == f.minute && Number(s[17..19]) == f.second
  {
    HeadSlices(f);
    NumberOfFour(f.date.year);
    NumberOfTwo(f.date.month);
    NumberOfTwo(f.date.day);
    NumberOfTwo(f.hour);
    NumberOfTwo(f.minute);
    NumberOfTwo(f.second);
  }

  lemma ZoneReads(f: Fields)
    requires Printable(f)
    ensures var z := Zone(f);
      && (z[0] == '-') == f.negative && z != "Z" && !Digit(z[0])
      && Number(z[1..3]) == f.zoneHour && Number(z[4..6]) == f.zoneMinute
  {
    var z := Zone(f);
    assert z[1..3] == Two(f.zoneHour) && z[4..6] == Two(f.zoneMinute);
    NumberOfTwo(f.zoneHour);
    NumberOfTwo(f.zoneMinute);
  }

  /** Missing places count as zeros. */
  lemma FractionMeans(f: Fields, places: nat, zulu: bool)
    requires Writable(f, places, zulu)
    ensures Millis(Fraction(f.ms, places)) == f.ms
  {
    var s := Fraction(f.ms, places);
    assert s + "000"[places..] == Three(f.ms);
    NumberOfThree(f.ms);
  }

  /** What is written matches, and every field comes back. */
  lemma FormatMatches(f: Fields, places: nat, zulu: bool)
    requires Writable(f, places, zulu)
    ensures Match(Format(f, places, zulu)) == Some(f)
  {
    var fraction, zone := Fraction(f.ms, places), if zulu then "Z" else Zone(f);
    HeadReads(f);
    ZoneReads(f);
    FractionMeans(f, places, zulu);
    SpelledMatches(Format(f, places, zulu), Head(f), fraction, zone);
    FormatReads(f, fraction, zone);
  }

  lemma FormatReads(f: Fields, fraction: string, zone: string)
    requires Printable(f) && Digits(fraction) && |fraction| <= 3 && Millis(fraction) == f.ms && ZoneShape(zone)
    requires zone == Zone(f) || (zone == "Z" && !f.negative && f.zoneHour == 0 && f.zoneMinute == 0)
    ensures HeadShape(Head(f)) && FieldsOf(Head(f), fraction, zone) == f
  {
    HeadReads(f);
    ZoneReads(f);
  }

  predicate AllBlank(s: string) {
    forall i :: 0 <= i < |s| ==> Blank(s[i])
  }

  lemma {:induction false} TrimLeftStops(before: string, s: string)
    requires AllBlank(before) && s != "" && !Blank(s[0])
    ensures TrimLeft(before + s) == s
  {
    if before == "" {
      assert before + s == s;
    } else {
      assert (before + s)[1..] == before[1..] + s;
      TrimLeftStops(before[1..], s);
    }
  }

  lemma {:induction false} TrimRightStops(s: string, after: string)
    requires AllBlank(after) && s != "" && !Blank(s[|s| - 1])
    ensures TrimRight(s + after) == s
  {
    if after == "" {
      assert s + after == s;
    } else {
      var n := |after| - 1;
      assert (s + after)[..|s| + n] == s + after[..n];
      TrimRightStops(s, after[..n]);
    }
  }

  /** Trimming removes exactly the blanks around a text whose ends are not blank. */
  lemma TrimUndoesPadding(before: string, s: string, after: string)
    requires AllBlank(before) && AllBlank(after) && s != "" && !Blank(s[0]) && !Blank(s[|s| - 1])
    ensures Trim(before + s + after) == s
  {
    assert before + s + after == before + (s + after);
    TrimLeftStops(before, s + after);
    TrimRightStops(s, after);
  }

  lemma EndsAreNotBlank(f: Fields, places: nat, zulu: bool)
    requires Writable(f, places, zulu)
    ensures var s := Format(f, places, zulu); s != "" && !Blank(s[0]) && !Blank(s[|s| - 1])
  {
    var s := Format(f, places, zulu);
    assert s[0] == Head(f)[0] == Four(f.date.year)[0];
    assert s[|s| - 1] == if zulu then 'Z' else Zone(f)[5];
  }

  /**
   * Round trip: a moment written with its zone, to any number of places, and padded with white space
   * parses to that moment.
   */
  lemma WrittenMomentsParse(before: string, f: Fields, places: nat, zulu: bool, after: string)
    requires AllBlank(before) && AllBlank(after) && Writable(f, places, zulu)
    ensures Parse(before + Format(f, places, zulu) + after) == if NamesAMoment(f) then Some(Moment(f)) else None
  {
    EndsAreNotBlank(f, places, zulu);
    TrimUndoesPadding(before, Format(f, places, zulu), after);
    FormatMatches(f, places, zulu);
    MatchedMoments(before + Format(f, places, zulu) + after);
  }

  /** The date of an instant on a clock that is `offset` minutes ahead of UTC. */
  function LocalDate(t: int, offset: int): Date {
    DateFromDay(LocalDay(t, offset))
  }

  function LocalDay(t: int, offset: int): int {
    (t + offset * MINUTE_MS) / DAY_MS
  }

  /** The fields of an instant on a clock that is `offset` minutes ahead of UTC. */
  function FieldsAt(t: int, offset: int): Fields
    requires -1439 <= offset <= 1439
  {
    var local := t + offset * MINUTE_MS;
    var size := if offset < 0 then -offset else offset;
    Fields(LocalDate(t, offset), local % DAY_MS / HOUR_MS, local % HOUR_MS / MINUTE_MS, local % MINUTE_MS / 1000,
           local % 1000, offset < 0, size / 60, size % 60)
  }

  lemma ClockRebuilds(t: int)
    ensures t == (((t / DAY_MS * 24 + t % DAY_MS / HOUR_MS) * 60) + t % HOUR_MS / MINUTE_MS) * 60_000
                 + t % MINUTE_MS / 1000 * 1000 + t % 1000
    ensures 0 <= t % DAY_MS / HOUR_MS <= 23 && 0 <= t % HOUR_MS / MINUTE_MS <= 59 && 0 <= t % MINUTE_MS / 1000 <= 59
  {
    assert t % DAY_MS % HOUR_MS == t % HOUR_MS;
    assert t % HOUR_MS % MINUTE_MS == t % MINUTE_MS;
    assert t % MINUTE_MS % 1000 == t % 1000;
  }

  lemma MomentOfParts(f: Fields, local: int)
    requires Valid(f.date)
    requires local == ((DayNumber(f.date) * 24 + f.hour) * 60 + f.minute) * 60_000 + f.second * 1000 + f.ms
    ensures Moment(f) == local - Offset(f) * MINUTE_MS
  {
  }

  lemma OffsetOfParts(t: int, offset: int)
    requires -1439 <= offset <= 1439
    ensures var f := FieldsAt(t, offset); Offset(f) == offset && 0 <= f.zoneHour <= 23 && 0 <= f.zoneMinute <= 59
  {
  }

  lemma DateAt(t: int, offset: int)
    requires -1439 <= offset <= 1439
    ensures Valid(FieldsAt(t, offset).date) && DayNumber(FieldsAt(t, offset).date) == (t + offset * MINUTE_MS) / DAY_MS
  {
    DateOfDay((t + offset * MINUTE_MS) / DAY_MS);
  }

  lemma ClockAt(t: int, offset: int)
    requires -1439 <= offset <= 1439
    ensures var f, local := FieldsAt(t, offset), t + offset * MINUTE_MS;
      && local == ((local / DAY_MS * 24 + f.hour) * 60 + f.minute) * 60_000 + f.second * 1000 + f.ms
      && 0 <= f.hour <= 23 && 0 <= f.minute <= 59 && 0 <= f.second <= 59 && 0 <= f.ms <= 999
  {
    ClockRebuilds(t + offset * MINUTE_MS);
  }

  lemma MomentOfFields(t: int, offset: int)
    requires -1439 <= offset <= 1439
    ensures var f := FieldsAt(t, offset);
      && Valid(f.date) && Moment(f) == t
      && 0 <= f.hour <= 23 && 0 <= f.minute <= 59 && 0 <= f.second <= 59 && 0 <= f.ms <= 999
  {
    DateAt(t, offset);
    ClockAt(t, offset);
    OffsetOfParts(t, offset);
    MomentOfParts(FieldsAt(t, offset), t + offset * MINUTE_MS);
  }

  lemma FieldsNameTheInstant(t: int, offset: int)
    requires -1439 <= offset <= 1439
    requires 100 <= FieldsAt(t, offset).date.year <= 9999
    ensures var f := FieldsAt(t, offset); Printable(f) && NamesAMoment(f) && Moment(f) == t
  {
    MomentOfFields(t, offset);
    OffsetOfParts(t, offset);
  }

  lemma UnpaddedMomentParses(f: Fields, places: nat, zulu: bool)
    requires Writable(f, places, zulu) && NamesAMoment(f)
    ensures Parse(Format(f, places, zulu)) == Some(Moment(f))
  {
    assert "" + Format(f, places, zulu) + "" == Format(f, places, zulu);
    WrittenMomentsParse("", f, places, zulu, "");
  }

  /**
   * Every instant whose local year has four digits, from 100 on, survives writing and parsing in any zone
   * and to any number of places that suffices for it.
   */
  lemma InstantsRoundTrip(t: int, offset: int, places: nat, zulu: bool)
    requires -1439 <= offset <= 1439 && (zulu ==> offset == 0)
    requires 100 <= FieldsAt(t, offset).date.year <= 9999
    requires places == 3 || (places == 2 && t % 10 == 0) || (places == 1 && t % 100 == 0)
      || (places == 0 && t % 1000 == 0)
    ensures Writable(FieldsAt(t, offset), places, zulu)
    ensures Parse(Format(FieldsAt(t, offset), places, zulu)) == Some(t)
  {
    FieldsNameTheInstant(t, offset);
    PlacesSuffice(t, offset, FieldsAt(t, offset), places, zulu);
    UnpaddedMomentParses(FieldsAt(t, offset), places, zulu);
  }

  lemma PlacesSuffice(t: int, offset: int, f: Fields, places: nat, zulu: bool)
    requires -1439 <= offset <= 1439 && (zulu ==> offset == 0) && Printable(f) && f == FieldsAt(t, offset)
    requires places == 3 || (places == 2 && t % 10 == 0) || (places == 1 && t % 100 == 0)
      || (places == 0 && t % 1000 == 0)
    ensures Writable(f, places, zulu)
  {
    MillisecondOf(t, offset);
    DecimalPlaces(t, f.ms);
  }

  lemma DecimalPlaces(t: int, ms: int)
    requires ms == t % 1000
    ensures ms % 10 == t % 10 && ms % 100 == t % 100
  {
    LastPlaces(t / 1000 * 100, ms);
    LastPlaces(t / 1000 * 10, ms);
  }

  lemma LastPlaces(k: int, n: int)
    ensures (10 * k + n) % 10 == n % 10 && (100 * k + n) % 100 == n % 100
  {
  }

  lemma MillisecondOf(t: int, offset: int)
    ensures (t + offset * MINUTE_MS) % 1000 == t % 1000
  {
    assert t == t / 1000 * 1000 + t % 1000;
    SplitSecond(t / 1000 + offset * 60, t % 1000);
  }

  /** White space and line terminators by their code points, as section 12 of ECMA-262 lists them. */
  lemma WhichAreBlank(c: char)
    ensures Blank(c) <==>
      var n := c as int;
      9 <= n <= 13 || 0x2000 <= n <= 0x200A
      || n in {0x20, 0xA0, 0x1680, 0x2028, 0x2029, 0x202F, 0x205F, 0x3000, 0xFEFF}
  {
  }
}
