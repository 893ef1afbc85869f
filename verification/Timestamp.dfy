/**
 * The parser of authoritative timestamps: a canonical date and time with a mandatory zone, checked
 * by building the instant with `Date.UTC` and reading its fields back. The accepted strings are a
 * subset of those of section 5.6 of RFC 3339, without leap seconds.
 */
module Timestamp {
  import opened Base
  import opened Calendar

  const DAY_MS := 86_400_000
  const HOUR_MS := 3_600_000
  const MINUTE_MS := 60_000

  /** What the pattern captures; `offset` is in signed minutes, out of range when the zone is. */
  datatype Fields = Fields(
    date: Date, hour: int, minute: int, second: int, ms: int,
    negative: bool, zoneHour: int, zoneMinute: int)

  // ----- trimming -----

  /** White space and line terminators of section 12 of ECMA-262. */
  predicate Blank(c: char) {
    || c == '\t' || c == '\n' || c == '\U{0B}' || c == '\U{0C}' || c == '\r' || c == ' ' || c == '\U{A0}'
    || c == '\U{1680}' || '\U{2000}' <= c <= '\U{200A}' || c == '\U{2028}' || c == '\U{2029}'
    || c == '\U{202F}' || c == '\U{205F}' || c == '\U{3000}' || c == '\U{FEFF}'
  }

  function TrimLeft(s: string): string {
    if s != "" && Blank(s[0]) then TrimLeft(s[1..]) else s
  }

  function TrimRight(s: string): string {
    if s != "" && Blank(s[|s| - 1]) then TrimRight(s[..|s| - 1]) else s
  }

  function Trim(s: string): string {
    TrimRight(TrimLeft(s))
  }

  // ----- the pattern -----

  predicate Digit(c: char) {
    '0' <= c <= '9'
  }

  predicate Digits(s: string) {
    forall i :: 0 <= i < |s| ==> Digit(s[i])
  }

  function Number(s: string): nat
    requires Digits(s)
  {
    if s == "" then 0 else 10 * Number(s[..|s| - 1]) + (s[|s| - 1] as int - '0' as int)
  }

  /** `(value ?? '0').padEnd(3, '0')` as a number. */
  function Millis(fraction: string): nat
    requires Digits(fraction) && |fraction| <= 3
  {
    Number(fraction + "000"[|fraction|..])
  }

  predicate ZoneShape(z: string) {
    z == "Z" || (|z| == 6 && (z[0] == '+' || z[0] == '-') && Digits(z[1..3]) && z[3] == ':' && Digits(z[4..6]))
  }

  /** The nineteen characters before the fraction. */
  predicate HeadShape(s: string) {
    && |s| == 19
    && Digits(s[..4]) && s[4] == '-' && Digits(s[5..7]) && s[7] == '-' && Digits(s[8..10]) && s[10] == 'T'
    && Digits(s[11..13]) && s[13] == ':' && Digits(s[14..16]) && s[16] == ':' && Digits(s[17..19])
  }

  function DigitRun(s: string): (n: nat)
    ensures n <= |s| && Digits(s[..n]) && (n < |s| ==> !Digit(s[n]))
  {
    if s != "" && Digit(s[0]) then
      var n := DigitRun(s[1..]);
      assert s[..n + 1] == [s[0]] + s[1..][..n];
      n + 1
    else 0
  }

  function Dotted(fraction: string): string {
    if fraction == "" then "" else "." + fraction
  }

  /** The fraction and the zone of what follows the seconds, if they have the right shape. */
  function Tail(s: string): Option<(string, string)> {
    if s != "" && s[0] == '.' then
      var n := DigitRun(s[1..]);
      if 1 <= n <= 3 && ZoneShape(s[1 + n..]) then Some((s[1..1 + n], s[1 + n..])) else None
    else if ZoneShape(s) then Some(("", s))
    else None
  }

  function FieldsOf(head: string, fraction: string, zone: string): Fields
    requires HeadShape(head) && Digits(fraction) && |fraction| <= 3 && ZoneShape(zone)
  {
    Fields(
      Date(Number(head[..4]), Number(head[5..7]), Number(head[8..10])),
      Number(head[11..13]), Number(head[14..16]), Number(head[17..19]), Millis(fraction),
      zone[0] == '-', if zone == "Z" then 0 else Number(zone[1..3]), if zone == "Z" then 0 else Number(zone[4..6]))
  }

  function Match(s: string): Option<Fields> {
    if |s| < 19 || !HeadShape(s[..19]) then None
    else
      match Tail(s[19..])
      case None => None
      case Some((fraction, zone)) => TailShape(s[19..]); Some(FieldsOf(s[..19], fraction, zone))
  }

  lemma TailShape(s: string)
    requires Tail(s).Some?
    ensures var (fraction, zone) := Tail(s).value;
      && Digits(fraction) && |fraction| <= 3 && ZoneShape(zone)
      && s == Dotted(fraction) + zone
  {
    if s[0] == '.' {
      var n := DigitRun(s[1..]);
      assert s[1..][..n] == s[1..1 + n];
    }
  }

  // ----- what it matches -----

  /** The text is a date and time, possibly a fraction of one to three digits, and a zone. */
  predicate Spelled(s: string, head: string, fraction: string, zone: string) {
    && HeadShape(head) && Digits(fraction) && |fraction| <= 3 && ZoneShape(zone)
    && s == head + Dotted(fraction) + zone
  }

  lemma {:induction false} RunEnds(digits: string, rest: string)
    requires Digits(digits) && rest != "" && !Digit(rest[0])
    ensures DigitRun(digits + rest) == |digits|
  {
    if digits == "" {
      assert digits + rest == rest;
    } else {
      assert (digits + rest)[1..] == digits[1..] + rest;
      RunEnds(digits[1..], rest);
    }
  }

  lemma FractionReads(fraction: string, zone: string)
    requires Digits(fraction) && 1 <= |fraction| <= 3 && ZoneShape(zone)
    ensures Tail("." + fraction + zone) == Some((fraction, zone))
  {
    var s, n := "." + fraction + zone, |fraction|;
    assert s[1..] == fraction + zone;
    RunEnds(fraction, zone);
    assert s[1..1 + n] == fraction && s[1 + n..] == zone;
  }

  lemma TailReads(fraction: string, zone: string)
    requires Digits(fraction) && |fraction| <= 3 && ZoneShape(zone)
    ensures Tail(Dotted(fraction) + zone) == Some((fraction, zone))
  {
    if fraction == "" { assert Dotted(fraction) + zone == zone; } else { FractionReads(fraction, zone); }
  }

  lemma SpelledMatches(s: string, head: string, fraction: string, zone: string)
    requires Spelled(s, head, fraction, zone)
    ensures Match(s) == Some(FieldsOf(head, fraction, zone))
  {
    TailReads(fraction, zone);
    assert s[..19] == head && s[19..] == Dotted(fraction) + zone;
  }

  lemma MatchIsSpelled(s: string)
    requires Match(s).Some?
    ensures exists head, fraction, zone :: Spelled(s, head, fraction, zone)
  {
    TailShape(s[19..]);
    var (fraction, zone) := Tail(s[19..]).value;
    assert s == s[..19] + s[19..];
    assert s == s[..19] + Dotted(fraction) + zone;
    assert Spelled(s, s[..19], fraction, zone);
  }

  /** The pattern matches exactly the texts so spelled, and captures their parts. */
  lemma MatchesExactly(s: string)
    ensures Match(s).Some? <==> exists head, fraction, zone :: Spelled(s, head, fraction, zone)
    ensures forall head, fraction, zone | Spelled(s, head, fraction, zone) ::
              Match(s) == Some(FieldsOf(head, fraction, zone))
  {
    if Match(s).Some? {
      MatchIsSpelled(s);
    }
    forall head, fraction, zone | Spelled(s, head, fraction, zone)
      ensures Match(s) == Some(FieldsOf(head, fraction, zone))
    {
      SpelledMatches(s, head, fraction, zone);
    }
  }

  // ----- Date -----

  /** Years 0 to 99 mean 1900 to 1999 to `Date.UTC`. */
  function MakeFullYear(year: int): int {
    if 0 <= year <= 99 then 1900 + year else year
  }

  function MadeDay(d: Date): int
    requires 1 <= d.month <= 12
  {
    MakeDay(MakeFullYear(d.year), d.month - 1, d.day)
  }

  function DateUtc(f: Fields): int
    requires 1 <= f.date.month <= 12
  {
    MadeDay(f.date) * DAY_MS
      + f.hour * HOUR_MS + f.minute * MINUTE_MS + f.second * 1000 + f.ms
  }

  function Offset(f: Fields): int {
    (if f.negative then -1 else 1) * (f.zoneHour * 60 + f.zoneMinute)
  }

  /** The getters of a date object, in UTC. */
  predicate ProbeAgrees(t: int, f: Fields) {
    && DateFromDay(t / DAY_MS) == f.date
    && t % DAY_MS / HOUR_MS == f.hour && t % HOUR_MS / MINUTE_MS == f.minute
    && t % MINUTE_MS / 1000 == f.second && t % 1000 == f.ms
  }

  predicate FieldsInRange(f: Fields) {
    && 1 <= f.date.month <= 12 && 1 <= f.date.day
    && f.hour <= 23 && f.minute <= 59 && f.second <= 59 && f.ms <= 999 && f.zoneHour <= 23 && f.zoneMinute <= 59
  }

  /** The instant that the captured fields name, if they pass the range checks and the probe. */
  function Instant(f: Fields): Option<int> {
    if !FieldsInRange(f) then None
    else
      var utcMs := DateUtc(f) - Offset(f) * MINUTE_MS;
      if ProbeAgrees(utcMs + Offset(f) * MINUTE_MS, f) then Some(utcMs) else None
  }

  /** `parseAuthoritativeTimestamp` on a string; the other argument types give `None`. */
  function Parse(value: string): Option<int> {
    var trimmed := Trim(value);
    if trimmed == "" then None
    else
      match Match(trimmed)
      case None => None
      case Some(f) => Instant(f)
  }

  // ----- what it accepts -----

  /** The fields name a moment: a day that exists, from year 100 on, and a time and zone in range. */
  predicate NamesAMoment(f: Fields) {
    && Valid(f.date) && f.date.year >= 100
    && f.hour <= 23 && f.minute <= 59 && f.second <= 59 && f.zoneHour <= 23 && f.zoneMinute <= 59
  }

  /** Milliseconds from the epoch, by counting days. */
  function Moment(f: Fields): int
    requires Valid(f.date)
  {
    ((DayNumber(f.date) * 24 + f.hour) * 60 + f.minute - Offset(f)) * 60_000 + f.second * 1000 + f.ms
  }

  lemma {:induction false} NumberBound(s: string)
    requires Digits(s) && |s| <= 3
    ensures Number(s) <= if |s| == 3 then 999 else if |s| == 2 then 99 else if |s| == 1 then 9 else 0
  {
    if s != "" { NumberBound(s[..|s| - 1]); }
  }

  lemma FieldsBound(head: string, fraction: string, zone: string)
    requires HeadShape(head) && Digits(fraction) && |fraction| <= 3 && ZoneShape(zone)
    ensures FieldsBounded(FieldsOf(head, fraction, zone))
  {
    NumberBound(fraction + "000"[|fraction|..]);
  }

  lemma MatchBound(s: string)
    requires Match(s).Some?
    ensures FieldsBounded(Match(s).value)
  {
    TailShape(s[19..]);
    var (fraction, zone) := Tail(s[19..]).value;
    FieldsBound(s[..19], fraction, zone);
  }

  lemma SplitDay(q: int, r: int)
    requires 0 <= r < DAY_MS
    ensures (q * DAY_MS + r) / DAY_MS == q && (q * DAY_MS + r) % DAY_MS == r
  {
  }

  lemma SplitHour(q: int, r: int)
    requires 0 <= r < HOUR_MS
    ensures (q * HOUR_MS + r) / HOUR_MS == q && (q * HOUR_MS + r) % HOUR_MS == r
  {
  }

  lemma SplitMinute(q: int, r: int)
    requires 0 <= r < MINUTE_MS
    ensures (q * MINUTE_MS + r) / MINUTE_MS == q && (q * MINUTE_MS + r) % MINUTE_MS == r
  {
  }

  lemma SplitSecond(q: int, r: int)
    requires 0 <= r < 1000
    ensures (q * 1000 + r) / 1000 == q && (q * 1000 + r) % 1000 == r
  {
  }

  function Clock(day: int, hour: int, minute: int, second: int, ms: int): int {
    day * DAY_MS + hour * HOUR_MS + minute * MINUTE_MS + second * 1000 + ms
  }

  lemma ClockFields(day: int, hour: int, minute: int, second: int, ms: int)
    requires 0 <= hour <= 23 && 0 <= minute <= 59 && 0 <= second <= 59 && 0 <= ms <= 999
    ensures var t := Clock(day, hour, minute, second, ms);
      && t / DAY_MS == day && t % DAY_MS / HOUR_MS == hour && t % HOUR_MS / MINUTE_MS == minute
      && t % MINUTE_MS / 1000 == second && t % 1000 == ms
  {
    var s := second * 1000 + ms;
    SplitDay(day, hour * HOUR_MS + minute * MINUTE_MS + s);
    SplitHour(hour, minute * MINUTE_MS + s);
    SplitHour(day * 24 + hour, minute * MINUTE_MS + s);
    SplitMinute(minute, s);
    SplitMinute((day * 24 + hour) * 60 + minute, s);
    SplitSecond(second, ms);
    SplitSecond(((day * 24 + hour) * 60 + minute) * 60 + second, ms);
  }

  predicate ClockInRange(f: Fields) {
    0 <= f.hour <= 23 && 0 <= f.minute <= 59 && 0 <= f.second <= 59 && 0 <= f.ms <= 999
  }

  lemma ProbeReadsTheDay(f: Fields)
    requires 1 <= f.date.month <= 12 && ClockInRange(f)
    ensures ProbeAgrees(DateUtc(f), f) <==> DateFromDay(MadeDay(f.date)) == f.date
  {
    var day := MadeDay(f.date);
    assert DateUtc(f) == Clock(day, f.hour, f.minute, f.second, f.ms);
    ClockFields(day, f.hour, f.minute, f.second, f.ms);
  }

  lemma DayReadBackExists(d: Date)
    requires 1 <= d.month <= 12 && 1 <= d.day && 0 <= d.year && DateFromDay(MadeDay(d)) == d
    ensures Valid(d) && d.year >= 100
  {
    DateOfDay(MadeDay(d));
    if d.year < 100 { OverflowStaysLater(Date(1900 + d.year, d.month, d.day)); }
  }

  lemma ExistingDayIsReadBack(d: Date)
    requires Valid(d) && d.year >= 100
    ensures DateFromDay(MadeDay(d)) == d
  {
    MakeDayCounts(d);
    DayOfDate(d);
  }

  /** The probe passes exactly on days that exist in years that `Date.UTC` does not shift. */
  lemma ProbePasses(f: Fields)
    requires 1 <= f.date.month <= 12 && 1 <= f.date.day && 0 <= f.date.year && ClockInRange(f)
    ensures ProbeAgrees(DateUtc(f), f) <==> Valid(f.date) && f.date.year >= 100
  {
    ProbeReadsTheDay(f);
    if ProbeAgrees(DateUtc(f), f) {
      DayReadBackExists(f.date);
    } else if Valid(f.date) && f.date.year >= 100 {
      ExistingDayIsReadBack(f.date);
      assert false;
    }
  }

  lemma UtcIsTheMoment(f: Fields)
    requires Valid(f.date) && !(0 <= f.date.year <= 99)
    ensures DateUtc(f) - Offset(f) * MINUTE_MS == Moment(f)
  {
    MakeDayCounts(f.date);
  }

  predicate FieldsBounded(f: Fields) {
    && 0 <= f.date.year && 0 <= f.date.month && 0 <= f.date.day
    && 0 <= f.hour && 0 <= f.minute && 0 <= f.second && 0 <= f.ms <= 999
    && 0 <= f.zoneHour && 0 <= f.zoneMinute
  }

  lemma InstantsAreMoments(f: Fields)
    requires FieldsBounded(f)
    ensures Instant(f) == if NamesAMoment(f) then Some(Moment(f)) else None
  {
    if FieldsInRange(f) {
      assert DateUtc(f) - Offset(f) * MINUTE_MS + Offset(f) * MINUTE_MS == DateUtc(f);
      ProbePasses(f);
      if NamesAMoment(f) { UtcIsTheMoment(f); }
    }
  }

  /** The text is spelled canonically and its fields name the moment `t`. */
  ghost predicate Spells(s: string, t: int) {
    exists head, fraction, zone :: Spelled(s, head, fraction, zone)
      && NamesAMoment(FieldsOf(head, fraction, zone)) && Moment(FieldsOf(head, fraction, zone)) == t
  }

  lemma MatchedMoments(value: string)
    ensures Parse(value) ==
      match Match(Trim(value))
      case None => None
      case Some(f) => if NamesAMoment(f) then Some(Moment(f)) else None
  {
    var trimmed := Trim(value);
    if Match(trimmed).Some? {
      MatchBound(trimmed);
      InstantsAreMoments(Match(trimmed).value);
    }
  }

  /**
   * The parser accepts exactly the canonical zoned strings, surrounded by any white space, that name
   * a moment, and returns the milliseconds counted out for it.
   */
  lemma ParseAcceptsExactlyMoments(value: string)
    ensures forall t :: Parse(value) == Some(t) <==> Spells(Trim(value), t)
    ensures Parse(value).None? <==> !exists t :: Spells(Trim(value), t)
  {
    MatchedMoments(value);
    MatchesExactly(Trim(value));
    forall t ensures Parse(value) == Some(t) <==> Spells(Trim(value), t) {
      if Parse(value) == Some(t) {
        var head, fraction, zone :| Spelled(Trim(value), head, fraction, zone);
        assert Match(Trim(value)) == Some(FieldsOf(head, fraction, zone));
      }
    }
    if Parse(value).Some? { assert Spells(Trim(value), Parse(value).value); }
  }
}
