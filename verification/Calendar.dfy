/**
 * The proleptic Gregorian calendar in UTC, and Go's RFC3339Nano text form of an instant.
 * Instants are nanoseconds since 1970-01-01T00:00:00Z.
 */
module Calendar {
  import opened Text

  const SECOND: int := 1_000_000_000
  const DAY: int := 86_400_000_000_000

  predicate Leap(y: int) { y % 4 == 0 && (y % 100 != 0 || y % 400 == 0) }

  function YearLength(y: int): (n: nat)
    ensures 365 <= n <= 366
  {
    if Leap(y) then 366 else 365
  }

  function MonthLength(y: int, m: int): (n: nat)
    ensures 28 <= n <= 31
  {
    if m == 2 then (if Leap(y) then 29 else 28)
    else if m == 4 || m == 6 || m == 9 || m == 11 then 30
    else 31
  }

  /** Days from 1970-01-01 to January 1 of year `y`. */
  function DaysToYear(y: int): int
    decreases if y < 1970 then 1970 - y else y - 1970
  {
    if y == 1970 then 0
    else if y > 1970 then DaysToYear(y - 1) + YearLength(y - 1)
    else DaysToYear(y + 1) - YearLength(y)
  }

  /** Days from January 1 to the first of month `m`. */
  function DaysToMonth(y: int, m: nat): nat
  {
    if m <= 1 then 0 else DaysToMonth(y, m - 1) + MonthLength(y, m - 1)
  }

  lemma TwelveMonths(y: int)
    ensures DaysToMonth(y, 13) == YearLength(y)
  {
    var extra := if Leap(y) then 1 else 0;
    assert DaysToMonth(y, 2) == 31;
    assert DaysToMonth(y, 3) == 59 + extra;
    assert DaysToMonth(y, 5) == 120 + extra;
    assert DaysToMonth(y, 7) == 181 + extra;
    assert DaysToMonth(y, 9) == 243 + extra;
    assert DaysToMonth(y, 11) == 304 + extra;
  }

  datatype Date = Date(year: int, month: nat, day: nat)

  predicate ValidDate(d: Date) {
    1 <= d.month <= 12 && 1 <= d.day <= MonthLength(d.year, d.month)
  }

  /** The day number of a date. */
  function DayOf(d: Date): int { DaysToYear(d.year) + DaysToMonth(d.year, d.month) + d.day - 1 }

  /** The year of the day that is `n` days after January 1 of `y`, and the day in that year. */
  function FindYear(n: int, y: int): (r: (int, nat))
    ensures r.1 < YearLength(r.0)
    ensures DaysToYear(r.0) + r.1 == DaysToYear(y) + n
    decreases if n < 0 then 400 - n else n
  {
    if n < 0 then FindYear(n + YearLength(y - 1), y - 1)
    else if n < YearLength(y) then (y, n)
    else FindYear(n - YearLength(y), y + 1)
  }

  /** The date `n` days after the first of month `m`. */
  function FindMonth(n: nat, y: int, m: nat): (d: Date)
    requires 1 <= m <= 12 && DaysToMonth(y, m) + n < DaysToMonth(y, 13)
    ensures ValidDate(d) && d.year == y && DaysToMonth(y, d.month) + d.day - 1 == DaysToMonth(y, m) + n
    decreases n
  {
    if n < MonthLength(y, m) then Date(y, m, n + 1)
    else
      assert DaysToMonth(y, m + 1) == DaysToMonth(y, m) + MonthLength(y, m);
      FindMonth(n - MonthLength(y, m), y, m + 1)
  }

  /** The date of a day number, and back. */
  function DateOf(n: int): (d: Date)
    ensures ValidDate(d) && DayOf(d) == n
  {
    var (y, k) := FindYear(n, 1970);
    TwelveMonths(y);
    FindMonth(k, y, 1)
  }

  // ---------------------------------------------------------------- days and dates correspond

  lemma {:induction false} MonthsIncrease(y: int, m: nat, k: nat)
    requires 1 <= m < k
    ensures DaysToMonth(y, m) + MonthLength(y, m) <= DaysToMonth(y, k)
  {
    if m < k - 1 {
      MonthsIncrease(y, m, k - 1);
    }
  }

  lemma {:induction false} YearsIncrease(y: int, z: int)
    requires y < z
    ensures DaysToYear(y) + YearLength(y) <= DaysToYear(z)
    decreases z - y
  {
    if y < z - 1 {
      YearsIncrease(y, z - 1);
    }
    if z - 1 >= 1970 {
      assert DaysToYear(z) == DaysToYear(z - 1) + YearLength(z - 1);
    } else {
      assert DaysToYear(z - 1) == DaysToYear(z) - YearLength(z - 1);
    }
  }

  predicate Earlier(a: Date, b: Date) {
    a.year < b.year || (a.year == b.year && (a.month < b.month || (a.month == b.month && a.day < b.day)))
  }

  /** Day numbers order dates as the calendar does, so `DateOf` is the only date with its day number. */
  lemma DayOfIncreases(a: Date, b: Date)
    requires ValidDate(a) && ValidDate(b) && Earlier(a, b)
    ensures DayOf(a) < DayOf(b)
  {
    if a.year < b.year {
      TwelveMonths(a.year);
      MonthsIncrease(a.year, a.month, 13);
      YearsIncrease(a.year, b.year);
    } else if a.month < b.month {
      MonthsIncrease(a.year, a.month, b.month);
    }
  }

  lemma DateOfDay(d: Date)
    requires ValidDate(d)
    ensures DateOf(DayOf(d)) == d
  {
    var e := DateOf(DayOf(d));
    if e != d {
      if Earlier(d, e) {
        DayOfIncreases(d, e);
      } else {
        DayOfIncreases(e, d);
      }
    }
  }

  function Year(t: int): int { DateOf(t / DAY).year }

  function Midnight(d: Date): int { DayOf(d) * DAY }

  /** The years before `y` are the instants before its first midnight. */
  lemma YearBefore(t: int, y: int)
    ensures Year(t) < y <==> t < Midnight(Date(y, 1, 1))
  {
    var first, d := Date(y, 1, 1), DateOf(t / DAY);
    if d.year < y {
      DayOfIncreases(d, first);
    } else if d != first {
      DayOfIncreases(first, d);
    }
  }

  /** Leap days from year 1 up to, not including, year `y`. */
  function LeapsBefore(y: int): int { (y - 1) / 4 - (y - 1) / 100 + (y - 1) / 400 }

  lemma DivStep4(y: int)
    ensures y / 4 == (y - 1) / 4 + if y % 4 == 0 then 1 else 0
  {
  }

  lemma DivStep100(y: int)
    ensures y / 100 == (y - 1) / 100 + if y % 100 == 0 then 1 else 0
  {
  }

  lemma DivStep400(y: int)
    ensures y / 400 == (y - 1) / 400 + if y % 400 == 0 then 1 else 0
  {
  }

  lemma Multiples(y: int)
    ensures y % 400 == 0 ==> y % 100 == 0
    ensures y % 100 == 0 ==> y % 4 == 0
  {
  }

  lemma LeapStep(y: int)
    ensures LeapsBefore(y + 1) == LeapsBefore(y) + (if Leap(y) then 1 else 0)
  {
    DivStep4(y);
    DivStep100(y);
    DivStep400(y);
    Multiples(y);
  }

  /** The Gregorian calendar in closed form: 97 leap years in 400. */
  lemma {:induction false} DaysToYearClosed(y: int)
    ensures DaysToYear(y) == 365 * (y - 1970) + LeapsBefore(y) - 477
    decreases if y < 1970 then 1970 - y else y - 1970
  {
    if y > 1970 {
      DaysToYearClosed(y - 1);
      LeapStep(y - 1);
    } else if y < 1970 {
      DaysToYearClosed(y + 1);
      LeapStep(y);
    }
  }

  /** "Thirty days have September, April, June and November ..." */
  lemma MonthStarts(y: int)
    ensures var leap := if Leap(y) then 1 else 0;
      && DaysToMonth(y, 1) == 0 && DaysToMonth(y, 2) == 31 && DaysToMonth(y, 3) == 59 + leap
      && DaysToMonth(y, 4) == 90 + leap && DaysToMonth(y, 5) == 120 + leap && DaysToMonth(y, 6) == 151 + leap
      && DaysToMonth(y, 7) == 181 + leap && DaysToMonth(y, 8) == 212 + leap && DaysToMonth(y, 9) == 243 + leap
      && DaysToMonth(y, 10) == 273 + leap && DaysToMonth(y, 11) == 304 + leap && DaysToMonth(y, 12) == 334 + leap
  {
    var leap := if Leap(y) then 1 else 0;
    assert DaysToMonth(y, 2) == 31;
    assert DaysToMonth(y, 4) == 90 + leap;
    assert DaysToMonth(y, 6) == 151 + leap;
    assert DaysToMonth(y, 8) == 212 + leap;
    assert DaysToMonth(y, 10) == 273 + leap;
  }

  // ---------------------------------------------------------------- formatting

  /** Go pads a year to four digits and writes longer and negative ones in full. */
  function FormatYear(y: int): string {
    if 0 <= y < 10_000 then Four(y)
    else if y < 0 then "-" + (if -y < 10_000 then Four(-y) else Decimal(-y))
    else Decimal(y)
  }

  datatype TimeOfDay = TimeOfDay(hour: nat, minute: nat, second: nat, ns: nat)

  predicate ValidTime(c: TimeOfDay) { c.hour < 24 && c.minute < 60 && c.second < 60 && c.ns < SECOND }

  function Nanos(c: TimeOfDay): int { (c.hour * 3600 + c.minute * 60 + c.second) * SECOND + c.ns }

  function TimeOf(n: nat): (c: TimeOfDay)
    requires n < DAY
    ensures ValidTime(c) && Nanos(c) == n
  {
    var secs := n / SECOND;
    TimeOfDay(secs / 3600, secs / 60 % 60, secs % 60, n % SECOND)
  }

  /** The fixed-width part after the year: -MM-DDThh:mm:ss. */
  function Stamp(m: nat, d: nat, c: TimeOfDay): string
    requires m < 100 && d < 100 && ValidTime(c)
  {
    ['-', Digit(m / 10), Digit(m % 10), '-', Digit(d / 10), Digit(d % 10), 'T',
     Digit(c.hour / 10), Digit(c.hour % 10), ':', Digit(c.minute / 10), Digit(c.minute % 10), ':',
     Digit(c.second / 10), Digit(c.second % 10)]
  }

  /** The digits of a fraction of `w` digits, without trailing zeros. */
  function Trimmed(n: nat, w: nat): string
    decreases w
  {
    if n % 10 == 0 && w > 0 then Trimmed(n / 10, w - 1) else Pad(n, w)
  }

  /** The fraction, if any, and the zone. */
  function FormatTail(ns: nat): string { if ns == 0 then "Z" else "." + Trimmed(ns, 9) + "Z" }

  function FormatParts(d: Date, c: TimeOfDay): string
    requires ValidDate(d) && ValidTime(c)
  {
    FormatYear(d.year) + Stamp(d.month, d.day, c) + FormatTail(c.ns)
  }

  /** t.UTC().Format(time.RFC3339Nano). */
  function Format(t: int): string { FormatParts(DateOf(t / DAY), TimeOf(t % DAY)) }

  // ---------------------------------------------------------------- parsing

  /** A parsed piece and the index after it. */
  datatype Piece<+T> = Piece(value: T, next: nat) | Malformed

  /** Two digits at `i`, or -1. */
  function TwoAt(s: string, i: nat): int {
    if i + 1 < |s| && IsDigit(s[i]) && IsDigit(s[i + 1]) then DigitValue(s[i]) * 10 + DigitValue(s[i + 1]) else -1
  }

  predicate CharAt(s: string, i: nat, c: char) { i < |s| && s[i] == c }

  predicate DigitAt(s: string, i: nat) { i < |s| && IsDigit(s[i]) }

  function ParseDate(s: string): Piece<Date> {
    var century, year, m, d := TwoAt(s, 0), TwoAt(s, 2), TwoAt(s, 5), TwoAt(s, 8);
    if century < 0 || year < 0 || !CharAt(s, 4, '-') || !(1 <= m <= 12) || !CharAt(s, 7, '-') then Malformed
    else if !(1 <= d <= MonthLength(century * 100 + year, m)) then Malformed
    else Piece(Date(century * 100 + year, m, d), 10)
  }

  /** Go reads an hour of one digit too. */
  function ParseHour(s: string, i: nat): Piece<nat> {
    if !DigitAt(s, i) then Malformed
    else if !DigitAt(s, i + 1) then Piece(DigitValue(s[i]), i + 1)
    else if TwoAt(s, i) < 24 then Piece(TwoAt(s, i), i + 2)
    else Malformed
  }

  function CountDigits(s: string, i: nat): (k: nat)
    ensures i + k <= |s| || k == 0
    ensures forall j :: i <= j < i + k ==> IsDigit(s[j])
    decreases |s| - i
  {
    if DigitAt(s, i) then 1 + CountDigits(s, i + 1) else 0
  }

  function ValueAt(s: string, i: nat, k: nat): nat
    requires i + k <= |s| && forall j :: i <= j < i + k ==> IsDigit(s[j])
  {
    if k == 0 then 0 else ValueAt(s, i, k - 1) * 10 + DigitValue(s[i + k - 1])
  }

  /** An optional fraction, after a point or a comma; digits beyond the ninth are dropped. */
  function ParseFraction(s: string, i: nat): Piece<nat> {
    if (CharAt(s, i, '.') || CharAt(s, i, ',')) && DigitAt(s, i + 1)
    then
      var k := CountDigits(s, i + 1);
      var n := if k > 9 then 9 else k;
      Piece(ValueAt(s, i + 1, n) * Pow10(9 - n), i + 1 + k)
    else Piece(0, i)
  }

  /** Hours, minutes, seconds and fraction, in nanoseconds. */
  function ParseClock(s: string, i: nat): Piece<nat> {
    var h := ParseHour(s, i);
    if h.Malformed? then Malformed
    else
      var j := h.next;
      var m, sec := TwoAt(s, j + 1), TwoAt(s, j + 4);
      if !CharAt(s, j, ':') || !(0 <= m < 60) || !CharAt(s, j + 3, ':') || !(0 <= sec < 60) then Malformed
      else
        var f := ParseFraction(s, j + 6);
        if f.Malformed? then Malformed else Piece((h.value * 3600 + m * 60 + sec) * SECOND + f.value, f.next)
  }

  /** `Z`, or an offset from UTC in seconds; Go allows 24 hours and 60 minutes here. */
  function ParseZone(s: string, i: nat): Piece<int> {
    if CharAt(s, i, 'Z') then Piece(0, i + 1)
    else
      var hh, mm := TwoAt(s, i + 1), TwoAt(s, i + 4);
      if !(CharAt(s, i, '+') || CharAt(s, i, '-')) || !(0 <= hh <= 24) || !CharAt(s, i + 3, ':') || !(0 <= mm <= 60)
        then Malformed
      else Piece((if s[i] == '+' then 1 else -1) * (hh * 60 + mm) * 60, i + 6)
  }

  /** time.Parse(time.RFC3339Nano, s), as an instant. */
  function ParseInstant(s: string): Parse<int> {
    var d := ParseDate(s);
    if d.Malformed? || !CharAt(s, d.next, 'T') then Bad
    else
      var c := ParseClock(s, d.next + 1);
      if c.Malformed? then Bad
      else
        var z := ParseZone(s, c.next);
        if z.Malformed? || z.next != |s| then Bad
        else Got(Midnight(d.value) + c.value - z.value * SECOND)
  }

  // ---------------------------------------------------------------- round trip

  lemma Powers()
    ensures Pow10(4) == 10_000 && Pow10(9) == 1_000_000_000
  {
    assert Pow10(4) == 10_000;
    assert Pow10(6) == 1_000_000;
    assert Pow10(8) == 100_000_000;
  }

  lemma TimesTen(a: nat, p: nat)
    ensures a * (10 * p) == 10 * (a * p)
  {
  }

  lemma {:induction false} TrimmedValue(n: nat, w: nat) returns (k: nat)
    requires 0 < n < Pow10(w) && w <= 9
    ensures |Trimmed(n, w)| == k && 1 <= k <= w && AllDigits(Trimmed(n, w))
    ensures Value(Trimmed(n, w)) * Pow10(w - k) == n
  {
    if n % 10 == 0 && w > 0 {
      k := TrimmedValue(n / 10, w - 1);
      TimesTen(Value(Trimmed(n / 10, w - 1)), Pow10(w - 1 - k));
    } else {
      PadValue(n, w);
      k := w;
    }
  }

  /** The text `ds` stands at index `i` of `s`. */
  predicate Holds(s: string, i: nat, ds: string) {
    i + |ds| <= |s| && forall j :: 0 <= j < |ds| ==> s[i + j] == ds[j]
  }

  lemma {:induction false} CountRun(s: string, i: nat, ds: string)
    requires Holds(s, i, ds) && AllDigits(ds) && !DigitAt(s, i + |ds|)
    ensures CountDigits(s, i) == |ds|
    decreases |ds|
  {
    if ds != [] {
      assert s[i + 0] == ds[0];
      var rest := ds[1..];
      assert Holds(s, i + 1, rest) by {
        forall j | 0 <= j < |rest| ensures s[i + 1 + j] == rest[j] {
          assert s[i + (j + 1)] == ds[j + 1];
        }
      }
      CountRun(s, i + 1, rest);
    }
  }

  lemma {:induction false} ValueRun(s: string, i: nat, ds: string, k: nat)
    requires Holds(s, i, ds) && AllDigits(ds) && k <= |ds|
    requires forall j :: i <= j < i + k ==> IsDigit(s[j])
    ensures ValueAt(s, i, k) == Value(ds[..k])
  {
    if k > 0 {
      ValueRun(s, i, ds, k - 1);
      assert ds[..k][..k - 1] == ds[..k - 1];
      assert s[i + (k - 1)] == ds[k - 1];
    }
  }

  lemma DigitsThen(s: string, i: nat, ds: string)
    requires CharAt(s, i, '.') && 1 <= |ds| <= 9 && AllDigits(ds) && Holds(s, i + 1, ds) && !DigitAt(s, i + 1 + |ds|)
    ensures ParseFraction(s, i) == Piece(Value(ds) * Pow10(9 - |ds|), i + 1 + |ds|)
  {
    CountRun(s, i + 1, ds);
    assert s[i + 1 + 0] == ds[0];
    ValueRun(s, i + 1, ds, |ds|);
    assert ds[..|ds|] == ds;
  }

  lemma TailRoundTrip(s: string, i: nat, ns: nat)
    requires ns < SECOND && Holds(s, i, FormatTail(ns)) && |s| == i + |FormatTail(ns)|
    ensures ParseFraction(s, i) == Piece(ns, |s| - 1) && ParseZone(s, |s| - 1) == Piece(0, |s|)
  {
    var tail := FormatTail(ns);
    assert s[i + 0] == tail[0];
    assert s[i + (|tail| - 1)] == tail[|tail| - 1];
    if ns > 0 {
      Powers();
      var k := TrimmedValue(ns, 9);
      var ds := Trimmed(ns, 9);
      forall j | 0 <= j < k ensures s[i + 1 + j] == ds[j] {
        assert s[i + (j + 1)] == tail[j + 1];
      }
      DigitsThen(s, i, ds);
    }
  }

  /** Two digits written at `i` are read back. */
  lemma TwoBack(s: string, i: nat, n: nat)
    requires n < 100 && i + 1 < |s| && s[i] == Digit(n / 10) && s[i + 1] == Digit(n % 10)
    ensures TwoAt(s, i) == n && DigitAt(s, i) && DigitAt(s, i + 1)
  {
  }

  lemma YearBack(s: string, y: nat)
    requires y < 10_000 && Holds(s, 0, Four(y))
    ensures TwoAt(s, 0) * 100 + TwoAt(s, 2) == y && TwoAt(s, 0) >= 0 && TwoAt(s, 2) >= 0
  {
    var ds := Four(y);
    assert s[0 + 0] == ds[0] && s[0 + 1] == ds[1] && s[0 + 2] == ds[2] && s[0 + 3] == ds[3];
    TwoBack(s, 0, y / 100);
    TwoBack(s, 2, y % 100);
  }

  lemma DateRoundTrip(s: string, d: Date, c: TimeOfDay)
    requires ValidDate(d) && ValidTime(c) && 0 <= d.year < 10_000
    requires Holds(s, 0, Four(d.year)) && Holds(s, 4, Stamp(d.month, d.day, c))
    ensures ParseDate(s) == Piece(d, 10)
  {
    var st := Stamp(d.month, d.day, c);
    YearBack(s, d.year);
    assert s[4 + 0] == st[0] && s[4 + 1] == st[1] && s[4 + 2] == st[2];
    assert s[4 + 3] == st[3] && s[4 + 4] == st[4] && s[4 + 5] == st[5];
    TwoBack(s, 5, d.month);
    TwoBack(s, 8, d.day);
  }

  lemma ClockRoundTrip(s: string, m: nat, d: nat, c: TimeOfDay)
    requires m < 100 && d < 100 && ValidTime(c) && Holds(s, 4, Stamp(m, d, c))
    requires ParseFraction(s, 19) == Piece(c.ns, |s| - 1)
    ensures CharAt(s, 10, 'T') && ParseClock(s, 11) == Piece(Nanos(c), |s| - 1)
  {
    var st := Stamp(m, d, c);
    assert s[4 + 6] == st[6] && s[4 + 7] == st[7] && s[4 + 8] == st[8] && s[4 + 9] == st[9];
    assert s[4 + 10] == st[10] && s[4 + 11] == st[11] && s[4 + 12] == st[12];
    assert s[4 + 13] == st[13] && s[4 + 14] == st[14];
    TwoBack(s, 11, c.hour);
    TwoBack(s, 14, c.minute);
    TwoBack(s, 17, c.second);
  }

  lemma HoldsThree(a: string, b: string, c: string)
    ensures var s := a + b + c;
      |s| == |a| + |b| + |c| && Holds(s, 0, a) && Holds(s, |a|, b) && Holds(s, |a| + |b|, c)
  {
  }

  lemma TextRoundTrip(s: string, d: Date, c: TimeOfDay)
    requires ValidDate(d) && ValidTime(c) && 0 <= d.year < 10_000
    requires Holds(s, 0, Four(d.year)) && Holds(s, 4, Stamp(d.month, d.day, c))
    requires ParseFraction(s, 19) == Piece(c.ns, |s| - 1) && ParseZone(s, |s| - 1) == Piece(0, |s|)
    ensures ParseInstant(s) == Got(Midnight(d) + Nanos(c))
  {
    DateRoundTrip(s, d, c);
    ClockRoundTrip(s, d.month, d.day, c);
  }

  lemma PartsRoundTrip(d: Date, c: TimeOfDay, s: string)
    requires ValidDate(d) && ValidTime(c) && 0 <= d.year < 10_000
    requires s == Four(d.year) + Stamp(d.month, d.day, c) + FormatTail(c.ns)
    ensures ParseInstant(s) == Got(Midnight(d) + Nanos(c))
  {
    HoldsThree(Four(d.year), Stamp(d.month, d.day, c), FormatTail(c.ns));
    TailRoundTrip(s, 19, c.ns);
    TextRoundTrip(s, d, c);
  }

  lemma Recompose(t: int)
    ensures Midnight(DateOf(t / DAY)) + Nanos(TimeOf(t % DAY)) == t
  {
  }

  /** Instants in years 0 to 9999 survive formatting and parsing. */
  lemma InstantRoundTrip(t: int)
    requires 0 <= Year(t) < 10_000
    ensures ParseInstant(Format(t)) == Got(t)
  {
    PartsRoundTrip(DateOf(t / DAY), TimeOf(t % DAY), Format(t));
    Recompose(t);
  }

  /** Other years are written with a sign or a fifth digit, which the parser refuses. */
  lemma OtherYearsUnreadable(t: int)
    requires !(0 <= Year(t) < 10_000)
    ensures ParseInstant(Format(t)) == Bad
  {
    var y := Year(t);
    var s, ys := Format(t), FormatYear(y);
    assert ys <= s;
    if y < 0 {
      assert s[0] == '-';
    } else {
      Powers();
      DecimalValue(y);
      DecimalLength(y, 4);
      assert s[4] == ys[4] && IsDigit(ys[4]);
    }
  }

  lemma DigitsNoBar(s: string)
    requires AllDigits(s)
    ensures '|' !in s && '|' !in "-" + s
  {
  }

  /** A year is written as digits, after a sign if it is negative. */
  lemma YearDigits(y: int) returns (ds: string)
    ensures AllDigits(ds) && FormatYear(y) == if y < 0 then "-" + ds else ds
  {
    var n := if y < 0 then -y else y;
    if n < 10_000 {
      ds := Four(n);
    } else {
      DecimalValue(n);
      ds := Decimal(n);
    }
  }

  lemma YearNoBar(y: int)
    ensures '|' !in FormatYear(y)
  {
    var ds := YearDigits(y);
    DigitsNoBar(ds);
  }

  /** The text of an instant holds no separator of a cursor. */
  lemma NoBar(t: int)
    ensures '|' !in Format(t)
  {
    var d, c := DateOf(t / DAY), TimeOf(t % DAY);
    if c.ns > 0 {
      Powers();
      var k := TrimmedValue(c.ns, 9);
      assert forall x :: x in Trimmed(c.ns, 9) ==> IsDigit(x);
    }
    assert '|' !in FormatTail(c.ns);
    assert '|' !in Stamp(d.month, d.day, c);
    YearNoBar(d.year);
  }

  lemma TailExample()
    ensures FormatTail(120_000_000) == ".12Z"
  {
    assert Trimmed(120_000_000, 9) == Trimmed(12_000_000, 8) == Trimmed(1_200_000, 7) == Trimmed(120_000, 6);
    assert Trimmed(120_000, 6) == Trimmed(12_000, 5) == Trimmed(1_200, 4) == Trimmed(120, 3) == Trimmed(12, 2);
    assert Pad(12, 2) == Pad(1, 1) + ['2'] && Pad(1, 1) == Pad(0, 0) + ['1'];
  }

  lemma StampExample()
    ensures Stamp(6, 12, TimeOfDay(9, 30, 15, 120_000_000)) == "-06-12T09:30:15"
  {
  }

  lemma JoinExample(a: string, b: string, c: string)
    requires a == "2026" && b == "-06-12T09:30:15" && c == ".12Z"
    ensures a + b + c == "2026-06-12T09:30:15.12Z"
  {
  }

  /** A text in full. */
  lemma FormatExample()
    ensures FormatParts(Date(2026, 6, 12), TimeOfDay(9, 30, 15, 120_000_000)) == "2026-06-12T09:30:15.12Z"
  {
    TailExample();
    StampExample();
    assert FormatYear(2026) == Four(2026) == "2026";
    JoinExample(FormatYear(2026), Stamp(6, 12, TimeOfDay(9, 30, 15, 120_000_000)), FormatTail(120_000_000));
  }
}
