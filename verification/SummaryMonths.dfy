/**
 * Months as the summary cache sees them: the month labels that calls invalidate, taken in the
 * caller's own offset, and the months that the database session's zone gives to entries and to
 * the labels of queries. Offsets are in seconds; months are counted from January of year 0.
 */
module SummaryMonths {
  import opened Calendar
  import opened SummaryCache
  import L = Ledger

  const DAY_SECONDS: int := 86_400

  function IndexOf(d: Date): int { d.year * 12 + d.month - 1 }

  /** The month of an instant as read in an offset. */
  function OwnLabel(t: int, offset: int): int { IndexOf(DateOf((t + offset * SECOND) / DAY)) }

  function FirstDay(m: int): Date { Date(m / 12, m % 12 + 1, 1) }

  /** The instant that the label m is sent to the database as: its first midnight in UTC. */
  function MonthStart(m: int): int { Midnight(FirstDay(m)) }

  /** A database session in a zone with a fixed offset. */
  function SessionZone(offset: int): Zone {
    Zone(t => OwnLabel(t, offset), m => OwnLabel(MonthStart(m), offset))
  }

  // ---------------------------------------------------------------- what a label's query asks for

  lemma DayShift(n: int, offset: int)
    requires -DAY_SECONDS < offset < DAY_SECONDS
    ensures (n * DAY + offset * SECOND) / DAY == if offset < 0 then n - 1 else n
  {
    var r := if offset < 0 then offset * SECOND + DAY else offset * SECOND;
    var q := if offset < 0 then n - 1 else n;
    assert 0 <= r < DAY && n * DAY + offset * SECOND == q * DAY + r;
    DivUnique(q, r);
  }

  lemma DivUnique(q: int, r: int)
    requires 0 <= r < DAY
    ensures (q * DAY + r) / DAY == q
  {
  }

  lemma NextYear(y: int)
    ensures DaysToYear(y + 1) == DaysToYear(y) + YearLength(y)
  {
    if y >= 1970 {
      assert DaysToYear(y + 1) == DaysToYear(y) + YearLength(y);
    } else {
      assert DaysToYear(y) == DaysToYear(y + 1) - YearLength(y);
    }
  }

  function LastDay(m: int): Date { Date(m / 12, m % 12 + 1, MonthLength(m / 12, m % 12 + 1)) }

  lemma LastThenFirst(m: int)
    ensures DayOf(LastDay(m)) + 1 == DayOf(FirstDay(m + 1))
  {
    var y, k := m / 12, m % 12 + 1;
    if k < 12 {
      assert FirstDay(m + 1) == Date(y, k + 1, 1);
      assert DaysToMonth(y, k + 1) == DaysToMonth(y, k) + MonthLength(y, k);
    } else {
      assert FirstDay(m + 1) == Date(y + 1, 1, 1);
      TwelveMonths(y);
      assert DaysToMonth(y, 13) == DaysToMonth(y, 12) + MonthLength(y, 12);
      NextYear(y);
    }
  }

  lemma FirstIndex(m: int)
    ensures IndexOf(DateOf(DayOf(FirstDay(m)))) == m
  {
    DateOfDay(FirstDay(m));
  }

  lemma LastIndex(m: int)
    ensures IndexOf(DateOf(DayOf(FirstDay(m + 1)) - 1)) == m
  {
    LastThenFirst(m);
    DateOfDay(LastDay(m));
  }

  lemma StartDay(m: int, offset: int)
    requires -DAY_SECONDS < offset < DAY_SECONDS
    ensures (MonthStart(m) + offset * SECOND) / DAY == DayOf(FirstDay(m)) - if offset < 0 then 1 else 0
  {
    DayShift(DayOf(FirstDay(m)), offset);
  }

  /** A session east of UTC, or in it, reads label m as month m; one west of UTC reads it as the month before. */
  lemma QueriedMonth(m: int, offset: int)
    requires -DAY_SECONDS < offset < DAY_SECONDS
    ensures OwnLabel(MonthStart(m), offset) == if offset < 0 then m - 1 else m
  {
    StartDay(m, offset);
    FirstIndex(m);
    LastIndex(m - 1);
  }

  /** The one label whose query covers an entry at `t`. */
  function CoveringLabel(t: int, session: int): int { OwnLabel(t, session) + (if session < 0 then 1 else 0) }

  lemma CoveringIff(t: int, session: int, m: int)
    requires -DAY_SECONDS < session < DAY_SECONDS
    ensures SessionZone(session).queried(m) == SessionZone(session).month(t) <==> m == CoveringLabel(t, session)
  {
    QueriedMonth(m, session);
  }

  // ---------------------------------------------------------------- what a call invalidates

  /** The call behind a commit: a create or transfer with the offset its caller wrote, or a reversal. */
  datatype Maker =
    | Requested(at: int, offset: int)
    | Reversed(original: int, local: int, now: int)  // `local`: the service's zone, in which the original is read back

  /** The month labels it invalidates, for each leg's account. */
  function Labels(c: Maker): seq<int> {
    match c
    case Requested(at, offset) => [OwnLabel(at, offset)]
    case Reversed(original, local, now) => [OwnLabel(original, local), OwnLabel(now, 0)]
  }

  /** When its transaction occurred, and as stored. */
  function MadeAt(c: Maker): int { if c.Requested? then c.at else c.now }

  function OccursAt(c: Maker): int { L.Micros(MadeAt(c)) }

  lemma DivMicros(t: int, k: int)
    ensures (t / 1000 * 1000 + 1000 * k) / DAY == (t + 1000 * k) / DAY
  {
    var q := t / 1000 + k;
    var d := DAY / 1000;
    var r := t % 1000;
    assert t + 1000 * k == 1000 * q + r && t / 1000 * 1000 + 1000 * k == 1000 * q;
    assert q == q / d * d + q % d;
    assert 1000 * q == q / d * DAY + 1000 * (q % d);
    DivUnique(q / d, 1000 * (q % d));
    DivUnique(q / d, 1000 * (q % d) + r);
  }

  /** Months begin on whole microseconds: storing an instant does not change its month. */
  lemma StoredMonth(t: int, offset: int)
    ensures OwnLabel(L.Micros(t), offset) == OwnLabel(t, offset)
  {
    DivMicros(t, offset * 1_000_000);
  }

  lemma StoredCovering(c: Maker, session: int)
    ensures CoveringLabel(OccursAt(c), session) == CoveringLabel(MadeAt(c), session)
  {
    StoredMonth(MadeAt(c), session);
  }

  // ---------------------------------------------------------------- a year's end

  lemma NewYear()
    ensures OwnLabel(0, 0) == 1970 * 12
    ensures OwnLabel(0, -18_000) == 1969 * 12 + 11
  {
    assert FirstDay(1970 * 12) == Date(1970, 1, 1) && MonthStart(1970 * 12) == 0;
    QueriedMonth(1970 * 12, 0);
    QueriedMonth(1970 * 12, -18_000);
  }

  /** 1969-12-31T23:00:00Z. */
  lemma LastHour()
    ensures OwnLabel(-3_600_000_000_000, 0) == 1969 * 12 + 11
    ensures OwnLabel(-3_600_000_000_000, 18_000) == 1970 * 12
  {
    NewYear();
    assert (-3_600_000_000_000 + 0 * SECOND) / DAY == (0 + -18_000 * SECOND) / DAY;
    assert (-3_600_000_000_000 + 18_000 * SECOND) / DAY == (0 + 0 * SECOND) / DAY;
  }
}
