/**
 * The summary cache in Redis: readers, fillers, invalidations and commits interleaved step by
 * step, and how stale an answer can be. Times are nanoseconds.
 */
module SummaryCache {
  import opened Int64
  import opened Postings
  import L = Ledger
  import opened Summary

  const TTL: int := 300_000_000_000  // five minutes

  /** A cache key: the account and the month label in "summary:<account>:<YYYY-MM>". */
  type CacheKey = (int, int)

  /** `month` is the month of an instant in the DB session's zone, `queried` the one a label's query asks for. */
  datatype Zone = Zone(month: Months, queried: int -> int)

  /** What a fresh query for the key returns. */
  function View(z: Zone, db: L.Tables, k: CacheKey): MonthlySummary { Summarise(db, z.month, k.0, z.queried(k.1)) }

  predicate Fits64(v: MonthlySummary) { InRange(v.inflow) && InRange(v.outflow) && InRange(v.net) }

  /** A cached value; `readAt` and `readStep` are history: when it was read from the database. */
  datatype Cached = Cached(value: MonthlySummary, storedAt: int, readAt: int, readStep: nat)

  /** A call between its steps: it missed the cache, or it has read the database. */
  datatype Reader = Missed(key: CacheKey) | Filling(key: CacheKey, value: MonthlySummary, readAt: int, readStep: nat)

  /** History: a returned summary, when, the step it was read at, and its filler's read-to-store gap. */
  datatype Answer = Answer(key: CacheKey, value: MonthlySummary, at: int, readStep: nat, gap: int)

  datatype State = State(
    now: int, db: L.Tables, cache: map<CacheKey, Cached>, readers: map<nat, Reader>, step: nat, answers: seq<Answer>)

  datatype Label =
    | Tick(elapsed: nat)
    | Write(db: L.Tables)                             // any commit
    | Lookup(r: nat, key: CacheKey, ok: bool)       // GET; not ok: a Redis error
    | QueryDb(r: nat, ok: bool)
    | Store(r: nat, ok: bool)                       // SET with the TTL, and return
    | Invalidate(key: CacheKey, ok: bool)           // DEL; not ok: lost

  predicate Live(e: Cached, now: int) { now < e.storedAt + TTL }

  predicate Hit(s: State, k: CacheKey) { k in s.cache && Live(s.cache[k], s.now) }

  function Act(z: Zone, s: State, l: Label): State {
    match l
    case Tick(d) => s.(now := s.now + d)
    case Write(db) => s.(db := db)
    case Lookup(r, k, ok) =>
      if ok && Hit(s, k)
      then
        var e := s.cache[k];
        s.(answers := s.answers + [Answer(k, e.value, s.now, e.readStep, e.storedAt - e.readAt)])
      else s.(readers := s.readers[r := Missed(k)])
    case QueryDb(r, ok) =>
      if r !in s.readers || s.readers[r].Filling? then s
      else
        var k := s.readers[r].key;
        var v := View(z, s.db, k);
        if ok && Fits64(v) then s.(readers := s.readers[r := Filling(k, v, s.now, s.step)])
          else s.(readers := s.readers - {r})
    case Store(r, ok) =>
      if r !in s.readers || s.readers[r].Missed? then s
      else
        var f := s.readers[r];
        s.(cache := if ok then s.cache[f.key := Cached(f.value, s.now, f.readAt, f.readStep)] else s.cache,
           readers := s.readers - {r},
           answers := s.answers + [Answer(f.key, f.value, s.now, f.readStep, s.now - f.readAt)])
    case Invalidate(k, ok) => if ok then s.(cache := s.cache - {k}) else s
  }

  function Step(z: Zone, s: State, l: Label): State { Act(z, s, l).(step := s.step + 1) }

  function Init(now: int, db: L.Tables): State { State(now, db, map[], map[], 0, []) }

  /** The state after the first n steps of a run. */
  function At(z: Zone, s: State, ls: seq<Label>, n: nat): State
    requires n <= |ls|
  {
    if n == 0 then s else Step(z, At(z, s, ls, n - 1), ls[n - 1])
  }

  // ---------------------------------------------------------------- bounded staleness

  /** The value was the database's summary at step `i`, when the clock read `at`. */
  ghost predicate WasTrue(z: Zone, s: State, ls: seq<Label>, n: nat, i: nat, at: int, k: CacheKey, v: MonthlySummary)
    requires n <= |ls|
  {
    i <= n && At(z, s, ls, i).now == at && View(z, At(z, s, ls, i).db, k) == v
  }

  ghost predicate CachedOk(z: Zone, s: State, ls: seq<Label>, n: nat, k: CacheKey, e: Cached)
    requires n <= |ls|
  {
    WasTrue(z, s, ls, n, e.readStep, e.readAt, k, e.value) && e.readAt <= e.storedAt <= At(z, s, ls, n).now
  }

  ghost predicate ReaderOk(z: Zone, s: State, ls: seq<Label>, n: nat, f: Reader)
    requires n <= |ls|
  {
    f.Filling? ==> WasTrue(z, s, ls, n, f.readStep, f.readAt, f.key, f.value) && f.readAt <= At(z, s, ls, n).now
  }

  /** The answer is the database's summary at a moment no older than the TTL and the filler's gap. */
  ghost predicate AnswerOk(z: Zone, s: State, ls: seq<Label>, n: nat, x: Answer)
    requires n <= |ls|
  {
    && x.readStep <= n && x.gap >= 0
    && View(z, At(z, s, ls, x.readStep).db, x.key) == x.value
    && x.at - (TTL + x.gap) <= At(z, s, ls, x.readStep).now <= x.at
  }

  ghost predicate Inv(z: Zone, s: State, ls: seq<Label>, n: nat)
    requires n <= |ls|
  {
    var t := At(z, s, ls, n);
    && t.step == n
    && (forall k {:trigger CachedOk(z, s, ls, n, k, t.cache[k])} :: k in t.cache ==>
          CachedOk(z, s, ls, n, k, t.cache[k]))
    && (forall r {:trigger ReaderOk(z, s, ls, n, t.readers[r])} :: r in t.readers ==>
          ReaderOk(z, s, ls, n, t.readers[r]))
    && (forall i {:trigger AnswerOk(z, s, ls, n, t.answers[i])} :: 0 <= i < |t.answers| ==>
          AnswerOk(z, s, ls, n, t.answers[i]))
  }

  lemma NextCached(z: Zone, s: State, ls: seq<Label>, n: nat, k: CacheKey)
    requires n < |ls| && Inv(z, s, ls, n) && k in At(z, s, ls, n + 1).cache
    ensures CachedOk(z, s, ls, n + 1, k, At(z, s, ls, n + 1).cache[k])
  {
    var t, l := At(z, s, ls, n), ls[n];
    assert At(z, s, ls, n + 1) == Step(z, t, l);
    if k in t.cache && At(z, s, ls, n + 1).cache[k] == t.cache[k] {
      assert CachedOk(z, s, ls, n, k, t.cache[k]);
    } else {
      assert ReaderOk(z, s, ls, n, t.readers[l.r]);
    }
  }

  lemma NextReader(z: Zone, s: State, ls: seq<Label>, n: nat, r: nat)
    requires n < |ls| && Inv(z, s, ls, n) && r in At(z, s, ls, n + 1).readers
    ensures ReaderOk(z, s, ls, n + 1, At(z, s, ls, n + 1).readers[r])
  {
    var t, l := At(z, s, ls, n), ls[n];
    assert At(z, s, ls, n + 1) == Step(z, t, l);
    if r in t.readers && At(z, s, ls, n + 1).readers[r] == t.readers[r] {
      assert ReaderOk(z, s, ls, n, t.readers[r]);
    }
  }

  lemma NextAnswer(z: Zone, s: State, ls: seq<Label>, n: nat, i: nat)
    requires n < |ls| && Inv(z, s, ls, n) && i < |At(z, s, ls, n + 1).answers|
    ensures AnswerOk(z, s, ls, n + 1, At(z, s, ls, n + 1).answers[i])
  {
    var t, l := At(z, s, ls, n), ls[n];
    assert At(z, s, ls, n + 1) == Step(z, t, l);
    if i < |t.answers| {
      assert At(z, s, ls, n + 1).answers[i] == t.answers[i];
      assert AnswerOk(z, s, ls, n, t.answers[i]);
    } else if l.Lookup? {
      assert CachedOk(z, s, ls, n, l.key, t.cache[l.key]);
    } else {
      assert ReaderOk(z, s, ls, n, t.readers[l.r]);
    }
  }

  lemma NextInv(z: Zone, s: State, ls: seq<Label>, n: nat)
    requires n < |ls| && Inv(z, s, ls, n)
    ensures Inv(z, s, ls, n + 1)
  {
    var m := n + 1;
    var t := At(z, s, ls, m);
    forall k | k in t.cache ensures CachedOk(z, s, ls, m, k, t.cache[k]) {
      NextCached(z, s, ls, n, k);
    }
    forall r | r in t.readers ensures ReaderOk(z, s, ls, m, t.readers[r]) {
      NextReader(z, s, ls, n, r);
    }
    forall i | 0 <= i < |t.answers| ensures AnswerOk(z, s, ls, m, t.answers[i]) {
      NextAnswer(z, s, ls, n, i);
    }
  }

  lemma {:induction false} RunKeeps(z: Zone, s: State, ls: seq<Label>, n: nat)
    requires n <= |ls| && s == Init(s.now, s.db)
    ensures Inv(z, s, ls, n)
  {
    if n > 0 {
      RunKeeps(z, s, ls, n - 1);
      NextInv(z, s, ls, n - 1);
    }
  }

  /**
   * In every interleaving, with lost invalidations and slow readers that store an old value
   * after an invalidation, each returned summary is the database's summary at some step of the
   * run whose clock is at most the TTL plus the filler's own read-to-store gap behind.
   */
  lemma BoundedStaleness(z: Zone, now: int, db: L.Tables, ls: seq<Label>, x: Answer)
    requires x in At(z, Init(now, db), ls, |ls|).answers
    ensures AnswerOk(z, Init(now, db), ls, |ls|, x)
    ensures x.at - (300_000_000_000 + x.gap) <= At(z, Init(now, db), ls, x.readStep).now <= x.at
    ensures var was := At(z, Init(now, db), ls, x.readStep).db;
      IsSummary(was.postings, InMonth(was.headers, z.month, x.key.0, z.queried(x.key.1)), x.value)
  {
    RunKeeps(z, Init(now, db), ls, |ls|);
    var t := At(z, Init(now, db), ls, |ls|);
    var i :| 0 <= i < |t.answers| && t.answers[i] == x;
    assert AnswerOk(z, Init(now, db), ls, |ls|, t.answers[i]);
    var was := At(z, Init(now, db), ls, x.readStep).db;
    SummaryExact(was, z.month, x.key.0, z.queried(x.key.1), InMonth(was.headers, z.month, x.key.0, z.queried(x.key.1)));
  }
}
