/** The summary service one call after the other: when every cached entry equals a fresh query. */
module SummaryService {
  import opened Int64
  import opened Postings
  import opened Summary
  import opened SummaryCache
  import opened SummaryMonths
  import L = Ledger
  import LI = LedgerInvariant
  import LC = LedgerCommit
  import LT = LedgerTheorems

  /** Every cached entry, expired or not, equals a fresh query. */
  ghost predicate Coherent(z: Zone, s: State) {
    forall k :: k in s.cache ==> s.cache[k].value == View(z, s.db, k)
  }

  /** A fresh query's answer in terms of the postings: in, out and net of the account and month. */
  lemma ViewIsSummary(z: Zone, db: L.Tables, k: CacheKey)
    ensures IsSummary(db.postings, InMonth(db.headers, z.month, k.0, z.queried(k.1)), View(z, db, k))
  {
    SummaryExact(db, z.month, k.0, z.queried(k.1), InMonth(db.headers, z.month, k.0, z.queried(k.1)));
  }

  // ---------------------------------------------------------------- what a commit changes

  /** `after` is `before` with one more transaction: header `h` and its postings `ps`. */
  ghost predicate Adds(before: L.Tables, after: L.Tables, h: L.Header, ps: seq<Posting>) {
    && h.id !in before.headers && after.headers == before.headers[h.id := h]
    && after.postings == before.postings + ps
    && (forall p :: p in ps ==> p.txId == h.id && p.amount != 0)
    && (forall p :: p in before.postings ==> p.txId in before.headers)
  }

  lemma MergeAdds(db: L.Tables, ids: L.Ids, x: L.Session)
    requires LI.PostingsOk(db) && x.pc.Finish? && LI.SessionOk(db, ids, x)
    ensures Adds(db, L.Merge(db, x, x.pc.header, x.pc.eventId, x.pc.event), x.pc.header, x.postings)
  {
    assert LI.HeaderOk(db, ids, x, x.pc.header) && LI.PostingsMatch(x, x.pc.header);
    forall p | p in db.postings ensures p.txId in db.headers {
      assert LI.PostingOk(db, p);
    }
  }

  /** A COMMIT of the ledger protocol that passes, acknowledged or not, adds one transaction. */
  lemma CommitAdds(s: L.State, l: L.Label)
    requires LI.Inv(s) && LT.CommitsNow(s, l)
    ensures L.Step(s, l).Some?
    ensures var x := s.sessions[l.sid]; var s' := L.Step(s, l).value;
      if LT.Passes(s, l.sid) then Adds(s.db, s'.db, x.pc.header, x.postings) else s'.db == s.db
  {
    LT.CommitShape(s, l);
    assert LI.SessionOk(s.db, s.ids, s.sessions[l.sid]);
    MergeAdds(s.db, s.ids, s.sessions[l.sid]);
  }

  predicate Touches(ps: seq<Posting>, a: int) { exists i :: 0 <= i < |ps| && ps[i].account == a }

  /** The key's query covers the transaction. */
  predicate Covers(z: Zone, k: CacheKey, h: L.Header, ps: seq<Posting>) {
    Touches(ps, k.0) && z.queried(k.1) == z.month(h.occurredAt)
  }

  lemma {:induction false} ActivityPositive(ps: seq<Posting>, f: Filter)
    requires forall p :: p in ps ==> p.amount != 0
    ensures Inflow(ps, f) + Outflow(ps, f) > 0 <==> exists i :: 0 <= i < |ps| && f(ps[i])
    ensures (forall i :: 0 <= i < |ps| ==> !f(ps[i])) ==> Tally(ps, f) == MonthlySummary(0, 0, 0)
  {
    if ps != [] {
      ActivityPositive(ps[1..], f);
      assert ps[0] in ps;
      if i :| 0 <= i < |ps[1..]| && f(ps[1..][i]) {
        assert f(ps[i + 1]);
      }
    }
  }

  /** A fresh query gives another result exactly for the keys whose query covers the transaction. */
  lemma ViewChangesIff(z: Zone, before: L.Tables, after: L.Tables, h: L.Header, ps: seq<Posting>, k: CacheKey)
    requires Adds(before, after, h, ps)
    ensures View(z, after, k) != View(z, before, k) <==> Covers(z, k, h, ps)
  {
    var f := InMonth(before.headers, z.month, k.0, z.queried(k.1));
    var g := InMonth(after.headers, z.month, k.0, z.queried(k.1));
    TallyConcat(before.postings, ps, g);
    TallySame(before.postings, f, g);
    ActivityPositive(ps, g);
    forall i | 0 <= i < |ps| ensures g(ps[i]) <==> ps[i].account == k.0 && z.queried(k.1) == z.month(h.occurredAt) {
      assert ps[i] in ps;
    }
    if Covers(z, k, h, ps) {
      var i :| 0 <= i < |ps| && ps[i].account == k.0;
      assert g(ps[i]);
    }
  }

  // ---------------------------------------------------------------- commit and invalidate

  /** The keys the service deletes: every leg's account under every label. */
  predicate Deleted(ps: seq<Posting>, labels: seq<int>, k: CacheKey) { Touches(ps, k.0) && k.1 in labels }

  function Without(cache: map<CacheKey, Cached>, ps: seq<Posting>, labels: seq<int>): map<CacheKey, Cached> {
    map k | k in cache && !Deleted(ps, labels, k) :: cache[k]
  }

  /**
   * After a commit and its invalidations the cache is coherent if and only if every cached key
   * whose query covers the transaction has one of the invalidated labels.
   */
  lemma CoherentIff(z: Zone, s: State, t: State, h: L.Header, ps: seq<Posting>, labels: seq<int>)
    requires Coherent(z, s) && Adds(s.db, t.db, h, ps) && t.cache == Without(s.cache, ps, labels)
    ensures Coherent(z, t) <==> forall k :: k in s.cache && Covers(z, k, h, ps) ==> k.1 in labels
  {
    forall k | k in s.cache ensures View(z, t.db, k) != View(z, s.db, k) <==> Covers(z, k, h, ps) {
      ViewChangesIff(z, s.db, t.db, h, ps, k);
    }
    if Coherent(z, t) {
      forall k | k in s.cache && Covers(z, k, h, ps) ensures k.1 in labels {
        assert k in t.cache || Deleted(ps, labels, k);
      }
    }
  }

  /** The invalidated labels include every one whose query covers the transaction. */
  ghost predicate WellLabelled(z: Zone, h: L.Header, labels: seq<int>) {
    forall m :: z.queried(m) == z.month(h.occurredAt) ==> m in labels
  }

  lemma WellLabelledSuffices(z: Zone, s: State, t: State, h: L.Header, ps: seq<Posting>, labels: seq<int>)
    requires Coherent(z, s) && Adds(s.db, t.db, h, ps) && t.cache == Without(s.cache, ps, labels)
      && WellLabelled(z, h, labels)
    ensures Coherent(z, t)
  {
    forall k | k in s.cache && Covers(z, k, h, ps) ensures k.1 in labels {
      var m: int := k.1;
      assert z.queried(m) == z.month(h.occurredAt);
    }
    CoherentIff(z, s, t, h, ps, labels);
  }

  /** The cache that holds just a fresh entry for `k`. */
  function OneEntry(z: Zone, db: L.Tables, k: CacheKey): State {
    State(0, db, map[k := Cached(View(z, db, k), 0, 0, 0)], map[], 0, [])
  }

  /** A label that covers the transaction but is not invalidated leaves its entry stale. */
  lemma MislabelledGoesStale(z: Zone, db: L.Tables, db': L.Tables, h: L.Header, ps: seq<Posting>, labels: seq<int>,
      m: int)
    requires Adds(db, db', h, ps) && ps != [] && z.queried(m) == z.month(h.occurredAt) && m !in labels
    ensures var s := OneEntry(z, db, (ps[0].account, m));
      Coherent(z, s) && !Coherent(z, s.(db := db', cache := Without(s.cache, ps, labels)))
  {
    var k := (ps[0].account, m);
    var s := OneEntry(z, db, k);
    CoherentIff(z, s, s.(db := db', cache := Without(s.cache, ps, labels)), h, ps, labels);
    assert k in s.cache && Touches(ps, k.0);
  }

  /** From every coherent cache the commit and its invalidations lead to a coherent cache. */
  ghost predicate NeverStale(z: Zone, db: L.Tables, db': L.Tables, ps: seq<Posting>, labels: seq<int>) {
    forall s: State {:trigger Coherent(z, s)} ::
      s.db == db && Coherent(z, s) ==> Coherent(z, s.(db := db', cache := Without(s.cache, ps, labels)))
  }

  lemma NeverStaleIffWellLabelled(z: Zone, db: L.Tables, db': L.Tables, h: L.Header, ps: seq<Posting>, labels: seq<int>)
    requires Adds(db, db', h, ps) && ps != []
    ensures NeverStale(z, db, db', ps, labels) <==> WellLabelled(z, h, labels)
  {
    if WellLabelled(z, h, labels) {
      forall s: State | s.db == db && Coherent(z, s)
        ensures Coherent(z, s.(db := db', cache := Without(s.cache, ps, labels))) {
        WellLabelledSuffices(z, s, s.(db := db', cache := Without(s.cache, ps, labels)), h, ps, labels);
      }
    } else {
      var m :| z.queried(m) == z.month(h.occurredAt) && m !in labels;
      MislabelledGoesStale(z, db, db', h, ps, labels, m);
    }
  }

  lemma WellLabelledIff(session: int, h: L.Header, labels: seq<int>)
    requires -DAY_SECONDS < session < DAY_SECONDS
    ensures WellLabelled(SessionZone(session), h, labels) <==> CoveringLabel(h.occurredAt, session) in labels
  {
    var z := SessionZone(session);
    forall m ensures z.queried(m) == z.month(h.occurredAt) <==> m == CoveringLabel(h.occurredAt, session) {
      CoveringIff(h.occurredAt, session, m);
    }
    assert z.queried(CoveringLabel(h.occurredAt, session)) == z.month(h.occurredAt);
  }

  // ---------------------------------------------------------------- when the code's own labels suffice

  lemma NeverStaleIffCovered(session: int, db: L.Tables, db': L.Tables, h: L.Header, ps: seq<Posting>, labels: seq<int>)
    requires -DAY_SECONDS < session < DAY_SECONDS && Adds(db, db', h, ps) && ps != []
    ensures NeverStale(SessionZone(session), db, db', ps, labels) <==> CoveringLabel(h.occurredAt, session) in labels
  {
    NeverStaleIffWellLabelled(SessionZone(session), db, db', h, ps, labels);
    WellLabelledIff(session, h, labels);
  }

  /** For a call's own labels: no cached entry goes stale if and only if they include the one covering label. */
  lemma CallNeverStaleIff(session: int, db: L.Tables, db': L.Tables, h: L.Header, ps: seq<Posting>, c: Maker)
    requires -DAY_SECONDS < session < DAY_SECONDS && Adds(db, db', h, ps) && ps != [] && h.occurredAt == OccursAt(c)
    ensures NeverStale(SessionZone(session), db, db', ps, Labels(c)) <==>
      CoveringLabel(MadeAt(c), session) in Labels(c)
  {
    NeverStaleIffCovered(session, db, db', h, ps, Labels(c));
    StoredCovering(c, session);
  }

  /**
   * A create or transfer whose `occurred_at` was written in some offset never leaves a stale
   * entry if and only if its month in that offset is, for a session in UTC or east of it, its
   * month in the session's zone; for a session west of UTC, the month after that. So a western
   * session goes stale just when the two months agree.
   */
  lemma RequestNeverStaleIff(session: int, db: L.Tables, db': L.Tables, h: L.Header, ps: seq<Posting>, at: int,
      offset: int)
    requires -DAY_SECONDS < session < DAY_SECONDS && Adds(db, db', h, ps) && ps != [] && h.occurredAt == L.Micros(at)
    ensures NeverStale(SessionZone(session), db, db', ps, Labels(Requested(at, offset))) <==>
      OwnLabel(at, offset) == OwnLabel(at, session) + if session < 0 then 1 else 0
  {
    CallNeverStaleIff(session, db, db', h, ps, Requested(at, offset));
  }

  /**
   * A reversal never leaves a stale entry if and only if the covering label of its own time is
   * the UTC month of now or the month of the original as the service reads it back; for a
   * session in UTC that is always so.
   */
  lemma ReversalNeverStaleIff(
    session: int, db: L.Tables, db': L.Tables, h: L.Header, ps: seq<Posting>, original: int, local: int, now: int)
    requires -DAY_SECONDS < session < DAY_SECONDS && Adds(db, db', h, ps) && ps != [] && h.occurredAt == L.Micros(now)
    ensures NeverStale(SessionZone(session), db, db', ps, Labels(Reversed(original, local, now))) <==>
      CoveringLabel(now, session) == OwnLabel(now, 0) || CoveringLabel(now, session) == OwnLabel(original, local)
    ensures session == 0 ==> NeverStale(SessionZone(session), db, db', ps, Labels(Reversed(original, local, now)))
  {
    CallNeverStaleIff(session, db, db', h, ps, Reversed(original, local, now));
  }

  /**
   * A reversal that fails: made at 1969-12-31T23:00:00Z, of an entry of that hour, in a session
   * at +05:00. Both its labels are December; for the session it is January.
   */
  lemma EastReversalGoesStale(db: L.Tables, db': L.Tables, h: L.Header, ps: seq<Posting>)
    requires Adds(db, db', h, ps) && ps != [] && h.occurredAt == -3_600_000_000_000
    ensures !NeverStale(SessionZone(18_000), db, db', ps, Labels(Reversed(-3_600_000_000_000, 0, -3_600_000_000_000)))
  {
    LastHour();
    ReversalNeverStaleIff(18_000, db, db', h, ps, -3_600_000_000_000, 0, -3_600_000_000_000);
  }

  /**
   * An input that fails: 1969-12-31T19:00:00-05:00 is January 1970 for a session in UTC;
   * December is invalidated and a cached January stays stale.
   */
  lemma OwnOffsetGoesStale(db: L.Tables, db': L.Tables, h: L.Header, ps: seq<Posting>)
    requires Adds(db, db', h, ps) && ps != [] && h.occurredAt == 0
    ensures !NeverStale(SessionZone(0), db, db', ps, Labels(Requested(0, -18_000)))
    ensures var s := OneEntry(SessionZone(0), db, (ps[0].account, 1970 * 12));
      && Coherent(SessionZone(0), s)
      && !Coherent(SessionZone(0), s.(db := db', cache := Without(s.cache, ps, Labels(Requested(0, -18_000)))))
  {
    NewYear();
    RequestNeverStaleIff(0, db, db', h, ps, 0, -18_000);
    CoveringIff(0, 0, 1970 * 12);
    MislabelledGoesStale(SessionZone(0), db, db', h, ps, Labels(Requested(0, -18_000)), 1970 * 12);
  }

  /**
   * Another: a session at -05:00 and a caller at -05:00, on 1970-01-11. Both say January, which
   * is invalidated; the entry that was filled by querying January is the one labelled February.
   */
  lemma WestSessionGoesStale(db: L.Tables, db': L.Tables, h: L.Header, ps: seq<Posting>)
    requires Adds(db, db', h, ps) && ps != [] && h.occurredAt == 864_000_000_000_000
    ensures !NeverStale(SessionZone(-18_000), db, db', ps, Labels(Requested(864_000_000_000_000, -18_000)))
  {
    RequestNeverStaleIff(-18_000, db, db', h, ps, 864_000_000_000_000, -18_000);
  }

  /** A commit whose acknowledgement is lost invalidates nothing, in whatever session: some entry goes stale. */
  lemma UnacknowledgedGoesStale(session: int, db: L.Tables, db': L.Tables, h: L.Header, ps: seq<Posting>)
    requires -DAY_SECONDS < session < DAY_SECONDS && Adds(db, db', h, ps) && ps != []
    ensures !NeverStale(SessionZone(session), db, db', ps, [])
  {
    NeverStaleIffCovered(session, db, db', h, ps, []);
  }

  // ---------------------------------------------------------------- runs of whole calls beside the ledger

  /** The ledger protocol and the summary cache over its tables. */
  datatype Whole = Whole(ledger: L.State, view: State)

  datatype Move =
    | Protocol(l: L.Label, offset: int)  // a commit is followed at once by its call's invalidations
    | Elapse(d: nat)
    | Read(k: CacheKey, getOk: bool, dbOk: bool, setOk: bool)

  /** The call that session `sid` is, for its invalidations; `offset` is the one its caller wrote. */
  function MakerOf(s: L.State, sid: nat, offset: int, local: int): Maker
    requires sid in s.sessions && s.sessions[sid].pc.Finish?
  {
    var x := s.sessions[sid];
    if x.req.ReverseReq?
    then Reversed(if x.req.txId in s.db.headers then s.db.headers[x.req.txId].occurredAt
      else 0, local, x.pc.header.occurredAt)
    else Requested(x.req.occurredAt, offset)
  }

  predicate Acknowledged(s: L.State, l: L.Label) { LT.CommitsNow(s, l) && LT.Passes(s, l.sid) && l.Advance? }

  function AfterMove(z: Zone, local: int, y: Whole, v: Move): Whole {
    match v
    case Protocol(l, offset) =>
      (match L.Step(y.ledger, l)
       case None => y
       case Some(s') =>
         var cache' :=
           if Acknowledged(y.ledger, l)
           then Without(y.view.cache, y.ledger.sessions[l.sid].postings,
             Labels(MakerOf(y.ledger, l.sid, offset, local)))
           else y.view.cache;
         Whole(s', y.view.(db := s'.db, cache := cache')))
    case Elapse(d) => y.(view := y.view.(now := y.view.now + d))
    case Read(k, getOk, dbOk, setOk) =>
      var v1 := View(z, y.view.db, k);
      if (getOk && Hit(y.view, k)) || !dbOk || !Fits64(v1) || !setOk then y
      else y.(view := y.view.(cache := y.view.cache[k := Cached(v1, y.view.now, y.view.now, y.view.step)]))
  }

  function AfterMoves(z: Zone, local: int, y: Whole, vs: seq<Move>, n: nat): Whole
    requires n <= |vs|
  {
    if n == 0 then y else AfterMove(z, local, AfterMoves(z, local, y, vs, n - 1), vs[n - 1])
  }

  /**
   * What is asked of a run in a given session: every commit is acknowledged (its call
   * invalidates nothing otherwise), and the labels its call computes include the covering one.
   */
  ghost predicate Proper(session: int, local: int, y: Whole, v: Move) {
    v.Protocol? && LT.CommitsNow(y.ledger, v.l) && LT.Passes(y.ledger, v.l.sid) ==>
      && v.l.Advance?
      && CoveringLabel(y.ledger.sessions[v.l.sid].pc.header.occurredAt,
        session) in Labels(MakerOf(y.ledger, v.l.sid, v.offset, local))
  }

  ghost predicate WholeInv(session: int, y: Whole) {
    LI.Inv(y.ledger) && y.view.db == y.ledger.db && Coherent(SessionZone(session), y.view)
  }

  lemma CommitCoherent(session: int, local: int, y: Whole, v: Move)
    requires -DAY_SECONDS < session < DAY_SECONDS && WholeInv(session, y) && Proper(session, local, y, v)
    requires v.Protocol? && LT.CommitsNow(y.ledger, v.l) && LT.Passes(y.ledger, v.l.sid)
    ensures Coherent(SessionZone(session), AfterMove(SessionZone(session), local, y, v).view)
  {
    var s, sid := y.ledger, v.l.sid;
    var x, labels := s.sessions[sid], Labels(MakerOf(s, sid, v.offset, local));
    CommitAdds(s, v.l);
    WellLabelledIff(session, x.pc.header, labels);
    WellLabelledSuffices(
      SessionZone(session), y.view, AfterMove(SessionZone(session), local, y, v).view, x.pc.header, x.postings, labels);
  }

  lemma MoveKeeps(session: int, local: int, y: Whole, v: Move)
    requires -DAY_SECONDS < session < DAY_SECONDS && WholeInv(session, y) && Proper(session, local, y, v)
    ensures WholeInv(session, AfterMove(SessionZone(session), local, y, v))
  {
    if v.Protocol? && L.Step(y.ledger, v.l).Some? {
      LC.StepKeeps(y.ledger, v.l);
      if !LT.CommitsNow(y.ledger, v.l) {
        LT.OnlyCommitWrites(y.ledger, v.l);
      } else if LT.Passes(y.ledger, v.l.sid) {
        CommitCoherent(session, local, y, v);
      } else {
        LT.CommitShape(y.ledger, v.l);
      }
    }
  }

  ghost predicate ProperAt(session: int, local: int, y: Whole, vs: seq<Move>, i: nat)
    requires i < |vs|
  {
    Proper(session, local, AfterMoves(SessionZone(session), local, y, vs, i), vs[i])
  }

  ghost predicate AllProper(session: int, local: int, y: Whole, vs: seq<Move>) {
    forall i {:trigger ProperAt(session, local, y, vs, i)} :: 0 <= i < |vs| ==> ProperAt(session, local, y, vs, i)
  }

  lemma {:induction false} MovesKeep(session: int, local: int, y: Whole, vs: seq<Move>, n: nat)
    requires -DAY_SECONDS < session < DAY_SECONDS && WholeInv(session, y) && n <= |vs|
      && AllProper(session, local, y, vs)
    ensures WholeInv(session, AfterMoves(SessionZone(session), local, y, vs, n))
  {
    if n > 0 {
      MovesKeep(session, local, y, vs, n - 1);
      assert ProperAt(session, local, y, vs, n - 1);
      MoveKeeps(session, local, AfterMoves(SessionZone(session), local, y, vs, n - 1), vs[n - 1]);
    }
  }

  function Start(clock: int, now: int): Whole { Whole(L.Init(clock), Init(now, L.Init(clock).db)) }

  /**
   * Beside the ledger protocol, in a session of any offset below a day: after any sequence of
   * reads, creates, transfers and reversals every cached entry equals a fresh query, if every
   * commit is acknowledged and its call's labels include the covering one.
   */
  lemma CoherentRun(session: int, clock: int, now: int, local: int, vs: seq<Move>)
    requires -DAY_SECONDS < session < DAY_SECONDS && AllProper(session, local, Start(clock, now), vs)
    ensures var y := AfterMoves(SessionZone(session), local, Start(clock, now), vs, |vs|);
      y.view.db == y.ledger.db && Coherent(SessionZone(session), y.view)
  {
    MovesKeep(session, local, Start(clock, now), vs, |vs|);
  }

  // ---------------------------------------------------------------- a session in UTC

  /**
   * In UTC nothing is asked of reversals, and of a create or transfer only that the offset it
   * was written in has its UTC month.
   */
  ghost predicate ProperInUtc(y: Whole, v: Move) {
    v.Protocol? && LT.CommitsNow(y.ledger, v.l) && LT.Passes(y.ledger, v.l.sid) ==>
      var req := y.ledger.sessions[v.l.sid].req;
      v.l.Advance? && (!req.ReverseReq? ==> OwnLabel(req.occurredAt, v.offset) == OwnLabel(req.occurredAt, 0))
  }

  /** The stored time of the commit is that of its call. */
  lemma CommitTime(s: L.State, sid: nat, offset: int, local: int)
    requires LI.Inv(s) && sid in s.sessions && s.sessions[sid].pc.Finish?
    ensures OwnLabel(s.sessions[sid].pc.header.occurredAt, 0) == OwnLabel(MadeAt(MakerOf(s, sid, offset, local)), 0)
  {
    var x := s.sessions[sid];
    assert LI.SessionOk(s.db, s.ids, x);
    assert LI.HeaderOk(s.db, s.ids, x, x.pc.header);
    StoredMonth(MadeAt(MakerOf(s, sid, offset, local)), 0);
  }

  lemma ProperUtc(local: int, y: Whole, v: Move)
    requires LI.Inv(y.ledger) && ProperInUtc(y, v)
    ensures Proper(0, local, y, v)
  {
    if v.Protocol? && LT.CommitsNow(y.ledger, v.l) {
      CommitTime(y.ledger, v.l.sid, v.offset, local);
    }
  }

  ghost predicate ProperInUtcAt(local: int, y: Whole, vs: seq<Move>, i: nat)
    requires i < |vs|
  {
    ProperInUtc(AfterMoves(SessionZone(0), local, y, vs, i), vs[i])
  }

  ghost predicate AllProperInUtc(local: int, y: Whole, vs: seq<Move>) {
    forall i {:trigger ProperInUtcAt(local, y, vs, i)} :: 0 <= i < |vs| ==> ProperInUtcAt(local, y, vs, i)
  }

  lemma {:induction false} UtcMovesKeep(local: int, y: Whole, vs: seq<Move>, n: nat)
    requires WholeInv(0, y) && n <= |vs| && AllProperInUtc(local, y, vs)
    ensures WholeInv(0, AfterMoves(SessionZone(0), local, y, vs, n))
  {
    if n > 0 {
      UtcMovesKeep(local, y, vs, n - 1);
      assert ProperInUtcAt(local, y, vs, n - 1);
      ProperUtc(local, AfterMoves(SessionZone(0), local, y, vs, n - 1), vs[n - 1]);
      MoveKeeps(0, local, AfterMoves(SessionZone(0), local, y, vs, n - 1), vs[n - 1]);
    }
  }

  /** The run theorem for a session in UTC, asked of the requests alone. */
  lemma CoherentRunInUtc(clock: int, now: int, local: int, vs: seq<Move>)
    requires AllProperInUtc(local, Start(clock, now), vs)
    ensures var y := AfterMoves(SessionZone(0), local, Start(clock, now), vs, |vs|);
      y.view.db == y.ledger.db && Coherent(SessionZone(0), y.view)
  {
    UtcMovesKeep(local, Start(clock, now), vs, |vs|);
  }

  /**
   * What one read does: a live entry is returned and nothing changes; otherwise a fresh query is
   * returned and, unless Redis fails, stored now under its key; a failed query is an error.
   */
  ghost predicate Reads(
    z: Zone, s: State, t: State, k: CacheKey, getOk: bool, dbOk: bool, setOk: bool, ms: Option<MonthlySummary>)
  {
    && t.db == s.db && t.now == s.now && t.readers == s.readers
    && if getOk && k in s.cache && s.now - s.cache[k].storedAt < 300_000_000_000  // five minutes
       then ms == Some(s.cache[k].value) && t.cache == s.cache
       else if dbOk && Fits64(View(z, s.db, k)) then
         && ms == Some(View(z, s.db, k))
         && t.cache.Keys == (if setOk then s.cache.Keys + {k} else s.cache.Keys)
         && (setOk ==> t.cache[k].storedAt == s.now && t.cache[k].value == ms.value)
         && (forall j :: j in s.cache && (j != k || !setOk) ==> t.cache[j] == s.cache[j])
       else ms == None && t.cache == s.cache
  }

  lemma ReadsCoherent(
    z: Zone, s: State, t: State, k: CacheKey, getOk: bool, dbOk: bool, setOk: bool, ms: Option<MonthlySummary>)
    requires Reads(z, s, t, k, getOk, dbOk, setOk, ms)
    ensures Coherent(z, s) ==> Coherent(z, t) && (ms.Some? ==> ms.value == View(z, t.db, k))
  {
    if Coherent(z, s) {
      forall j | j in t.cache ensures t.cache[j].value == View(z, t.db, j) {
        assert j in s.cache.Keys || j == k;
      }
    }
  }

  // ---------------------------------------------------------------- the service

  class SummaryService {
    /** The offset of the database session's zone. */
    const session: int
    const z: Zone
    /** Redis, and the database it caches. */
    var st: State

    constructor (session: int, now: int, db: L.Tables)
      ensures this.session == session && z == SessionZone(session) && st == Init(now, db) && Coherent(z, st)
    {
      this.session := session;
      z := SessionZone(session);
      st := Init(now, db);
    }

    /**
     * One read without interference. A live entry is returned; otherwise the database is
     * queried and the result is stored for the TTL unless Redis fails. From a coherent cache
     * the answer is a fresh query's, and the cache stays coherent.
     */
    method GetMonthlySummary(r: nat, k: CacheKey, getOk: bool, dbOk: bool, setOk: bool)
      returns (ms: Option<MonthlySummary>)
      requires r !in st.readers
      modifies this
      ensures Reads(z, old(st), st, k, getOk, dbOk, setOk, ms)
      ensures Coherent(z, old(st)) ==> Coherent(z, st) && (ms.Some? ==> ms.value == View(z, st.db, k))
      ensures Coherent(z, old(st)) && ms.Some? ==>
        IsSummary(st.db.postings, InMonth(st.db.headers, z.month, k.0, z.queried(k.1)), ms.value)
    {
      ms := Fetch(r, k, getOk, dbOk, setOk);
      ReadsCoherent(z, old(st), st, k, getOk, dbOk, setOk, ms);
      ViewIsSummary(z, st.db, k);
    }

    /** Look in Redis, else query and store. */
    method Fetch(r: nat, k: CacheKey, getOk: bool, dbOk: bool, setOk: bool) returns (ms: Option<MonthlySummary>)
      requires r !in st.readers
      modifies this
      ensures Reads(z, old(st), st, k, getOk, dbOk, setOk, ms)
    {
      ghost var readers := st.readers;
      if getOk && Hit(st, k) {
        ms := Some(st.cache[k].value);
        st := Step(z, st, Lookup(r, k, true));
        return;
      }
      st := Step(z, st, Lookup(r, k, getOk));
      st := Step(z, st, QueryDb(r, dbOk));
      if r !in st.readers {
        assert st.readers == readers;
        return None;
      }
      ms := Some(st.readers[r].value);
      st := Step(z, st, Store(r, setOk));
      assert st.readers == readers;
    }

    /** DEL one key. */
    method InvalidateKey(k: CacheKey)
      modifies this
      ensures st == Step(z, old(st), Invalidate(k, true))
    {
      st := Step(z, st, Invalidate(k, true));
    }

    /** The invalidations of one leg. */
    method InvalidateLeg(a: int, labels: seq<int>)
      modifies this
      ensures st.db == old(st.db) && st.now == old(st.now) && st.readers == old(st.readers)
        && st.answers == old(st.answers)
      ensures forall k :: k in st.cache <==> k in old(st).cache && !(k.0 == a && k.1 in labels)
      ensures forall k :: k in st.cache ==> st.cache[k] == old(st).cache[k]
    {
      for j := 0 to |labels|
        invariant st.db == old(st.db) && st.now == old(st.now) && st.readers == old(st.readers)
          && st.answers == old(st.answers)
        invariant forall k :: k in st.cache <==> k in old(st).cache && !(k.0 == a && k.1 in labels[..j])
        invariant forall k :: k in st.cache ==> st.cache[k] == old(st).cache[k]
      {
        InvalidateKey((a, labels[j]));
        assert labels[..j + 1] == labels[..j] + [labels[j]];
      }
      assert labels[..|labels|] == labels;
    }

    /** The invalidations after a commit: every leg's account, every label. */
    method InvalidateAll(ps: seq<Posting>, labels: seq<int>)
      modifies this
      ensures st.db == old(st.db) && st.now == old(st.now) && st.readers == old(st.readers)
        && st.answers == old(st.answers)
      ensures st.cache == Without(old(st.cache), ps, labels)
    {
      for i := 0 to |ps|
        invariant st.db == old(st.db) && st.now == old(st.now) && st.readers == old(st.readers)
          && st.answers == old(st.answers)
        invariant st.cache == Without(old(st).cache, ps[..i], labels)
      {
        ghost var before := st.cache;
        InvalidateLeg(ps[i].account, labels);
        DeletedSnoc(ps, i, labels);
      }
      assert ps[..|ps|] == ps;
    }

    /**
     * A commit and the invalidations of the call behind it. The cache stays coherent exactly
     * when the call's labels cover what was cached, and so whatever was cached when they
     * include the covering one.
     */
    method Committed(db: L.Tables, h: L.Header, ps: seq<Posting>, c: Maker)
      requires z == SessionZone(session) && Coherent(z, st) && Adds(st.db, db, h, ps) && h.occurredAt == OccursAt(c)
      modifies this
      ensures st.db == db && st.cache == Without(old(st.cache), ps, Labels(c)) && st.now == old(st.now)
      ensures Coherent(z, st) <==> forall k :: k in old(st.cache) && Covers(z, k, h, ps) ==> k.1 in Labels(c)
      ensures -DAY_SECONDS < session < DAY_SECONDS && CoveringLabel(MadeAt(c), session) in Labels(c) ==> Coherent(z, st)
    {
      st := Step(z, st, Write(db));
      var labels := Labels(c);
      InvalidateAll(ps, labels);
      CoherentIff(z, old(st), st, h, ps, labels);
      if -DAY_SECONDS < session < DAY_SECONDS && CoveringLabel(MadeAt(c), session) in labels {
        CoveredCoherent(session, old(st), st, h, ps, c);
      }
    }
  }

  lemma CoveredCoherent(session: int, s: State, t: State, h: L.Header, ps: seq<Posting>, c: Maker)
    requires -DAY_SECONDS < session < DAY_SECONDS && CoveringLabel(MadeAt(c), session) in Labels(c)
      && h.occurredAt == OccursAt(c)
    requires Coherent(SessionZone(session), s) && Adds(s.db, t.db, h, ps) && t.cache == Without(s.cache, ps, Labels(c))
    ensures Coherent(SessionZone(session), t)
  {
    StoredCovering(c, session);
    WellLabelledIff(session, h, Labels(c));
    WellLabelledSuffices(SessionZone(session), s, t, h, ps, Labels(c));
  }

  lemma DeletedSnoc(ps: seq<Posting>, i: nat, labels: seq<int>)
    requires i < |ps|
    ensures forall k {:trigger Deleted(ps[..i + 1], labels, k)} ::
      Deleted(ps[..i + 1], labels, k) <==> Deleted(ps[..i], labels, k) || (k.0 == ps[i].account && k.1 in labels)
  {
    forall k: CacheKey ensures Touches(ps[..i + 1], k.0) <==> Touches(ps[..i], k.0) || k.0 == ps[i].account {
      if Touches(ps[..i], k.0) {
        var j :| 0 <= j < i && ps[..i][j].account == k.0;
        assert ps[..i + 1][j].account == k.0;
      }
      assert ps[..i + 1][i] == ps[i];
      if Touches(ps[..i + 1], k.0) && k.0 != ps[i].account {
        var j :| 0 <= j < i + 1 && ps[..i + 1][j].account == k.0;
        assert ps[..i][j].account == k.0;
      }
    }
  }
}
