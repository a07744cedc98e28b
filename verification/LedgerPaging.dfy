/** Paging over the running ledger: posting ids are unique in every reachable state, and listings only grow. */
module LedgerPaging {
  import opened Int64
  import opened Postings
  import L = Ledger
  import LI = LedgerInvariant
  import LC = LedgerCommit
  import LT = LedgerTheorems
  import K = Keyset
  import P = Paging
  import C = Cursor
  import Calendar

  // ---------------------------------------------------------------- posting ids

  predicate DistinctIds(ps: seq<Posting>) { forall i, j :: 0 <= i < j < |ps| ==> ps[i].id != ps[j].id }

  predicate Below(ps: seq<Posting>, bound: int) { forall i :: 0 <= i < |ps| ==> 1 <= ps[i].id < bound }

  predicate NoShared(ps: seq<Posting>, qs: seq<Posting>) {
    forall i, j :: 0 <= i < |ps| && 0 <= j < |qs| ==> ps[i].id != qs[j].id
  }

  /** Session `sid`'s staged postings have ids of their own. */
  ghost predicate StagedIds(s: L.State, sid: nat)
    requires sid in s.sessions
  {
    var ps := s.sessions[sid].postings;
    DistinctIds(ps) && Below(ps, s.ids.posting) && NoShared(s.db.postings, ps)
  }

  ghost predicate ApartIds(s: L.State, a: nat, b: nat)
    requires a in s.sessions && b in s.sessions
  {
    NoShared(s.sessions[a].postings, s.sessions[b].postings)
  }

  ghost predicate IdInv(s: L.State) {
    && s.ids.posting >= 1 && DistinctIds(s.db.postings) && Below(s.db.postings, s.ids.posting)
    && (forall sid {:trigger StagedIds(s, sid)} :: sid in s.sessions ==> StagedIds(s, sid))
    && (forall a, b {:trigger ApartIds(s, a, b)} :: a in s.sessions && b in s.sessions && a != b ==> ApartIds(s, a, b))
  }

  /** What a statement may do to the staged postings: nothing, drop them, or add one with the next id. */
  ghost predicate PostingsMove(s: L.State, s': L.State, sid: nat)
    requires sid in s.sessions && sid in s'.sessions
  {
    var ps, qs := s.sessions[sid].postings, s'.sessions[sid].postings;
    || ((qs == ps || qs == []) && s'.ids.posting == s.ids.posting)
    || (OneMore(ps, qs, s.ids.posting) && s'.ids.posting == s.ids.posting + 1)
  }

  lemma AdvanceMoves(s: L.State, sid: nat)
    requires sid in s.sessions && L.AdvanceSession(s, sid).Some?
    requires !s.sessions[sid].pc.Replying? && !s.sessions[sid].pc.Finish?
    ensures var s' := L.AdvanceSession(s, sid).value; sid in s'.sessions && PostingsMove(s, s', sid)
  {
  }

  lemma SameKeeps(s: L.State, s': L.State)
    requires IdInv(s) && s'.db.postings == s.db.postings && s'.ids.posting == s.ids.posting
    requires forall t :: t in s'.sessions ==>
      s'.sessions[t].postings == [] || (t in s.sessions && s'.sessions[t].postings == s.sessions[t].postings)
    ensures IdInv(s')
  {
    forall t | t in s'.sessions ensures StagedIds(s', t) {
      assert t in s.sessions ==> StagedIds(s, t);
    }
    forall a, b | a in s'.sessions && b in s'.sessions && a != b ensures ApartIds(s', a, b) {
      assert a in s.sessions && b in s.sessions ==> ApartIds(s, a, b);
    }
  }

  /** `qs` is `ps` with one more posting, whose id is `n`. */
  predicate OneMore(ps: seq<Posting>, qs: seq<Posting>, n: int) {
    |qs| == |ps| + 1 && qs[..|ps|] == ps && qs[|ps|].id == n
  }

  lemma OneMoreIds(ps: seq<Posting>, qs: seq<Posting>, n: int)
    requires OneMore(ps, qs, n) && n >= 1 && DistinctIds(ps) && Below(ps, n)
    ensures DistinctIds(qs) && Below(qs, n + 1)
  {
    forall i | 0 <= i < |ps| ensures qs[i] == ps[i] {
      assert qs[..|ps|][i] == qs[i];
    }
  }

  lemma OneMoreApart(ps: seq<Posting>, qs: seq<Posting>, n: int, rs: seq<Posting>)
    requires OneMore(ps, qs, n) && NoShared(ps, rs) && Below(rs, n)
    ensures NoShared(qs, rs) && NoShared(rs, qs)
  {
    forall i | 0 <= i < |ps| ensures qs[i] == ps[i] {
      assert qs[..|ps|][i] == qs[i];
    }
  }

  lemma InsertKeeps(s: L.State, s': L.State, sid: nat)
    requires IdInv(s) && s'.db.postings == s.db.postings && sid in s.sessions && sid in s'.sessions
    requires forall t :: t in s'.sessions && t != sid ==> t in s.sessions && s'.sessions[t] == s.sessions[t]
    requires s'.ids.posting == s.ids.posting + 1
      && OneMore(s.sessions[sid].postings, s'.sessions[sid].postings, s.ids.posting)
    ensures IdInv(s')
  {
    var ps, qs, n := s.sessions[sid].postings, s'.sessions[sid].postings, s.ids.posting;
    assert StagedIds(s, sid);
    OneMoreIds(ps, qs, n);
    OneMoreApart(ps, qs, n, s.db.postings);
    forall t | t in s'.sessions ensures StagedIds(s', t) {
      if t != sid {
        assert StagedIds(s, t);
      }
    }
    forall a, b | a in s'.sessions && b in s'.sessions && a != b ensures ApartIds(s', a, b) {
      assert ApartIds(s, a, b);
      if a == sid {
        assert StagedIds(s, b);
        OneMoreApart(ps, qs, n, s.sessions[b].postings);
      } else if b == sid {
        assert StagedIds(s, a) && ApartIds(s, b, a);
        OneMoreApart(ps, qs, n, s.sessions[a].postings);
      }
    }
  }

  lemma CommitKeeps(s: L.State, s': L.State, sid: nat)
    requires IdInv(s) && sid in s.sessions && s'.ids.posting == s.ids.posting
    requires s'.db.postings == s.db.postings + s.sessions[sid].postings
    requires forall t :: t in s'.sessions && t != sid ==> t in s.sessions && s'.sessions[t] == s.sessions[t]
    requires sid in s'.sessions ==> s'.sessions[sid].postings == []
    ensures IdInv(s')
  {
    assert StagedIds(s, sid);
    forall t | t in s'.sessions ensures StagedIds(s', t) {
      if t != sid {
        assert StagedIds(s, t) && ApartIds(s, sid, t);
      }
    }
    forall a, b | a in s'.sessions && b in s'.sessions && a != b ensures ApartIds(s', a, b) {
      if a != sid && b != sid {
        assert ApartIds(s, a, b);
      }
    }
  }

  lemma StepKeepsIds(s: L.State, l: L.Label)
    requires IdInv(s) && L.Step(s, l).Some?
    requires forall t :: t in s.sessions ==> t < s.nextSid
    ensures IdInv(L.Step(s, l).value)
  {
    var s' := L.Step(s, l).value;
    if LT.MovesSession(l) {
      LT.MoveShape(s, l);
      if LT.CommitsNow(s, l) {
        LT.CommitShape(s, l);
        if s'.db.postings == s.db.postings {
          SameKeeps(s, s');
        } else {
          CommitKeeps(s, s', l.sid);
        }
      } else if l.Advance? && !s.sessions[l.sid].pc.Replying? {
        AdvanceMoves(s, l.sid);
        if s'.ids.posting == s.ids.posting {
          SameKeeps(s, s');
        } else {
          InsertKeeps(s, s', l.sid);
        }
      } else {
        SameKeeps(s, s');
      }
    } else {
      SameKeeps(s, s');
    }
  }

  lemma {:induction false} RunKeepsIds(s: L.State, ls: seq<L.Label>)
    requires LI.Inv(s) && IdInv(s)
    ensures IdInv(L.Run(s, ls))
  {
    if ls != [] {
      var s0 := L.Run(s, ls[..|ls| - 1]);
      RunKeepsIds(s, ls[..|ls| - 1]);
      LC.RunKeeps(s, ls[..|ls| - 1]);
      if L.Step(s0, ls[|ls| - 1]).Some? {
        StepKeepsIds(s0, ls[|ls| - 1]);
      }
    }
  }

  /** The primary key of `postings` holds in every reachable state. */
  lemma PostingIdsUnique(s: L.State)
    requires L.Reachable(s)
    ensures DistinctIds(s.db.postings) && Below(s.db.postings, s.ids.posting)
  {
    var clock: int, ls: seq<L.Label> :| s == L.Run(L.Init(clock), ls);
    RunKeepsIds(L.Init(clock), ls);
  }

  // ---------------------------------------------------------------- the listing of an account

  /** Rows are only added. */
  ghost predicate AppendOnly(a: L.Tables, b: L.Tables) {
    && |a.postings| <= |b.postings| && b.postings[..|a.postings|] == a.postings
    && (forall t :: t in a.headers ==> t in b.headers && b.headers[t] == a.headers[t])
  }

  lemma StepAppends(s: L.State, l: L.Label)
    requires LI.Inv(s) && L.Step(s, l).Some?
    ensures AppendOnly(s.db, L.Step(s, l).value.db)
  {
    if LT.CommitsNow(s, l) {
      LT.CommitShape(s, l);
      assert LI.SessionOk(s.db, s.ids, s.sessions[l.sid]);
    } else {
      LT.OnlyCommitWrites(s, l);
    }
  }

  lemma {:induction false} RunAppends(s: L.State, ls: seq<L.Label>)
    requires LI.Inv(s)
    ensures AppendOnly(s.db, L.Run(s, ls).db)
  {
    if ls != [] {
      var n := |ls| - 1;
      var s0 := L.Run(s, ls[..n]);
      RunAppends(s, ls[..n]);
      LC.RunKeeps(s, ls[..n]);
      if L.Step(s0, ls[n]).Some? {
        StepAppends(s0, ls[n]);
        AppendTwice(s.db, s0.db, L.Step(s0, ls[n]).value.db);
      }
    }
  }

  lemma AppendTwice(a: L.Tables, b: L.Tables, c: L.Tables)
    requires AppendOnly(a, b) && AppendOnly(b, c)
    ensures AppendOnly(a, c)
  {
    assert c.postings[..|a.postings|] == c.postings[..|b.postings|][..|a.postings|];
  }

  /** A posting that joins: its id is an int64 and its transaction exists. */
  predicate Joins(db: L.Tables, p: Posting) { InRange(p.id) && p.txId in db.headers }

  function EntryOf(db: L.Tables, p: Posting): K.Entry
    requires Joins(db, p)
  {
    var h := db.headers[p.txId];
    K.Entry(p.id, p.txId, p.account, p.amount, h.currency, h.occurredAt, h.note)
  }

  /** The joined rows of account `a` among the first n postings. */
  function EntriesOf(db: L.Tables, a: int, n: nat): seq<K.Entry>
    requires n <= |db.postings|
  {
    if n == 0 then []
    else
      var p := db.postings[n - 1];
      EntriesOf(db, a, n - 1) + (if p.account == a && Joins(db, p) then [EntryOf(db, p)] else [])
  }

  function TableOf(db: L.Tables, a: int): seq<K.Entry> { EntriesOf(db, a, |db.postings|) }

  lemma {:induction false} EntryIff(db: L.Tables, a: int, n: nat, e: K.Entry)
    requires n <= |db.postings|
    ensures e in EntriesOf(db, a, n) <==>
      exists i :: 0 <= i < n && db.postings[i].account == a && Joins(db, db.postings[i])
        && EntryOf(db, db.postings[i]) == e
  {
    if n > 0 {
      EntryIff(db, a, n - 1, e);
    }
  }

  lemma {:induction false} EntriesUnique(db: L.Tables, a: int, n: nat)
    requires n <= |db.postings| && DistinctIds(db.postings)
    ensures K.UniqueIds(EntriesOf(db, a, n))
  {
    if n > 0 {
      EntriesUnique(db, a, n - 1);
      forall e | e in EntriesOf(db, a, n - 1) ensures e.postingId != db.postings[n - 1].id {
        EntryIff(db, a, n - 1, e);
      }
    }
  }

  lemma TableGrows(d: L.Tables, d': L.Tables, a: int)
    requires AppendOnly(d, d')
    ensures K.Contains(TableOf(d', a), TableOf(d, a))
  {
    forall e | e in TableOf(d, a) ensures e in TableOf(d', a) {
      EntryIff(d, a, |d.postings|, e);
      var i :| 0 <= i < |d.postings| && d.postings[i].account == a && Joins(d, d.postings[i])
        && EntryOf(d, d.postings[i]) == e;
      assert d'.postings[..|d.postings|][i] == d'.postings[i];
      EntryIff(d', a, |d'.postings|, e);
    }
  }

  /** In a reachable state the table is the account's postings: all of them join. */
  lemma EveryPostingListed(s: L.State, a: int, p: Posting)
    requires L.Reachable(s) && s.ids.posting <= TWO_63 && p in s.db.postings && p.account == a
    ensures Joins(s.db, p) && EntryOf(s.db, p) in TableOf(s.db, a)
  {
    LC.ReachableInv(s);
    PostingIdsUnique(s);
    assert LI.PostingOk(s.db, p);
    var i :| 0 <= i < |s.db.postings| && s.db.postings[i] == p;
    EntryIff(s.db, a, |s.db.postings|, EntryOf(s.db, p));
  }

  // ---------------------------------------------------------------- walks over a run

  /** Page k is served on the ledger after the first cuts[k] steps of the run. */
  ghost predicate ServedAlong(s: L.State, ls: seq<L.Label>, cuts: seq<nat>, a: int, w: seq<P.Visit>) {
    && |cuts| == |w|
    && (forall k :: 0 <= k < |w| ==> cuts[k] <= |ls| && w[k].table == TableOf(L.Run(s, ls[..cuts[k]]).db, a))
    && (forall j, k :: 0 <= j <= k < |w| ==> cuts[j] <= cuts[k])
    && (forall k :: 0 <= k < |w| ==>
          && w[k].page.Page? && w[k].page == P.Serve(P.CursorCodec(), w[k].table, w[k].limit, P.CursorOf(w, k))
          && (k + 1 < |w| ==> w[k].page.next != ""))
  }

  lemma CutsGrow(s: L.State, ls: seq<L.Label>, m: nat, n: nat)
    requires LI.Inv(s) && m <= n <= |ls|
    ensures AppendOnly(L.Run(s, ls[..m]).db, L.Run(s, ls[..n]).db)
  {
    LC.RunKeeps(s, ls[..m]);
    assert ls[..n] == ls[..m] + ls[m..n];
    LT.RunConcat(s, ls[..m], ls[m..n]);
    RunAppends(L.Run(s, ls[..m]), ls[m..n]);
  }

  lemma ServedIsWalk(s: L.State, ls: seq<L.Label>, cuts: seq<nat>, a: int, w: seq<P.Visit>)
    requires LI.Inv(s) && IdInv(s) && ServedAlong(s, ls, cuts, a, w)
    ensures P.IsWalk(P.CursorCodec(), w)
  {
    forall k | 0 <= k < |w| ensures P.VisitOk(P.CursorCodec(), w, k) {
      var n: nat := cuts[k];
      RunKeepsIds(s, ls[..n]);
      EntriesUnique(L.Run(s, ls[..n]).db, a, |L.Run(s, ls[..n]).db.postings|);
    }
    forall j, k | 0 <= j <= k < |w| ensures K.Contains(w[k].table, w[j].table) {
      CutsGrow(s, ls, cuts[j], cuts[k]);
      TableGrows(L.Run(s, ls[..cuts[j]]).db, L.Run(s, ls[..cuts[k]]).db, a);
    }
  }

  /** The ledger that the first page is served on. */
  function FirstCut(clock: int, ls: seq<L.Label>, cuts: seq<nat>): L.State
    requires cuts != [] && cuts[0] <= |ls|
  {
    L.Run(L.Init(clock), ls[..cuts[0]])
  }

  /** The entry shows the posting and its transaction. */
  predicate Shows(e: K.Entry, p: Posting, h: L.Header) {
    && e.postingId == p.id && e.txId == p.txId && e.account == p.account && e.amount == p.amount
    && e.currency == h.currency && e.occurredAt == h.occurredAt && e.note == h.note
  }

  /**
   * Some entry of `walked` shows the posting, exactly if it is below the sentinel, and so if its
   * transaction occurred in a year before 9999.
   */
  ghost predicate Returned(db: L.Tables, walked: seq<K.Entry>, p: Posting) {
    && InRange(p.id) && p.txId in db.headers
    && var h := db.headers[p.txId];
    && ((exists e :: e in walked && Shows(e, p, h)) <==> K.Less(K.Key(h.occurredAt, p.id), C.Sentinel()))
    && (Calendar.Year(h.occurredAt) < 9999 ==> exists e :: e in walked && Shows(e, p, h))
  }

  lemma ShownIff(db: L.Tables, e: K.Entry, p: Posting)
    requires Joins(db, p)
    ensures Shows(e, p, db.headers[p.txId]) <==> e == EntryOf(db, p)
  {
  }

  lemma EntryReturned(db: L.Tables, walked: seq<K.Entry>, p: Posting)
    requires Joins(db, p)
    requires EntryOf(db, p) in walked <==> K.Less(K.KeyOf(EntryOf(db, p)), C.Sentinel())
    ensures Returned(db, walked, p)
  {
    var h := db.headers[p.txId];
    forall e ensures Shows(e, p, h) <==> e == EntryOf(db, p) {
      ShownIff(db, e, p);
    }
    C.BelowSentinelIff(K.Key(h.occurredAt, p.id));
  }

  /** ... for every posting of the account, as long as the posting sequence has not left 64 bits. */
  ghost predicate AllReturned(s: L.State, a: int, walked: seq<K.Entry>) {
    s.ids.posting <= TWO_63 ==> forall p :: p in s.db.postings && p.account == a ==> Returned(s.db, walked, p)
  }

  lemma FirstPostingsReturned(s: L.State, a: int, table: seq<K.Entry>, walked: seq<K.Entry>)
    requires L.Reachable(s) && table == TableOf(s.db, a) && WalksThrough(table, walked)
    ensures AllReturned(s, a, walked)
  {
    if s.ids.posting <= TWO_63 {
      forall p | p in s.db.postings && p.account == a ensures Returned(s.db, walked, p) {
        EveryPostingListed(s, a, p);
        EntryReturned(s.db, walked, p);
      }
    }
  }

  lemma FirstTable(clock: int, ls: seq<L.Label>, cuts: seq<nat>, a: int, w: seq<P.Visit>)
    requires ServedAlong(L.Init(clock), ls, cuts, a, w) && w != []
    ensures L.Reachable(FirstCut(clock, ls, cuts)) && w[0].table == TableOf(FirstCut(clock, ls, cuts).db, a)
  {
  }

  /** The table was walked through, in order. */
  ghost predicate WalksThrough(table: seq<K.Entry>, walked: seq<K.Entry>) {
    K.Descending(walked) && forall e :: e in table ==> (e in walked <==> K.Less(K.KeyOf(e), C.Sentinel()))
  }

  lemma TableWalked(clock: int, ls: seq<L.Label>, cuts: seq<nat>, a: int, w: seq<P.Visit>)
    requires ServedAlong(L.Init(clock), ls, cuts, a, w) && P.Ended(w)
    ensures WalksThrough(w[0].table, P.Walked(w))
  {
    ServedIsWalk(L.Init(clock), ls, cuts, a, w);
    P.WalkComplete(w);
  }

  /**
   * Following the cursors while the ledger protocol runs on, whatever it does between the
   * pages: no entry comes twice, and an ended walk has returned every posting of the account
   * that was committed at the first page, exactly if it is below the first-page sentinel.
   */
  lemma LedgerWalk(clock: int, ls: seq<L.Label>, cuts: seq<nat>, a: int, w: seq<P.Visit>)
    requires ServedAlong(L.Init(clock), ls, cuts, a, w) && P.Ended(w)
    ensures WalksThrough(w[0].table, P.Walked(w))
    ensures AllReturned(FirstCut(clock, ls, cuts), a, P.Walked(w))
  {
    TableWalked(clock, ls, cuts, a, w);
    FirstTable(clock, ls, cuts, a, w);
    FirstPostingsReturned(FirstCut(clock, ls, cuts), a, w[0].table, P.Walked(w));
  }
}
