/**
 * Why snapshots must wait: a run of the protocol in which a create, open over midnight, commits
 * behind the cutoff of a snapshot that was taken too early, and its money is missing from the
 * balance.
 */
module LateCreate {
  import opened Postings
  import opened LedgerBalance
  import L = Ledger
  import B = Balance
  import LT = LedgerTheorems
  import Calendar

  function Req(): L.Request { L.CreateReq(1, "", 1, 5, "USD", 0, "") }

  function Opened(): L.Tables {
    L.Tables(map[1 := L.Account(1, "USD", true, false)], map[], map[], map[], [], map[], map[])
  }

  /** User 1 has account 1, and call 0 is the only one. */
  function At(x: L.Session, ids: L.Ids, clock: int): L.State {
    L.State(Opened(), map[0 := x], ids, clock, 1, map[], [])
  }

  function Sys(x: L.Session, ids: L.Ids, clock: int): System {
    System(At(x, ids, clock), B.State(StoreOf(At(x, ids, clock)), map[], map[], map[], []))
  }

  ghost predicate Reached(y: System) { exists ls: seq<Label> :: y == Run(Init(0), ls) }

  lemma ReachedStep(y: System, l: Label)
    requires Reached(y)
    ensures Reached(Step(y, l))
  {
    var ls: seq<Label> :| y == Run(Init(0), ls);
    assert (ls + [l])[..|ls|] == ls;
    assert Step(y, l) == Run(Init(0), ls + [l]);
  }

  lemma Statement(x: L.Session, i: L.Ids, x': L.Session, i': L.Ids)
    requires Reached(Sys(x, i, 0)) && L.Step(At(x, i, 0), L.Advance(0)) == Some(At(x', i', 0))
    ensures Reached(Sys(x', i', 0))
  {
    ReachedStep(Sys(x, i, 0), Protocol(L.Advance(0)));
  }

  // ---------------------------------------------------------------- the call's sessions, statement by statement

  function Early(pc: L.Pc): L.Session { L.Session(Req(), 0, pc, [], None, None, []) }

  function Legs(): seq<L.Leg> { [L.Leg(1, 5), L.Leg(2, -5)] }

  /** Once the external account 2 is staged. */
  function Late(pc: L.Pc, ps: seq<Posting>): L.Session {
    L.Session(Req(), 0, pc, Legs(), None, Some(L.NewAccount(2, L.Account(1, "USD", true, true))), ps)
  }

  function H(): L.Header { L.Header(1, 1, "USD", 0, "", None, 0) }

  function P1(): Posting { Posting(1, 1, 1, 5, 0) }

  function P2(): Posting { Posting(2, 1, 2, -5, 0) }

  function Ev(): L.Event { L.EventFor(H(), [P1(), P2()]) }

  lemma OnlyZero(x: L.Session, y: L.Session)
    ensures map[0 := x][0 := y] == map[0 := y]
    ensures forall t :: t in map[0 := x] ==> t == 0
  {
  }

  lemma Begun()
    ensures Reached(Sys(Early(L.Start), L.Ids(2, 1, 1, 1), 0))
  {
    var y0 := Init(0);
    assert y0 == Run(Init(0), []);
    ReachedStep(y0, Protocol(L.OpenAccount(1, "USD")));
    var y1 := Step(y0, Protocol(L.OpenAccount(1, "USD")));
    ReachedStep(y1, Protocol(L.Begin(Req())));
    var y2 := Step(y1, Protocol(L.Begin(Req())));
    assert L.ExplicitLegs(Req())[..0] == [];
    assert y2.ledger == At(Early(L.Start), L.Ids(2, 1, 1, 1), 0);
    assert y2 == Sys(Early(L.Start), L.Ids(2, 1, 1, 1), 0);
  }

  lemma NoExternalYet()
    ensures Reached(Sys(Early(L.NoExternal), L.Ids(2, 1, 1, 1), 0))
  {
    var i := L.Ids(2, 1, 1, 1);
    Begun();
    OnlyZero(Early(L.Start), Early(L.Claimed));
    Statement(Early(L.Start), i, Early(L.Claimed), i);
    OnlyZero(Early(L.Claimed), Early(L.NoExternal));
    Statement(Early(L.Claimed), i, Early(L.NoExternal), i);
  }

  lemma LegsKnown()
    ensures L.WithExternalLeg(Req(), 2) == Legs()
  {
    var e := L.ExplicitLegs(Req());
    assert e[..0] == [] && L.WrapSum(e) == 5;
  }

  lemma Checking()
    ensures Reached(Sys(Late(L.Check(0), []), L.Ids(3, 1, 1, 1), 0))
  {
    NoExternalYet();
    LegsKnown();
    OnlyZero(Early(L.NoExternal), Late(L.Check(0), []));
    Statement(Early(L.NoExternal), L.Ids(2, 1, 1, 1), Late(L.Check(0), []), L.Ids(3, 1, 1, 1));
  }

  lemma Checked()
    ensures Reached(Sys(Late(L.Insert(None), []), L.Ids(3, 1, 1, 1), 0))
  {
    var i := L.Ids(3, 1, 1, 1);
    Checking();
    OnlyZero(Late(L.Check(0), []), Late(L.Check(1), []));
    Statement(Late(L.Check(0), []), i, Late(L.Check(1), []), i);
    OnlyZero(Late(L.Check(1), []), Late(L.Check(2), []));
    Statement(Late(L.Check(1), []), i, Late(L.Check(2), []), i);
    OnlyZero(Late(L.Check(2), []), Late(L.Insert(None), []));
    Statement(Late(L.Check(2), []), i, Late(L.Insert(None), []), i);
  }

  lemma HeaderIn()
    ensures Reached(Sys(Late(L.Post(H(), 0), []), L.Ids(3, 2, 1, 1), 0))
  {
    Checked();
    OnlyZero(Late(L.Insert(None), []), Late(L.Post(H(), 0), []));
    Statement(Late(L.Insert(None), []), L.Ids(3, 1, 1, 1), Late(L.Post(H(), 0), []), L.Ids(3, 2, 1, 1));
  }

  lemma Posted()
    ensures Reached(Sys(Late(L.Emit(H()), [P1(), P2()]), L.Ids(3, 2, 3, 1), 0))
  {
    HeaderIn();
    assert [] + [P1()] == [P1()] && [P1()] + [P2()] == [P1(), P2()];
    OnlyZero(Late(L.Post(H(), 0), []), Late(L.Post(H(), 1), [P1()]));
    Statement(Late(L.Post(H(), 0), []), L.Ids(3, 2, 1, 1), Late(L.Post(H(), 1), [P1()]), L.Ids(3, 2, 2, 1));
    OnlyZero(Late(L.Post(H(), 1), [P1()]), Late(L.Post(H(), 2), [P1(), P2()]));
    Statement(Late(L.Post(H(), 1), [P1()]), L.Ids(3, 2, 2, 1), Late(L.Post(H(), 2), [P1(), P2()]), L.Ids(3, 2, 3, 1));
    OnlyZero(Late(L.Post(H(), 2), [P1(), P2()]), Late(L.Emit(H()), [P1(), P2()]));
    Statement(Late(L.Post(H(), 2), [P1(), P2()]), L.Ids(3, 2, 3, 1), Late(L.Emit(H()), [P1(), P2()]),
      L.Ids(3, 2, 3, 1));
  }

  function Ready(): L.Session { Late(L.Finish(H(), 1, Ev()), [P1(), P2()]) }

  lemma ReadyToCommit()
    ensures Reached(Sys(Ready(), L.Ids(3, 2, 3, 2), 0))
  {
    var ps := [P1(), P2()];
    Posted();
    OnlyZero(Late(L.Emit(H()), ps), Late(L.Mark(H(), 1, Ev()), ps));
    Statement(Late(L.Emit(H()), ps), L.Ids(3, 2, 3, 1), Late(L.Mark(H(), 1, Ev()), ps), L.Ids(3, 2, 3, 2));
    OnlyZero(Late(L.Mark(H(), 1, Ev()), ps), Ready());
    Statement(Late(L.Mark(H(), 1, Ev()), ps), L.Ids(3, 2, 3, 2), Ready(), L.Ids(3, 2, 3, 2));
  }

  // ---------------------------------------------------------------- snapshot, commit, read

  /** Two days later the snapshot of day 0 is taken, and the call is still open. */
  function Early0(): System {
    var s := At(Ready(), L.Ids(3, 2, 3, 2), 2 * Calendar.DAY);
    System(s, B.State(StoreOf(s), map[(1, 0) := 0], map[], map[], []))
  }

  lemma SnapshotTooEarly()
    ensures Reached(Early0())
  {
    ReadyToCommit();
    var y := Sys(Ready(), L.Ids(3, 2, 3, 2), 0);
    ReachedStep(y, Protocol(L.Tick(2 * Calendar.DAY)));
    var y1 := Step(y, Protocol(L.Tick(2 * Calendar.DAY)));
    assert y1 == Sys(Ready(), L.Ids(3, 2, 3, 2), 2 * Calendar.DAY);
    assert y1.readers.store.postings == [];
    ReachedStep(y1, Reader(B.SumJob(0, 1, 0)));
    var y2 := Step(y1, Reader(B.SumJob(0, 1, 0)));
    assert y2.readers.jobs == map[0 := B.Job(1, 0, 0)];
    ReachedStep(y2, Reader(B.Upsert(0)));
    var y3 := Step(y2, Reader(B.Upsert(0)));
    assert y3.readers.jobs == map[] && y3.readers.snapshots == map[(1, 0) := 0];
    assert y3 == Early0();
  }

  lemma PairSums()
    ensures var ps := [P1(), P2()];
      Sum(ps, OfTx(1)) == 0 && Sum(ps, B.Since(1, B.Cutoff(0))) == 0 && Sum(ps, OnAccount(1)) == 5
  {
    var ps := [P1(), P2()];
    assert ps[1..] == [P2()] && ps[1..][1..] == [];
  }

  lemma CommitsLate()
    ensures L.Step(Early0().ledger, L.Advance(0)).Some?
    ensures L.Step(Early0().ledger, L.Advance(0)).value.db.postings == [P1(), P2()]
  {
    var s := Early0().ledger;
    assert s.db.postings + [P1(), P2()] == [P1(), P2()];
    PairSums();
    LT.CommitShape(s, L.Advance(0));
  }

  lemma AnswerMisses(r: B.State)
    requires r.store.postings == [P1(), P2()] && r.snapshots == map[(1, 0) := 0] && r.answers == []
    ensures B.CanStep(r, B.FindSnapshot(0, 1, Some(0)))
    ensures var r' := B.Step(r, B.FindSnapshot(0, 1, Some(0)));
      B.CanStep(r', B.AddDelta(0)) && B.Step(r', B.AddDelta(0)).answers == [B.Answer(1, 0, 5)]
  {
    PairSums();
    assert B.IsLatest(r.snapshots, 1, 0);
    var r' := B.Step(r, B.FindSnapshot(0, 1, Some(0)));
    assert r'.lookups[0] == B.Read(1, B.Cutoff(0), 0);
  }

  /**
   * The create of 5 is committed and visible, and the balance that is returned is 0: it began
   * on day 0, and the snapshot of day 0 had already been taken when it committed.
   */
  lemma LateCreateIsLost() returns (ls: seq<Label>)
    ensures B.Answer(1, 0, 5) in Run(Init(0), ls).readers.answers
  {
    SnapshotTooEarly();
    CommitsLate();
    ReachedStep(Early0(), Protocol(L.Advance(0)));
    var y := Step(Early0(), Protocol(L.Advance(0)));
    assert y.readers.store.postings == [P1(), P2()];
    AnswerMisses(y.readers);
    ReachedStep(y, Reader(B.FindSnapshot(0, 1, Some(0))));
    var y1 := Step(y, Reader(B.FindSnapshot(0, 1, Some(0))));
    ReachedStep(y1, Reader(B.AddDelta(0)));
    var y2 := Step(y1, Reader(B.AddDelta(0)));
    ls :| y2 == Run(Init(0), ls);
  }
}
