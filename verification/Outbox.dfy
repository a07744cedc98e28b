/**
 * The outbox publisher: any number of workers, each running one batch in one DB transaction
 * (claim under row locks, publish one by one, mark the published rows, commit), with publish
 * failures, lost acknowledgements and crashes at any point.
 */
module Outbox {
  import opened Finite

  const BATCH_SIZE: nat := 50

  datatype Row = Row(createdAt: int, processed: bool)

  /** `AckLost`: the event went out, but the client got an error. */
  datatype Publication = Delivered | Failed | AckLost

  /** A batch in progress: locked rows, the next one to publish, and the ids to be marked. */
  datatype Worker = Worker(batch: seq<int>, next: nat, published: seq<int>)

  type Counter = map<int, nat>

  function Count(c: Counter, e: int): nat { if e in c then c[e] else 0 }

  /** One more for every id in `es`. */
  function Bump(c: Counter, es: seq<int>): (r: Counter)
    ensures forall e {:trigger Count(r, e)} :: Count(r, e) == Count(c, e) + (if e in es then 1 else 0)
  {
    map e | e in c.Keys + (set x | x in es) :: Count(c, e) + (if e in es then 1 else 0)
  }

  /**
   * History: `sent` counts the times an event went out, `abandoned` the batches that published
   * it but did not commit, `unacked` the publications whose acknowledgement was lost.
   */
  datatype State = State(rows: map<int, Row>, workers: map<nat, Worker>, sent: Counter, abandoned: Counter,
    unacked: Counter)

  function Init(): State { State(map[], map[], map[], map[], map[]) }

  predicate Locked(s: State, e: int) { exists w :: w in s.workers && e in s.workers[w].batch }

  predicate Distinct(es: seq<int>) { forall i, j :: 0 <= i < j < |es| ==> es[i] != es[j] }

  predicate Available(s: State, e: int) { e in s.rows && !s.rows[e].processed && !Locked(s, e) }

  /** SELECT ... WHERE processed_at IS NULL ORDER BY created_at LIMIT 50 FOR UPDATE SKIP LOCKED. */
  predicate IsClaim(s: State, batch: seq<int>) {
    && Distinct(batch) && |batch| <= BATCH_SIZE
    && (forall i :: 0 <= i < |batch| ==> Available(s, batch[i]))
    && (forall i, j :: 0 <= i < j < |batch| ==> s.rows[batch[i]].createdAt <= s.rows[batch[j]].createdAt)
    && (forall e :: e in s.rows && Available(s, e) && e !in batch ==>
          |batch| == BATCH_SIZE && forall i :: 0 <= i < |batch| ==> s.rows[batch[i]].createdAt <= s.rows[e].createdAt)
  }

  datatype Label =
    | Append(id: int, createdAt: int)           // a ledger transaction commits its event
    | Claim(w: nat, batch: seq<int>)
    | Publish(w: nat, result: Publication)
    | Finish(w: nat)                            // UPDATE the published rows, COMMIT
    | Crash(w: nat)                             // crash, failed UPDATE or failed COMMIT

  predicate CanStep(s: State, l: Label) {
    match l
    case Append(e, _) => e !in s.rows
    case Claim(w, batch) => w !in s.workers && IsClaim(s, batch)
    case Publish(w, _) => w in s.workers && s.workers[w].next < |s.workers[w].batch|
    case Finish(w) => w in s.workers && s.workers[w].next == |s.workers[w].batch|
    case Crash(w) => w in s.workers
  }

  function Mark(rows: map<int, Row>, es: seq<int>): map<int, Row> {
    map e | e in rows :: if e in es then rows[e].(processed := true) else rows[e]
  }

  function Step(s: State, l: Label): State
    requires CanStep(s, l)
  {
    match l
    case Append(e, at) => s.(rows := s.rows[e := Row(at, false)])
    case Claim(w, batch) => s.(workers := s.workers[w := Worker(batch, 0, [])])
    case Publish(w, result) =>
      var x := s.workers[w];
      var e := x.batch[x.next];
      (match result
       case Delivered => s.(workers := s.workers[w := Worker(x.batch, x.next + 1, x.published + [e])], sent :=
         Bump(s.sent, [e]))
       case Failed => s.(workers := s.workers[w := x.(next := x.next + 1)])
       case AckLost => s.(workers := s.workers[w := x.(next := x.next + 1)], sent := Bump(s.sent, [e]), unacked :=
         Bump(s.unacked, [e])))
    case Finish(w) => s.(rows := Mark(s.rows, s.workers[w].published), workers := s.workers - {w})
    case Crash(w) => s.(workers := s.workers - {w}, abandoned := Bump(s.abandoned, s.workers[w].published))
  }

  function Run(s: State, ls: seq<Label>): State {
    if ls == [] then s
    else
      var s0 := Run(s, ls[..|ls| - 1]);
      if CanStep(s0, ls[|ls| - 1]) then Step(s0, ls[|ls| - 1]) else s0
  }

  // ---------------------------------------------------------------- invariant

  ghost predicate WorkerOk(s: State, x: Worker) {
    && Distinct(x.batch) && |x.batch| <= BATCH_SIZE && x.next <= |x.batch|
    && (forall e :: e in x.batch ==> e in s.rows && !s.rows[e].processed)
    && (forall e :: e in x.published ==> e in x.batch && e in x.batch[..x.next])
  }

  predicate Disjoint(x: Worker, y: Worker) { forall e :: e in x.batch ==> e !in y.batch }

  /** Some open batch has published the event. */
  ghost predicate InFlight(s: State, e: int) { exists w :: w in s.workers && e in s.workers[w].published }

  ghost predicate Processed(s: State, e: int) { e in s.rows && s.rows[e].processed }

  /** Conservation: each time an event went out is accounted for exactly once. */
  ghost predicate Accounted(s: State, e: int) {
    Count(s.sent, e) ==
      (if Processed(s, e) then 1 else 0) + (if InFlight(s, e) then 1 else 0) + Count(s.abandoned, e)
        + Count(s.unacked, e)
  }

  ghost predicate Inv(s: State) {
    && (forall w {:trigger WorkerOk(s, s.workers[w])} :: w in s.workers ==> WorkerOk(s, s.workers[w]))
    && (forall v, w {:trigger Disjoint(s.workers[v], s.workers[w])} ::
          v in s.workers && w in s.workers && v != w ==> Disjoint(s.workers[v], s.workers[w]))
    && (forall e {:trigger Accounted(s, e)} :: Accounted(s, e))
  }

  /** The worker that holds an event is the only one that can have it in flight. */
  lemma HolderPublishes(s: State, w: nat, e: int)
    requires Inv(s) && w in s.workers && e in s.workers[w].batch
    ensures InFlight(s, e) <==> e in s.workers[w].published
  {
    if InFlight(s, e) {
      var v :| v in s.workers && e in s.workers[v].published;
      assert WorkerOk(s, s.workers[v]);
      assert v == w || Disjoint(s.workers[v], s.workers[w]);
    }
  }

  lemma NotYetPublished(s: State, w: nat)
    requires Inv(s) && w in s.workers && s.workers[w].next < |s.workers[w].batch|
    ensures s.workers[w].batch[s.workers[w].next] !in s.workers[w].published
  {
    var x := s.workers[w];
    assert WorkerOk(s, x);
    forall e | e in x.published ensures e != x.batch[x.next] {
      var k :| 0 <= k < x.next && x.batch[..x.next][k] == e;
      assert x.batch[k] == e;
    }
  }

  lemma PublishWorkers(s: State, w: nat, r: Publication)
    requires Inv(s) && CanStep(s, Publish(w, r))
    ensures var s' := Step(s, Publish(w, r));
      && (forall v :: v in s'.workers ==> WorkerOk(s', s'.workers[v]))
      && (forall u, v :: u in s'.workers && v in s'.workers && u != v ==> Disjoint(s'.workers[u], s'.workers[v]))
  {
    var x := s.workers[w];
    var s' := Step(s, Publish(w, r));
    var y := s'.workers[w];
    assert WorkerOk(s, x);
    assert x.batch[..x.next + 1] == x.batch[..x.next] + [x.batch[x.next]];
    forall e | e in y.published ensures e in y.batch && e in y.batch[..y.next] {
    }
    assert WorkerOk(s', y);
    forall v | v in s'.workers ensures WorkerOk(s', s'.workers[v]) {
      if v != w {
        assert WorkerOk(s, s.workers[v]);
      }
    }
    forall u, v | u in s'.workers && v in s'.workers && u != v ensures Disjoint(s'.workers[u], s'.workers[v]) {
      assert Disjoint(s.workers[u], s.workers[v]);
    }
  }

  lemma PublishAccounts(s: State, w: nat, r: Publication, f: int)
    requires Inv(s) && CanStep(s, Publish(w, r))
    ensures Accounted(Step(s, Publish(w, r)), f)
  {
    var x := s.workers[w];
    var e := x.batch[x.next];
    var s' := Step(s, Publish(w, r));
    assert Accounted(s, f);
    NotYetPublished(s, w);
    HolderPublishes(s, w, e);
    if f != e || r != Delivered {
      FlightSame(s, s', w, f);
    } else {
      assert e in s'.workers[w].published;
      assert InFlight(s', f);
    }
  }

  lemma FlightSame(s: State, s': State, w: nat, f: int)
    requires w in s.workers && w in s'.workers && s'.workers == s.workers[w := s'.workers[w]]
    requires f in s'.workers[w].published <==> f in s.workers[w].published
    ensures InFlight(s', f) <==> InFlight(s, f)
  {
    if InFlight(s, f) {
      var v :| v in s.workers && f in s.workers[v].published;
      assert v in s'.workers && f in s'.workers[v].published;
    }
    if InFlight(s', f) {
      var v :| v in s'.workers && f in s'.workers[v].published;
      assert v in s.workers && f in s.workers[v].published;
    }
  }

  /** What is in flight once worker `w` is gone. */
  lemma FlightWithout(s: State, s': State, w: nat, f: int)
    requires Inv(s) && w in s.workers && s'.workers == s.workers - {w}
    ensures InFlight(s', f) <==> InFlight(s, f) && f !in s.workers[w].published
  {
    assert WorkerOk(s, s.workers[w]);
    forall v | v in s'.workers && f in s'.workers[v].published
      ensures f in s.workers[v].published && f !in s.workers[w].published {
      assert WorkerOk(s, s.workers[v]);
      assert Disjoint(s.workers[v], s.workers[w]);
    }
    if InFlight(s, f) && f !in s.workers[w].published {
      var v :| v in s.workers && f in s.workers[v].published;
      assert v in s'.workers && f in s'.workers[v].published;
    }
  }

  lemma EndAccounts(s: State, l: Label, w: nat, f: int)
    requires Inv(s) && CanStep(s, l) && (l == Finish(w) || l == Crash(w))
    ensures Accounted(Step(s, l), f)
  {
    var s' := Step(s, l);
    assert Accounted(s, f);
    FlightWithout(s, s', w, f);
    assert WorkerOk(s, s.workers[w]);
    if f in s.workers[w].published {
      assert InFlight(s, f);
    }
  }

  lemma EndWorkers(s: State, l: Label, w: nat)
    requires Inv(s) && CanStep(s, l) && (l == Finish(w) || l == Crash(w))
    ensures forall v :: v in Step(s, l).workers ==> WorkerOk(Step(s, l), Step(s, l).workers[v])
  {
    var s' := Step(s, l);
    forall v | v in s'.workers ensures WorkerOk(s', s'.workers[v]) {
      assert WorkerOk(s, s.workers[v]) && WorkerOk(s, s.workers[w]) && Disjoint(s.workers[v], s.workers[w]);
    }
  }

  lemma ClaimKeeps(s: State, w: nat, batch: seq<int>)
    requires Inv(s) && CanStep(s, Claim(w, batch))
    ensures Inv(Step(s, Claim(w, batch)))
  {
    var s' := Step(s, Claim(w, batch));
    forall v | v in s'.workers ensures WorkerOk(s', s'.workers[v]) {
      if v != w {
        assert WorkerOk(s, s.workers[v]);
      }
    }
    forall v, e | v in s.workers && e in batch ensures e !in s.workers[v].batch {
      var i :| 0 <= i < |batch| && batch[i] == e;
      assert Available(s, batch[i]);
    }
    forall e ensures Accounted(s', e) {
      assert Accounted(s, e);
      if InFlight(s, e) {
        var v :| v in s.workers && e in s.workers[v].published;
        assert e in s'.workers[v].published;
      }
      if InFlight(s', e) {
        var v :| v in s'.workers && e in s'.workers[v].published;
        assert v in s.workers && e in s.workers[v].published;
      }
    }
  }

  lemma AppendKeeps(s: State, e: int, at: int)
    requires Inv(s) && CanStep(s, Append(e, at))
    ensures Inv(Step(s, Append(e, at)))
  {
    var s' := Step(s, Append(e, at));
    forall w | w in s'.workers ensures WorkerOk(s', s'.workers[w]) {
      assert WorkerOk(s, s.workers[w]);
    }
    forall f ensures Accounted(s', f) {
      assert Accounted(s, f);
      assert InFlight(s', f) == InFlight(s, f);
    }
  }

  lemma StepKeeps(s: State, l: Label)
    requires Inv(s) && CanStep(s, l)
    ensures Inv(Step(s, l))
  {
    match l
    case Append(e, at) => AppendKeeps(s, e, at);
    case Claim(w, batch) => ClaimKeeps(s, w, batch);
    case Publish(w, r) =>
      PublishWorkers(s, w, r);
      forall f ensures Accounted(Step(s, l), f) {
        PublishAccounts(s, w, r, f);
      }
    case Finish(w) =>
      EndWorkers(s, l, w);
      forall f ensures Accounted(Step(s, l), f) {
        EndAccounts(s, l, w, f);
      }
    case Crash(w) =>
      EndWorkers(s, l, w);
      forall f ensures Accounted(Step(s, l), f) {
        EndAccounts(s, l, w, f);
      }
  }

  lemma {:induction false} RunKeeps(s: State, ls: seq<Label>)
    requires Inv(s)
    ensures Inv(Run(s, ls))
  {
    if ls != [] {
      RunKeeps(s, ls[..|ls| - 1]);
      var s0 := Run(s, ls[..|ls| - 1]);
      if CanStep(s0, ls[|ls| - 1]) {
        StepKeeps(s0, ls[|ls| - 1]);
      }
    }
  }

  // ---------------------------------------------------------------- theorems

  lemma SentBounds(s: State, e: int)
    requires Inv(s)
    ensures Processed(s, e) ==> Count(s.sent, e) >= 1
    ensures Count(s.sent, e) <= 1 + Count(s.abandoned, e) + Count(s.unacked, e)
    ensures Processed(s, e) && Count(s.abandoned, e) == 0 && Count(s.unacked, e) == 0 ==> Count(s.sent, e) == 1
  {
    assert Accounted(s, e);
    if InFlight(s, e) {
      var w :| w in s.workers && e in s.workers[w].published;
      assert WorkerOk(s, s.workers[w]);
    }
  }

  /**
   * Over every run: open batches are disjoint; an event is marked processed only if it went
   * out; and it went out at most once more than the number of batches that published it
   * without committing plus the number of lost acknowledgements.
   */
  lemma OutboxSafety(ls: seq<Label>, e: int)
    ensures var s := Run(Init(), ls);
      && (forall v, w :: v in s.workers && w in s.workers && v != w ==> Disjoint(s.workers[v], s.workers[w]))
      && (Processed(s, e) ==> Count(s.sent, e) >= 1)
      && Count(s.sent, e) <= 1 + Count(s.abandoned, e) + Count(s.unacked, e)
      && (Processed(s, e) && Count(s.abandoned, e) == 0 && Count(s.unacked, e) == 0 ==> Count(s.sent, e) == 1)
  {
    RunKeeps(Init(), ls);
    SentBounds(Run(Init(), ls), e);
  }

  /** No event is lost: rows stay, and only a commit of a batch that published it processes one. */
  lemma NoEventLost(s: State, l: Label, e: int)
    requires Inv(s) && CanStep(s, l) && e in s.rows
    ensures e in Step(s, l).rows && Step(s, l).rows[e].createdAt == s.rows[e].createdAt
    ensures Processed(s, e) ==> Processed(Step(s, l), e)
    ensures Processed(Step(s, l), e) && !Processed(s, e) <==> l.Finish? && e in s.workers[l.w].published
  {
    if l.Finish? {
      assert WorkerOk(s, s.workers[l.w]);
    }
  }

  // ---------------------------------------------------------------- a lone worker's batch

  ghost function Pending(s: State): set<int> { set e | e in s.rows && !s.rows[e].processed }

  ghost function Ids(es: seq<int>): set<int> { set e | e in es }

  lemma {:induction false} DistinctSize(es: seq<int>)
    requires Distinct(es)
    ensures |Ids(es)| == |es|
  {
    if es == [] {
      assert Ids(es) == {};
    } else {
      var n := |es| - 1;
      DistinctSize(es[..n]);
      assert es == es[..n] + [es[n]];
      assert Ids(es) == Ids(es[..n]) + {es[n]};
      assert es[n] !in Ids(es[..n]);
    }
  }

  function Min(a: nat, b: nat): nat { if a < b then a else b }

  lemma ClaimSize(s: State, batch: seq<int>)
    requires s.workers == map[] && IsClaim(s, batch)
    ensures |batch| == Min(BATCH_SIZE, |Pending(s)|) && |Ids(batch)| == |batch| && Ids(batch) <= Pending(s)
  {
    DistinctSize(batch);
    forall e | e in Ids(batch) ensures e in Pending(s) {
      var i :| 0 <= i < |batch| && batch[i] == e;
      assert Available(s, batch[i]);
    }
    SubsetSize(Ids(batch), Pending(s));
    if |batch| < BATCH_SIZE {
      forall e | e in Pending(s) ensures e in Ids(batch) {
        assert Available(s, e);
      }
      assert Ids(batch) == Pending(s);
    }
  }

  /** A lone worker claims min(50, n) rows, and marking them leaves exactly the others. */
  lemma BatchDrains(s: State, batch: seq<int>)
    requires s.workers == map[] && IsClaim(s, batch)
    ensures |batch| == Min(BATCH_SIZE, |Pending(s)|)
    ensures Pending(s.(rows := Mark(s.rows, batch))) == Pending(s) - Ids(batch)
    ensures |Pending(s.(rows := Mark(s.rows, batch)))| == |Pending(s)| - Min(BATCH_SIZE, |Pending(s)|)
  {
    ClaimSize(s, batch);
    var s' := s.(rows := Mark(s.rows, batch));
    forall e ensures e in Pending(s') <==> e in Pending(s) - Ids(batch) {
    }
    assert Pending(s') == Pending(s) - Ids(batch);
    assert Pending(s) == Pending(s') + Ids(batch);
  }

  lemma {:induction false} Oldest(s: State, es: set<int>) returns (e: int)
    requires es != {} && forall x :: x in es ==> x in s.rows
    ensures e in es && forall x :: x in es ==> s.rows[e].createdAt <= s.rows[x].createdAt
    decreases |es|
  {
    var p := Pick(es);
    e := p;
    if es - {p} != {} {
      var f := Oldest(s, es - {p});
      if s.rows[f].createdAt < s.rows[p].createdAt {
        e := f;
      }
    }
    forall x | x in es ensures s.rows[e].createdAt <= s.rows[x].createdAt {
      if x != p {
        assert x in es - {p};
      }
    }
  }

  /** There is always a claim to make, so the lemmas about claims are not vacuous. */
  lemma ClaimExists(s: State) returns (batch: seq<int>)
    ensures IsClaim(s, batch)
  {
    var left := set e | e in s.rows && Available(s, e);
    batch := [];
    while |batch| < BATCH_SIZE && left != {}
      invariant Distinct(batch) && |batch| <= BATCH_SIZE
      invariant forall i :: 0 <= i < |batch| ==> Available(s, batch[i]) && batch[i] !in left
      invariant forall e :: Available(s, e) ==> e in left || e in batch
      invariant forall e :: e in left ==> Available(s, e)
      invariant forall i, j :: 0 <= i < j < |batch| ==> s.rows[batch[i]].createdAt <= s.rows[batch[j]].createdAt
      invariant forall i, e :: 0 <= i < |batch| && e in left ==> s.rows[batch[i]].createdAt <= s.rows[e].createdAt
      decreases |left|
    {
      var e := Oldest(s, left);
      batch := batch + [e];
      left := left - {e};
    }
  }

  // ---------------------------------------------------------------- the worker

  /** `processed` after i publications: the ids whose publication was acknowledged. */
  function Acked(batch: seq<int>, results: seq<Publication>, i: nat): seq<int>
    requires i <= |batch| == |results|
  {
    if i == 0 then []
    else Acked(batch, results, i - 1) + (if results[i - 1] == Delivered then [batch[i - 1]] else [])
  }

  lemma {:induction false} AllDelivered(batch: seq<int>, results: seq<Publication>, i: nat)
    requires i <= |batch| == |results| && forall j :: 0 <= j < i ==> results[j] == Delivered
    ensures Acked(batch, results, i) == batch[..i]
  {
    if i > 0 {
      AllDelivered(batch, results, i - 1);
      assert batch[..i] == batch[..i - 1] + [batch[i - 1]];
    }
  }

  /** Exactly the rows whose publication was acknowledged are marked. */
  lemma {:induction false} AckedAt(batch: seq<int>, results: seq<Publication>, i: nat, k: nat)
    requires i <= |batch| == |results| && Distinct(batch) && k < |batch|
    ensures batch[k] in Acked(batch, results, i) <==> k < i && results[k] == Delivered
  {
    if i > 0 {
      AckedAt(batch, results, i - 1, k);
    }
  }

  lemma RunSnoc(s: State, ls: seq<Label>, l: Label)
    requires CanStep(Run(s, ls), l)
    ensures Run(s, ls + [l]) == Step(Run(s, ls), l)
  {
    assert (ls + [l])[..|ls|] == ls;
  }

  lemma EndEffect(s: State, w: nat, base: map<nat, Worker>, x: Worker, commits: bool)
    requires w !in base && s.workers == base[w := x] && x.next == |x.batch|
    ensures var l := if commits then Finish(w) else Crash(w);
      && CanStep(s, l) && Step(s, l).workers == base
      && Step(s, l).rows == if commits then Mark(s.rows, x.published) else s.rows
  {
    assert base[w := x] - {w} == base;
  }

  /** The steps of a batch up to its i-th publication. */
  function BatchLabels(w: nat, rows: seq<int>, results: seq<Publication>, i: nat): seq<Label>
    requires i <= |results|
  {
    if i == 0 then [] + [Claim(w, rows)] else BatchLabels(w, rows, results, i - 1) + [Publish(w, results[i - 1])]
  }

  /** The batch after i publications. */
  ghost predicate InBatch(s: State, t: State, w: nat, rows: seq<int>, results: seq<Publication>, i: nat)
    requires i <= |rows| == |results|
  {
    t.rows == s.rows && t.workers == s.workers[w := Worker(rows, i, Acked(rows, results, i))]
  }

  lemma PublishEffect(s: State, t: State, w: nat, rows: seq<int>, results: seq<Publication>, i: nat)
    requires i < |rows| == |results| && InBatch(s, t, w, rows, results, i)
    ensures CanStep(t, Publish(w, results[i])) && InBatch(s, Step(t, Publish(w, results[i])), w, rows, results, i + 1)
  {
    var acked := Acked(rows, results, i);
    var y := Worker(rows, i + 1, if results[i] == Delivered then acked + [rows[i]] else acked);
    assert acked + [] == acked;
    assert y.published == Acked(rows, results, i + 1);
    Overwrite(s.workers, w, Worker(rows, i, acked), y);
    assert Step(t, Publish(w, results[i])).workers == t.workers[w := y];
  }

  lemma Overwrite(m: map<nat, Worker>, w: nat, x: Worker, y: Worker)
    ensures m[w := x][w := y] == m[w := y]
  {
  }

  lemma {:induction false} BatchProgress(s: State, w: nat, rows: seq<int>, results: seq<Publication>, i: nat)
    requires w !in s.workers && IsClaim(s, rows) && i <= |rows| == |results|
    ensures InBatch(s, Run(s, BatchLabels(w, rows, results, i)), w, rows, results, i)
  {
    if i == 0 {
      RunSnoc(s, [], Claim(w, rows));
    } else {
      BatchProgress(s, w, rows, results, i - 1);
      PublishEffect(s, Run(s, BatchLabels(w, rows, results, i - 1)), w, rows, results, i - 1);
      RunSnoc(s, BatchLabels(w, rows, results, i - 1), Publish(w, results[i - 1]));
    }
  }

  /** The labels of a whole batch: claim, publish each row, and commit or not. */
  function WholeBatch(w: nat, rows: seq<int>, results: seq<Publication>, commits: bool): seq<Label>
    requires |rows| == |results|
  {
    BatchLabels(w, rows, results, |rows|) + [if commits then Finish(w) else Crash(w)]
  }

  /** A batch that nobody interferes with: its locks are gone and the acknowledged rows are marked, or none. */
  lemma BatchAlone(s: State, w: nat, rows: seq<int>, results: seq<Publication>, commits: bool)
    requires w !in s.workers && IsClaim(s, rows) && |rows| == |results|
    ensures var t := Run(s, WholeBatch(w, rows, results, commits));
      t.workers == s.workers && t.rows == if commits then Mark(s.rows, Acked(rows, results, |rows|)) else s.rows
  {
    var n := |rows|;
    var t := Run(s, BatchLabels(w, rows, results, n));
    BatchProgress(s, w, rows, results, n);
    EndEffect(t, w, s.workers, Worker(rows, n, Acked(rows, results, n)), commits);
    RunSnoc(s, BatchLabels(w, rows, results, n), if commits then Finish(w) else Crash(w));
  }

  // ---------------------------------------------------------------- draining

  /** Every publication is acknowledged. */
  function AllAcked(n: nat): seq<Publication> { seq(n, _ => Delivered) }

  function DrainOne(w: nat, rows: seq<int>): seq<Label> { WholeBatch(w, rows, AllAcked(|rows|), true) }

  /** Worker `w` runs one batch after the other, every publication acknowledged, every batch committed. */
  function DrainLabels(w: nat, batches: seq<seq<int>>, n: nat): seq<Label>
    requires n <= |batches|
  {
    if n == 0 then [] else DrainLabels(w, batches, n - 1) + DrainOne(w, batches[n - 1])
  }

  /** The state after n batches. */
  ghost function Drained(s: State, w: nat, batches: seq<seq<int>>, n: nat): State
    requires n <= |batches|
  {
    Run(s, DrainLabels(w, batches, n))
  }

  ghost predicate ClaimAt(s: State, w: nat, batches: seq<seq<int>>, i: nat)
    requires i < |batches|
  {
    IsClaim(Drained(s, w, batches, i), batches[i])
  }

  /** Each batch is what its SELECT returns at that point of the run. */
  ghost predicate EachIsClaim(s: State, w: nat, batches: seq<seq<int>>) {
    forall i {:trigger ClaimAt(s, w, batches, i)} :: 0 <= i < |batches| ==> ClaimAt(s, w, batches, i)
  }

  lemma {:induction false} RunConcat(s: State, a: seq<Label>, b: seq<Label>)
    ensures Run(s, a + b) == Run(Run(s, a), b)
  {
    if b == [] {
      assert a + b == a;
    } else {
      assert (a + b)[..|a + b| - 1] == a + b[..|b| - 1];
      RunConcat(s, a, b[..|b| - 1]);
    }
  }

  lemma DrainStep(s: State, w: nat, rows: seq<int>)
    requires s.workers == map[] && IsClaim(s, rows)
    ensures Run(s, DrainOne(w, rows)).workers == map[]
    ensures |Pending(Run(s, DrainOne(w, rows)))| == |Pending(s)| - Min(BATCH_SIZE, |Pending(s)|)
  {
    var results := AllAcked(|rows|);
    BatchAlone(s, w, rows, results, true);
    AllDelivered(rows, results, |rows|);
    assert rows[..|rows|] == rows;
    BatchDrains(s, rows);
    assert Pending(Run(s, DrainOne(w, rows))) == Pending(s.(rows := Mark(s.rows, rows)));
  }

  lemma Ceiling(n: nat, k: nat)
    ensures n <= BATCH_SIZE * k <==> k >= (n + BATCH_SIZE - 1) / BATCH_SIZE
  {
  }

  lemma DrainedNext(s: State, w: nat, batches: seq<seq<int>>, k: nat)
    requires k < |batches|
    ensures Drained(s, w, batches, k + 1) == Run(Drained(s, w, batches, k), DrainOne(w, batches[k]))
  {
    RunConcat(s, DrainLabels(w, batches, k), DrainOne(w, batches[k]));
  }

  /** Max(0, n - 50 k), one batch at a time. */
  function LeftAfter(n: nat, k: nat): nat { if n <= BATCH_SIZE * k then 0 else n - BATCH_SIZE * k }

  lemma {:induction false} DrainCounts(s: State, w: nat, batches: seq<seq<int>>, k: nat)
    requires s.workers == map[] && EachIsClaim(s, w, batches) && k <= |batches|
    ensures Drained(s, w, batches, k).workers == map[]
    ensures |Pending(Drained(s, w, batches, k))| == LeftAfter(|Pending(s)|, k)
  {
    if k > 0 {
      DrainCounts(s, w, batches, k - 1);
      assert ClaimAt(s, w, batches, k - 1);
      DrainStep(Drained(s, w, batches, k - 1), w, batches[k - 1]);
      DrainedNext(s, w, batches, k - 1);
    }
  }

  /**
   * Over the run of k such batches max(0, n - 50 k) events are left: ceil(n / 50) batches drain
   * the outbox, and no fewer do.
   */
  lemma Drain(s: State, w: nat, batches: seq<seq<int>>)
    requires s.workers == map[] && EachIsClaim(s, w, batches)
    ensures var t := Run(s, DrainLabels(w, batches, |batches|)); var n := |Pending(s)|;
      && t.workers == map[]
      && |Pending(t)| == (if n <= 50 * |batches| then 0 else n - 50 * |batches|)
      && (|Pending(t)| == 0 <==> |batches| >= (n + 50 - 1) / 50)
  {
    DrainCounts(s, w, batches, |batches|);
    Ceiling(|Pending(s)|, |batches|);
  }

  lemma {:induction false} DrainPrefix(w: nat, batches: seq<seq<int>>, b: seq<int>, n: nat)
    requires n <= |batches|
    ensures DrainLabels(w, batches + [b], n) == DrainLabels(w, batches, n)
  {
    if n > 0 {
      DrainPrefix(w, batches, b, n - 1);
    }
  }

  lemma ClaimAppended(s: State, w: nat, before: seq<seq<int>>, b: seq<int>, i: nat)
    requires EachIsClaim(s, w, before) && i <= |before| && (i == |before| ==> IsClaim(Drained(s, w, before, i), b))
    ensures ClaimAt(s, w, before + [b], i)
  {
    DrainPrefix(w, before, b, i);
    if i < |before| {
      assert ClaimAt(s, w, before, i);
    }
  }

  /** There is such a run of any length. */
  lemma {:induction false} DrainRuns(s: State, w: nat, k: nat) returns (batches: seq<seq<int>>)
    ensures |batches| == k && EachIsClaim(s, w, batches)
  {
    if k == 0 {
      batches := [];
    } else {
      var before := DrainRuns(s, w, k - 1);
      var b := ClaimExists(Drained(s, w, before, k - 1));
      batches := before + [b];
      forall i | 0 <= i < |batches| ensures ClaimAt(s, w, batches, i) {
        ClaimAppended(s, w, before, b, i);
      }
    }
  }

  /** From any number of waiting events there is a run of ceil(n / 50) batches that empties the outbox. */
  lemma DrainEmpties(s: State, w: nat) returns (batches: seq<seq<int>>)
    requires s.workers == map[]
    ensures |batches| == (|Pending(s)| + 50 - 1) / 50 && EachIsClaim(s, w, batches)
    ensures Pending(Run(s, DrainLabels(w, batches, |batches|))) == {}
  {
    batches := DrainRuns(s, w, (|Pending(s)| + BATCH_SIZE - 1) / BATCH_SIZE);
    Drain(s, w, batches);
  }

  // ---------------------------------------------------------------- first in, first out

  /** The waiting events that are not younger than `e`. */
  ghost function Ahead(s: State, e: int): set<int>
    requires e in s.rows
  {
    set f | f in Pending(s) && f != e && s.rows[f].createdAt <= s.rows[e].createdAt
  }

  /** A batch without `e` consists of fifty events that are not younger. */
  lemma PassedOver(s: State, rows: seq<int>, e: int)
    requires s.workers == map[] && IsClaim(s, rows) && e in Pending(s) && e !in rows
    ensures |Ids(rows)| == BATCH_SIZE && Ids(rows) <= Ahead(s, e)
  {
    assert Available(s, e);
    ClaimSize(s, rows);
    forall f | f in Ids(rows) ensures f in Ahead(s, e) {
      var i :| 0 <= i < |rows| && rows[i] == f;
      assert Available(s, rows[i]);
    }
  }

  lemma DrainOneRows(s: State, w: nat, rows: seq<int>)
    requires s.workers == map[] && IsClaim(s, rows)
    ensures Run(s, DrainOne(w, rows)).rows == Mark(s.rows, rows)
  {
    BatchAlone(s, w, rows, AllAcked(|rows|), true);
    AllDelivered(rows, AllAcked(|rows|), |rows|);
    assert rows[..|rows|] == rows;
  }

  lemma MarkedAhead(s: State, t: State, rows: seq<int>, e: int)
    requires e in Pending(s) && t.rows == Mark(s.rows, rows) && e in Pending(t)
    requires |Ids(rows)| == BATCH_SIZE && Ids(rows) <= Ahead(s, e)
    ensures |Ahead(t, e)| + BATCH_SIZE == |Ahead(s, e)|
  {
    assert Ahead(t, e) == Ahead(s, e) - Ids(rows);
    assert Ahead(s, e) == Ahead(t, e) + Ids(rows);
  }

  lemma BatchAhead(s: State, w: nat, rows: seq<int>, e: int)
    requires s.workers == map[] && IsClaim(s, rows) && e in Pending(s) && e in Pending(Run(s, DrainOne(w, rows)))
    ensures |Ahead(Run(s, DrainOne(w, rows)), e)| + BATCH_SIZE == |Ahead(s, e)|
  {
    DrainOneRows(s, w, rows);
    PassedOver(s, rows, e);
    MarkedAhead(s, Run(s, DrainOne(w, rows)), rows, e);
  }

  lemma {:induction false} AheadShrinks(s: State, w: nat, batches: seq<seq<int>>, n: nat, e: int)
    requires s.workers == map[] && EachIsClaim(s, w, batches) && n <= |batches|
    requires e in Pending(s) && e in Pending(Drained(s, w, batches, n))
    ensures |Ahead(Drained(s, w, batches, n), e)| + BATCH_SIZE * n == |Ahead(s, e)|
  {
    if n > 0 {
      var before := Drained(s, w, batches, n - 1);
      assert ClaimAt(s, w, batches, n - 1);
      DrainCounts(s, w, batches, n - 1);
      DrainedNext(s, w, batches, n - 1);
      StillPending(s, w, batches, n - 1, e);
      AheadShrinks(s, w, batches, n - 1, e);
      BatchAhead(before, w, batches[n - 1], e);
    }
  }

  /** What waits after a batch has waited before it. */
  lemma StillPending(s: State, w: nat, batches: seq<seq<int>>, n: nat, e: int)
    requires s.workers == map[] && EachIsClaim(s, w, batches) && n < |batches|
    requires e in Pending(Drained(s, w, batches, n + 1))
    ensures e in Pending(Drained(s, w, batches, n))
  {
    var before, rows := Drained(s, w, batches, n), batches[n];
    assert ClaimAt(s, w, batches, n);
    DrainCounts(s, w, batches, n);
    DrainedNext(s, w, batches, n);
    BatchAlone(before, w, rows, AllAcked(|rows|), true);
  }

  /** First in, first out: an event with k others not younger is published and marked within k / 50 + 1 batches. */
  lemma FirstInFirstOut(s: State, w: nat, batches: seq<seq<int>>, e: int)
    requires s.workers == map[] && EachIsClaim(s, w, batches) && e in Pending(s)
    requires |batches| >= |Ahead(s, e)| / 50 + 1
    ensures e !in Pending(Run(s, DrainLabels(w, batches, |batches|)))
  {
    if e in Pending(Drained(s, w, batches, |batches|)) {
      AheadShrinks(s, w, batches, |batches|, e);
    }
  }

  // ---------------------------------------------------------------- the worker among others

  /** A step that is not worker `w`'s. */
  predicate NotMine(l: Label, w: nat) { l.Append? || l.w != w }

  lemma OthersLeaveBatch(s: State, l: Label, w: nat)
    requires CanStep(s, l) && NotMine(l, w)
    ensures w in Step(s, l).workers <==> w in s.workers
    ensures w in s.workers ==> Step(s, l).workers[w] == s.workers[w]
  {
  }

  /** While a batch is open its rows stay in the table, unprocessed. */
  lemma HeldRows(s: State, w: nat, e: int)
    requires Inv(s) && w in s.workers && e in s.workers[w].batch
    ensures e in s.rows && !Processed(s, e)
  {
    assert WorkerOk(s, s.workers[w]);
  }

  /** The fate of the batch's rows: marked exactly if acknowledged and committed. */
  ghost predicate Settled(s: State, rows: seq<int>, results: seq<Publication>, commits: bool) {
    |rows| == |results| &&
    forall k :: 0 <= k < |rows| ==> rows[k] in s.rows && (Processed(s, rows[k]) <==> commits && results[k] == Delivered)
  }

  lemma EndSettles(s: State, w: nat, rows: seq<int>, results: seq<Publication>, commits: bool)
    requires Inv(s) && |rows| == |results| && w in s.workers
      && s.workers[w] == Worker(rows, |rows|, Acked(rows, results, |rows|))
    ensures var l := if commits then Finish(w) else Crash(w);
      CanStep(s, l) && Settled(Step(s, l), rows, results, commits) && w !in Step(s, l).workers
  {
    assert WorkerOk(s, s.workers[w]);
    forall k | 0 <= k < |rows| ensures rows[k] in s.rows && !Processed(s, rows[k])
      && (rows[k] in Acked(rows, results, |rows|) <==> results[k] == Delivered)
    {
      assert rows[k] in rows;
      HeldRows(s, w, rows[k]);
      AckedAt(rows, results, |rows|, k);
    }
  }

  lemma PublishOne(t: State, w: nat, rows: seq<int>, results: seq<Publication>, i: nat)
    requires i < |rows| == |results| && w in t.workers && t.workers[w] == Worker(rows, i, Acked(rows, results, i))
    ensures CanStep(t, Publish(w, results[i]))
    ensures var t' := Step(t, Publish(w, results[i]));
      && w in t'.workers && t'.workers[w] == Worker(rows, i + 1, Acked(rows, results, i + 1)) && t'.rows == t.rows
      && t'.workers == t.workers[w := t'.workers[w]]
  {
    var acked := Acked(rows, results, i);
    assert acked + [] == acked;
  }

  /** Worker `w` is at row i of its batch. */
  ghost predicate AtRow(t: State, w: nat, rows: seq<int>, results: seq<Publication>, i: nat) {
    Inv(t) && i <= |rows| == |results| && w in t.workers && t.workers[w] == Worker(rows, i, Acked(rows, results, i))
  }

  lemma RowPublished(t: State, w: nat, rows: seq<int>, results: seq<Publication>, i: nat)
    requires AtRow(t, w, rows, results, i) && i < |rows|
    ensures CanStep(t, Publish(w, results[i])) && AtRow(Step(t, Publish(w, results[i])), w, rows, results, i + 1)
    ensures forall s: State :: InBatch(s, t, w, rows, results, i) ==>
      InBatch(s, Step(t, Publish(w, results[i])), w, rows, results, i + 1)
  {
    PublishOne(t, w, rows, results, i);
    StepKeeps(t, Publish(w, results[i]));
    forall s: State | InBatch(s, t, w, rows, results, i)
      ensures InBatch(s, Step(t, Publish(w, results[i])), w, rows, results, i + 1) {
      PublishEffect(s, t, w, rows, results, i);
    }
  }

  lemma RowsClaimed(s: State, w: nat, rows: seq<int>, results: seq<Publication>)
    requires Inv(s) && w !in s.workers && IsClaim(s, rows) && |rows| == |results|
    ensures CanStep(s, Claim(w, rows)) && AtRow(Step(s, Claim(w, rows)), w, rows, results, 0)
    ensures InBatch(s, Step(s, Claim(w, rows)), w, rows, results, 0)
  {
    StepKeeps(s, Claim(w, rows));
  }

  class OutboxWorker {
    /** The outbox table, and the batches of all workers. */
    var st: State
    /** Every step taken since the empty table. */
    ghost var trace: seq<Label>

    ghost predicate Valid()
      reads this
    {
      st == Run(Init(), trace) && Inv(st)
    }

    constructor ()
      ensures Valid() && st == Init()
    {
      st := Init();
      trace := [];
    }

    method Do(l: Label)
      requires Valid() && CanStep(st, l)
      modifies this
      ensures Valid() && st == Step(old(st), l) && trace == old(trace) + [l]
    {
      StepKeeps(st, l);
      RunSnoc(Init(), trace, l);
      st := Step(st, l);
      trace := trace + [l];
    }

    /** Other workers and the ledger move on; batch `w` is as it was. */
    method Yield(w: nat, ls: seq<Label>)
      requires Valid()
      modifies this
      ensures Valid() && old(trace) <= trace
      ensures w in st.workers <==> w in old(st).workers
      ensures w in st.workers ==> st.workers[w] == old(st).workers[w]
      ensures ls == [] ==> st == old(st)
    {
      for i := 0 to |ls|
        invariant Valid() && old(trace) <= trace
        invariant w in st.workers <==> w in old(st).workers
        invariant w in st.workers ==> st.workers[w] == old(st).workers[w]
        invariant i == 0 ==> st == old(st)
      {
        if NotMine(ls[i], w) && CanStep(st, ls[i]) {
          OthersLeaveBatch(st, ls[i], w);
          Do(ls[i]);
        }
      }
    }

    /** Let the others run, then publish row i. */
    method PublishRow(w: nat, i: nat, result: Publication, ls: seq<Label>, ghost s: State, ghost rows: seq<int>,
        ghost results: seq<Publication>)
      requires Valid() && AtRow(st, w, rows, results, i) && i < |rows| && result == results[i]
      modifies this
      ensures Valid() && old(trace) <= trace && AtRow(st, w, rows, results, i + 1)
      ensures ls == [] && old(InBatch(s, st, w, rows, results, i)) ==> InBatch(s, st, w, rows, results, i + 1)
    {
      Yield(w, ls);
      RowPublished(st, w, rows, results, i);
      Do(Publish(w, result));
    }

    /**
     * One batch among other workers. `rows` is what the SELECT returned and `results` what
     * Redis answered; `others[i]` is what everyone else does before the i-th publication, and
     * at last before the commit; the UPDATE and COMMIT succeed or the transaction is rolled
     * back. Whatever the others do, afterwards exactly those of the batch's rows are processed
     * whose publication was acknowledged, or none; alone, the batch changes nothing else.
     */
    method ProcessBatch(w: nat, rows: seq<int>, results: seq<Publication>, commits: bool, others: seq<seq<Label>>)
      requires Valid() && w !in st.workers && IsClaim(st, rows) && |results| == |rows|
      modifies this
      ensures Valid() && old(trace) <= trace && w !in st.workers
      ensures Settled(st, rows, results, commits)
      ensures others == [] ==> st.workers == old(st.workers)
      ensures others == [] ==> st.rows == if commits then Mark(old(st.rows), Acked(rows, results, |rows|))
        else old(st.rows)
    {
      ghost var s := st;
      RowsClaimed(st, w, rows, results);
      Do(Claim(w, rows));
      for i := 0 to |rows|
        invariant Valid() && old(trace) <= trace && AtRow(st, w, rows, results, i)
        invariant others == [] ==> InBatch(s, st, w, rows, results, i)
      {
        PublishRow(w, i, results[i], if i < |others| then others[i] else [], s, rows, results);
      }
      Yield(w, if |rows| < |others| then others[|rows|] else []);
      EndSettles(st, w, rows, results, commits);
      if others == [] {
        EndEffect(st, w, s.workers, Worker(rows, |rows|, Acked(rows, results, |rows|)), commits);
      }
      Do(if commits then Finish(w) else Crash(w));
    }
  }
}
