/**
 * Balances: latest snapshot plus the postings created after its cutoff. Writers, snapshot jobs
 * and balance reads are interleaved step by step; `createdAt` of a posting is the start of its
 * DB transaction, so start order and commit order differ. Times are nanoseconds.
 */
module Balance {
  import opened Finite
  import opened Int64
  import opened Postings
  import Calendar

  /** Go's zero time, 0001-01-01T00:00:00Z, on the Unix scale. */
  const ZERO_TIME: int := -62_135_596_800_000_000_000

  /** 23:59:59.999999999 of UTC day `d`. */
  function Cutoff(d: int): int { (d + 1) * Calendar.DAY - 1 }

  function UpTo(a: int, cutoff: int): Filter { (p: Posting) => p.account == a && p.createdAt <= cutoff }

  function Since(a: int, cutoff: int): Filter { (p: Posting) => p.account == a && p.createdAt > cutoff }

  /** The cutoff is the last nanosecond of its UTC day: a snapshot of day `d` holds what was created by then. */
  lemma CutoffIsEndOfDay(d: int, a: int, p: Posting)
    ensures UpTo(a, Cutoff(d))(p) <==> p.account == a && p.createdAt / Calendar.DAY <= d
    ensures Since(a, Cutoff(d))(p) <==> p.account == a && p.createdAt / Calendar.DAY > d
  {
  }

  /** Go's zero time is the first midnight of year 1. */
  lemma ZeroTimeIs()
    ensures ZERO_TIME == Calendar.Midnight(Calendar.Date(1, 1, 1))
  {
    Calendar.DaysToYearClosed(1);
  }

  // ---------------------------------------------------------------- the ledger as its readers see it

  /** The clock, the open DB transactions with their start times, and the committed postings. */
  datatype Store = Store(now: int, open: map<nat, int>, postings: seq<Posting>)

  datatype Write = Tick(elapsed: nat) | Begin(t: nat) | Commit(t: nat, ps: seq<Posting>) | End(t: nat)

  predicate Enabled(w: Store, l: Write) {
    match l
    case Tick(_) => true
    case Begin(t) => t !in w.open
    case Commit(t, ps) => t in w.open && forall i :: 0 <= i < |ps| ==> ps[i].createdAt == w.open[t]
    case End(t) => t in w.open
  }

  function Apply(w: Store, l: Write): Store
    requires Enabled(w, l)
  {
    match l
    case Tick(d) => w.(now := w.now + d)
    case Begin(t) => w.(open := w.open[t := w.now])
    case Commit(t, ps) => w.(open := w.open - {t}, postings := w.postings + ps)
    case End(t) => w.(open := w.open - {t})
  }

  function ApplyAll(w: Store, ls: seq<Write>): Store {
    if ls == [] then w
    else
      var w0 := ApplyAll(w, ls[..|ls| - 1]);
      if Enabled(w0, ls[|ls| - 1]) then Apply(w0, ls[|ls| - 1]) else w0
  }

  /** No transaction that started by `c` can still commit. */
  ghost predicate Sealed(w: Store, c: int) {
    w.now > c && forall t :: t in w.open ==> w.open[t] > c
  }

  /** The moment is right for the snapshot of day `d`. */
  ghost predicate Quiesced(w: Store, d: int) { Sealed(w, Cutoff(d)) }

  lemma SealedApply(w: Store, l: Write, a: int, c: int)
    requires Sealed(w, c) && Enabled(w, l)
    ensures Sealed(Apply(w, l), c)
    ensures Sum(Apply(w, l).postings, UpTo(a, c)) == Sum(w.postings, UpTo(a, c))
  {
    if l.Commit? {
      SumConcat(w.postings, l.ps, UpTo(a, c));
      SumNone(l.ps, UpTo(a, c));
    }
  }

  lemma {:induction false} SealedForever(w: Store, ls: seq<Write>, a: int, c: int)
    requires Sealed(w, c)
    ensures Sealed(ApplyAll(w, ls), c)
    ensures Sum(ApplyAll(w, ls).postings, UpTo(a, c)) == Sum(w.postings, UpTo(a, c))
  {
    if ls != [] {
      var w0 := ApplyAll(w, ls[..|ls| - 1]);
      SealedForever(w, ls[..|ls| - 1], a, c);
      if Enabled(w0, ls[|ls| - 1]) {
        SealedApply(w0, ls[|ls| - 1], a, c);
      }
    }
  }

  /** A posting that still lands behind the cutoff of a day that is not quiesced. */
  lemma LatePosting(w: Store, a: int, d: int) returns (ls: seq<Write>)
    requires !Quiesced(w, d)
    ensures Sum(ApplyAll(w, ls).postings, UpTo(a, Cutoff(d))) == Sum(w.postings, UpTo(a, Cutoff(d))) + 1
  {
    var c := Cutoff(d);
    if t :| t in w.open && w.open[t] <= c {
      var p := Posting(0, 0, a, 1, w.open[t]);
      ls := [Commit(t, [p])];
      assert ls[..0] == [];
      SumConcat(w.postings, [p], UpTo(a, c));
    } else {
      assert w.now <= c;
      var t := UpperBound(w.open.Keys);
      var p := Posting(0, 0, a, 1, w.now);
      ls := [Begin(t), Commit(t, [p])];
      assert ls[..1] == [Begin(t)] && [Begin(t)][..0] == [];
      assert ApplyAll(w, [Begin(t)]) == w.(open := w.open[t := w.now]);
      SumConcat(w.postings, [p], UpTo(a, c));
    }
  }

  /**
   * The snapshot of day `d`, taken now, is the day's closing sum for ever, whatever is written
   * later, if and only if the day is quiesced: past its end, and with no transaction still open
   * that began by then.
   */
  lemma SnapshotExactIffQuiesced(w: Store, a: int, d: int)
    ensures Quiesced(w, d) <==>
      forall ls: seq<Write> :: Sum(ApplyAll(w, ls).postings, UpTo(a, Cutoff(d))) == Sum(w.postings, UpTo(a, Cutoff(d)))
  {
    if Quiesced(w, d) {
      forall ls: seq<Write>
        ensures Sum(ApplyAll(w, ls).postings, UpTo(a, Cutoff(d))) == Sum(w.postings, UpTo(a, Cutoff(d)))
      {
        SealedForever(w, ls, a, Cutoff(d));
      }
    } else {
      var ls := LatePosting(w, a, d);
      assert Sum(ApplyAll(w, ls).postings, UpTo(a, Cutoff(d))) != Sum(w.postings, UpTo(a, Cutoff(d)));
    }
  }

  // ---------------------------------------------------------------- snapshot jobs and balance reads

  type SnapshotKey = (int, int)  // account, day

  /** A snapshot job between its SELECT and its upsert. */
  datatype Job = Job(account: int, day: int, sum: I64)

  /** A balance read between its two SELECTs. */
  datatype Read = Read(account: int, cutoff: int, base: I64)

  /** History: a returned balance, and the exact sum at the second SELECT. */
  datatype Answer = Answer(account: int, balance: I64, exact: int)

  datatype State = State(
    store: Store, snapshots: map<SnapshotKey, I64>, jobs: map<nat, Job>, lookups: map<nat, Read>, answers: seq<Answer>)

  datatype Label =
    | Writes(w: Write)
    | SumJob(job: nat, account: int, day: int)          // handleSnapshotAccount: SumPostingsUpTo
    | Upsert(job: nat)                                  // handleSnapshotAccount: UpsertBalanceSnapshot
    | FindSnapshot(read: nat, account: int, found: Option<int>)  // GetLatestSnapshot; None: no row, or an error
    | AddDelta(read: nat)                               // SumPostingsSince, and the answer
    | Give(id: nat)                                     // a job or read is abandoned

  ghost predicate IsLatest(snapshots: map<SnapshotKey, I64>, a: int, d: int) {
    (a, d) in snapshots && forall e :: (a, e) in snapshots ==> e <= d
  }

  ghost predicate CanStep(s: State, l: Label) {
    match l
    case Writes(w) => Enabled(s.store, w)
    case SumJob(_, a, d) => InRange(Sum(s.store.postings, UpTo(a, Cutoff(d))))  // else the cast to bigint fails
    case Upsert(j) => j in s.jobs
    case FindSnapshot(_, a, day) => day.Some? ==> IsLatest(s.snapshots, a, day.value)
    case AddDelta(r) =>
      r in s.lookups && InRange(Sum(s.store.postings, Since(s.lookups[r].account, s.lookups[r].cutoff)))
    case Give(_) => true
  }

  /** The first half of CurrentBalance: base and cutoff from the snapshot, or zero and the zero time. */
  function BaseOf(snapshots: map<SnapshotKey, I64>, a: int, day: Option<int>): Read
    requires day.Some? ==> (a, day.value) in snapshots
  {
    match day
    case None => Read(a, ZERO_TIME, 0)
    case Some(d) => Read(a, Cutoff(d), snapshots[(a, d)])
  }

  /** The second half: base plus delta, in Go's wrapping arithmetic. */
  function BalanceOf(r: Read, postings: seq<Posting>): I64 {
    Wrap(r.base + Sum(postings, Since(r.account, r.cutoff)))
  }

  ghost function Step(s: State, l: Label): State
    requires CanStep(s, l)
  {
    match l
    case Writes(w) => s.(store := Apply(s.store, w))
    case SumJob(j, a, d) => s.(jobs := s.jobs[j := Job(a, d, Sum(s.store.postings, UpTo(a, Cutoff(d))))])
    case Upsert(j) =>
      var job := s.jobs[j];
      s.(snapshots := s.snapshots[(job.account, job.day) := job.sum], jobs := s.jobs - {j})
    case FindSnapshot(r, a, day) => s.(lookups := s.lookups[r := BaseOf(s.snapshots, a, day)])
    case AddDelta(r) =>
      var read := s.lookups[r];
      var answer := Answer(read.account, BalanceOf(read, s.store.postings),
        Sum(s.store.postings, OnAccount(read.account)));
      s.(lookups := s.lookups - {r}, answers := s.answers + [answer])
    case Give(id) => s.(jobs := s.jobs - {id}, lookups := s.lookups - {id})
  }

  function Init(now: int): State { State(Store(now, map[], []), map[], map[], map[], []) }

  ghost function Run(s: State, ls: seq<Label>): State {
    if ls == [] then s
    else
      var s0 := Run(s, ls[..|ls| - 1]);
      if CanStep(s0, ls[|ls| - 1]) then Step(s0, ls[|ls| - 1]) else s0
  }

  /** The hypothesis the 00:05 schedule aims at: sums are only read for quiesced days. */
  ghost predicate WellTimed(s: State, ls: seq<Label>) {
    ls == [] ||
    (WellTimed(s, ls[..|ls| - 1]) &&
     (ls[|ls| - 1].SumJob? ==> Quiesced(Run(s, ls[..|ls| - 1]).store, ls[|ls| - 1].day)))
  }

  /** `v` is the sum up to `c`, and can no longer change. */
  ghost predicate Closed(w: Store, a: int, c: int, v: int) {
    Sealed(w, c) && v == Sum(w.postings, UpTo(a, c))
  }

  ghost predicate Inv(s: State) {
    && Sealed(s.store, ZERO_TIME)
    && (forall p :: p in s.store.postings ==> p.createdAt > ZERO_TIME)
    && (forall a, d :: (a, d) in s.snapshots ==> Closed(s.store, a, Cutoff(d), s.snapshots[(a, d)]))
    && (forall j :: j in s.jobs ==> Closed(s.store, s.jobs[j].account, Cutoff(s.jobs[j].day), s.jobs[j].sum))
    && (forall r :: r in s.lookups ==> Closed(s.store, s.lookups[r].account, s.lookups[r].cutoff, s.lookups[r].base))
    && (forall x :: x in s.answers ==> x.balance == Wrap(x.exact))
  }

  /** Snapshot plus delta is the plain sum. */
  lemma SplitAtCutoff(ps: seq<Posting>, a: int, c: int)
    ensures Sum(ps, OnAccount(a)) == Sum(ps, UpTo(a, c)) + Sum(ps, Since(a, c))
  {
    SumSplit(ps, OnAccount(a), UpTo(a, c));
    SumSame(ps, And(OnAccount(a), UpTo(a, c)), UpTo(a, c));
    SumSame(ps, AndNot(OnAccount(a), UpTo(a, c)), Since(a, c));
  }

  lemma WriteKeeps(s: State, w: Write)
    requires Inv(s) && Enabled(s.store, w)
    ensures Inv(Step(s, Writes(w)))
  {
    var store' := Apply(s.store, w);
    SealedApply(s.store, w, 0, ZERO_TIME);
    forall a, d | (a, d) in s.snapshots ensures Closed(store', a, Cutoff(d), s.snapshots[(a, d)]) {
      SealedApply(s.store, w, a, Cutoff(d));
    }
    forall j | j in s.jobs ensures Closed(store', s.jobs[j].account, Cutoff(s.jobs[j].day), s.jobs[j].sum) {
      SealedApply(s.store, w, s.jobs[j].account, Cutoff(s.jobs[j].day));
    }
    forall r | r in s.lookups ensures Closed(store', s.lookups[r].account, s.lookups[r].cutoff, s.lookups[r].base) {
      SealedApply(s.store, w, s.lookups[r].account, s.lookups[r].cutoff);
    }
  }

  lemma StepKeeps(s: State, l: Label)
    requires Inv(s) && CanStep(s, l) && (l.SumJob? ==> Quiesced(s.store, l.day))
    ensures Inv(Step(s, l))
  {
    match l
    case Writes(w) => WriteKeeps(s, w);
    case FindSnapshot(_, a, day) => SumNone(s.store.postings, UpTo(a, ZERO_TIME));
    case AddDelta(r) => SplitAtCutoff(s.store.postings, s.lookups[r].account, s.lookups[r].cutoff);
    case _ =>
  }

  lemma {:induction false} RunKeeps(s: State, ls: seq<Label>)
    requires Inv(s) && WellTimed(s, ls)
    ensures Inv(Run(s, ls))
  {
    if ls != [] {
      RunKeeps(s, ls[..|ls| - 1]);
      var s0 := Run(s, ls[..|ls| - 1]);
      if CanStep(s0, ls[|ls| - 1]) {
        StepKeeps(s0, ls[|ls| - 1]);
      }
    }
  }

  /**
   * In every well-timed run every returned balance is the exact sum of the account's postings
   * at the second read, whenever that sum fits in 64 bits: backdated entries, repeated and
   * reordered snapshot jobs, a failed snapshot read and commits between the reads included.
   */
  lemma BalanceIsFullSum(now: int, ls: seq<Label>, x: Answer)
    requires now > ZERO_TIME && WellTimed(Init(now), ls) && x in Run(Init(now), ls).answers
    ensures x.balance == Wrap(x.exact)
    ensures InRange(x.exact) ==> x.balance == x.exact
  {
    RunKeeps(Init(now), ls);
  }
}
