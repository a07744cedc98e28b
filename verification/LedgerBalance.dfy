/** Balance reads over the ledger protocol itself: every protocol step is a write of the reader's store. */
module LedgerBalance {
  import opened Int64
  import opened Postings
  import L = Ledger
  import LI = LedgerInvariant
  import LC = LedgerCommit
  import LT = LedgerTheorems
  import B = Balance

  /** What balance reads can see: the clock, who is still open since when, the committed postings. */
  function StoreOf(s: L.State): B.Store {
    var open := map sid | sid in s.sessions && !s.sessions[sid].pc.Replying? :: s.sessions[sid].startedAt;
    B.Store(s.clock, open, s.db.postings)
  }

  /** The write that a protocol step is, if any. */
  function WriteOf(s: L.State, l: L.Label): Option<B.Write> {
    match l
    case Tick(d) => Some(B.Tick(d))
    case Begin(req) => if L.Precheck(req).None? then Some(B.Begin(s.nextSid)) else None
    case Abort(sid) => if sid in s.sessions && !s.sessions[sid].pc.Replying? then Some(B.End(sid)) else None
    case Advance(sid) =>
      if sid !in s.sessions || s.sessions[sid].pc.Replying? || L.AdvanceSession(s, sid).None? then None
      else
        var s' := L.AdvanceSession(s, sid).value;
        if sid !in s'.sessions || !s'.sessions[sid].pc.Replying? then None
        else if s.sessions[sid].pc.Finish? && LT.Passes(s, sid) then Some(B.Commit(sid, s.sessions[sid].postings))
        else Some(B.End(sid))
    case Fail(sid) => if sid in s.sessions && !s.sessions[sid].pc.Replying? then Some(B.End(sid)) else None
    case LoseAck(sid) =>
      if sid !in s.sessions || !s.sessions[sid].pc.Finish? then None
      else if LT.Passes(s, sid) then Some(B.Commit(sid, s.sessions[sid].postings))
      else Some(B.End(sid))
    case OpenAccount(_, _) => None
    case Deactivate(_) => None
  }

  /** Session `sid` ends and no other session moves. */
  lemma SessionEnds(s: L.State, s': L.State, sid: nat)
    requires sid in s.sessions && !s.sessions[sid].pc.Replying? && sid in s'.sessions && s'.sessions[sid].pc.Replying?
    requires forall t :: t != sid ==> (t in s'.sessions <==> t in s.sessions)
    requires forall t :: t != sid && t in s.sessions ==> s'.sessions[t] == s.sessions[t]
    ensures sid in StoreOf(s).open && StoreOf(s).open[sid] == s.sessions[sid].startedAt
    ensures StoreOf(s').open == StoreOf(s).open - {sid}
  {
  }

  /** A commit appends the session's postings, all created at the session's start. */
  lemma CommitWrites(s: L.State, l: L.Label)
    requires LT.CommitsNow(s, l) && LI.PostingsMatch(s.sessions[l.sid], s.sessions[l.sid].pc.header)
    ensures L.Step(s, l).Some?
    ensures var s' := L.Step(s, l).value; var w := WriteOf(s, l);
      w.Some? && B.Enabled(StoreOf(s), w.value) && StoreOf(s') == B.Apply(StoreOf(s), w.value)
  {
    LT.CommitShape(s, l);
    LT.MoveShape(s, l);
    SessionEnds(s, L.Step(s, l).value, l.sid);
  }

  /** Only session `sid` differs, and it is open after as it was before unless it `ended`. */
  lemma OneSessionMoved(s: L.State, s': L.State, sid: nat, ended: bool)
    requires sid in s.sessions && s'.clock == s.clock && s'.db == s.db
    requires forall t :: t != sid ==> (t in s'.sessions <==> t in s.sessions)
    requires forall t :: t != sid && t in s.sessions ==> s'.sessions[t] == s.sessions[t]
    requires sid in s'.sessions ==> s'.sessions[sid].startedAt == s.sessions[sid].startedAt
    requires ended <==> !s.sessions[sid].pc.Replying? && (sid !in s'.sessions || s'.sessions[sid].pc.Replying?)
    requires s.sessions[sid].pc.Replying? ==> sid !in s'.sessions
    ensures if ended then B.Enabled(StoreOf(s), B.End(sid)) && StoreOf(s') == B.Apply(StoreOf(s), B.End(sid))
      else StoreOf(s') == StoreOf(s)
  {
    if ended {
      assert StoreOf(s').open == StoreOf(s).open - {sid};
    } else {
      assert StoreOf(s').open == StoreOf(s).open;
    }
  }

  lemma MoveWrites(s: L.State, l: L.Label)
    requires LI.SessionsOk(s.db, s.ids, s.sessions) && LT.MovesSession(l) && L.Step(s, l).Some?
    ensures var w := WriteOf(s, l); var s' := L.Step(s, l).value;
      if w.None? then StoreOf(s') == StoreOf(s)
      else B.Enabled(StoreOf(s), w.value) && StoreOf(s') == B.Apply(StoreOf(s), w.value)
  {
    LT.MoveShape(s, l);
    var x := s.sessions[l.sid];
    if LT.CommitsNow(s, l) {
      assert LI.SessionOk(s.db, s.ids, x);
      CommitWrites(s, l);
    } else {
      var s' := L.Step(s, l).value;
      OneSessionMoved(s, s', l.sid, !x.pc.Replying? && s'.sessions[l.sid].pc.Replying?);
    }
  }

  /** The step system refines the reader's store. */
  lemma StepWrites(s: L.State, l: L.Label)
    requires LI.Inv(s) && L.Step(s, l).Some?
    ensures var w := WriteOf(s, l); var s' := L.Step(s, l).value;
      if w.None? then StoreOf(s') == StoreOf(s)
      else B.Enabled(StoreOf(s), w.value) && StoreOf(s') == B.Apply(StoreOf(s), w.value)
  {
    var s' := L.Step(s, l).value;
    match l
    case Advance(sid) => MoveWrites(s, l);
    case Fail(sid) => MoveWrites(s, l);
    case LoseAck(sid) => MoveWrites(s, l);
    case Begin(req) =>
      if L.Precheck(req).None? {
        assert StoreOf(s').open == StoreOf(s).open[s.nextSid := s.clock];
      }
    case Abort(sid) =>
      if !s.sessions[sid].pc.Replying? {
        assert StoreOf(s').open == StoreOf(s).open - {sid};
      } else {
        assert StoreOf(s').open == StoreOf(s).open;
      }
    case _ =>
  }

  // ---------------------------------------------------------------- the whole system

  datatype Label = Protocol(l: L.Label) | Reader(b: B.Label)

  /** The protocol's state, and the snapshots, jobs, balance reads and answers beside it. */
  datatype System = System(ledger: L.State, readers: B.State)

  ghost function Step(y: System, l: Label): System {
    match l
    case Protocol(p) =>
      (match L.Step(y.ledger, p)
       case None => y
       case Some(s') => System(s', y.readers.(store := StoreOf(s'))))
    case Reader(b) => if !b.Writes? && B.CanStep(y.readers, b) then y.(readers := B.Step(y.readers, b)) else y
  }

  function Init(clock: int): System { System(L.Init(clock), B.Init(clock)) }

  ghost function Run(y: System, ls: seq<Label>): System {
    if ls == [] then y else Step(Run(y, ls[..|ls| - 1]), ls[|ls| - 1])
  }

  /** Snapshot sums are read only once every transaction begun by the end of the day has ended. */
  ghost predicate WellTimed(y: System, ls: seq<Label>) {
    ls == [] ||
    (WellTimed(y, ls[..|ls| - 1]) &&
     var l := ls[|ls| - 1];
     (l.Reader? && l.b.SumJob? ==> B.Quiesced(StoreOf(Run(y, ls[..|ls| - 1]).ledger), l.b.day)))
  }

  ghost predicate Inv(y: System) {
    LI.Inv(y.ledger) && B.Inv(y.readers) && y.readers.store == StoreOf(y.ledger)
  }

  lemma StepKeeps(y: System, l: Label)
    requires Inv(y) && (l.Reader? && l.b.SumJob? ==> B.Quiesced(y.readers.store, l.b.day))
    ensures Inv(Step(y, l))
  {
    match l
    case Protocol(p) =>
      if L.Step(y.ledger, p).Some? {
        LC.StepKeeps(y.ledger, p);
        StepWrites(y.ledger, p);
        var w := WriteOf(y.ledger, p);
        if w.Some? {
          B.WriteKeeps(y.readers, w.value);
        }
      }
    case Reader(b) =>
      if !b.Writes? && B.CanStep(y.readers, b) {
        B.StepKeeps(y.readers, b);
      }
  }

  lemma {:induction false} RunKeeps(y: System, ls: seq<Label>)
    requires Inv(y) && WellTimed(y, ls)
    ensures Inv(Run(y, ls))
  {
    if ls != [] {
      RunKeeps(y, ls[..|ls| - 1]);
      StepKeeps(Run(y, ls[..|ls| - 1]), ls[|ls| - 1]);
    }
  }

  lemma InitOk(clock: int)
    requires clock > B.ZERO_TIME
    ensures Inv(Init(clock))
  {
    assert StoreOf(L.Init(clock)).open == map[];
  }

  lemma AnswersExact(y: System, x: B.Answer)
    requires Inv(y) && x in y.readers.answers
    ensures x.balance == Wrap(x.exact)
  {
  }

  /** Every balance returned beside a running ledger is the exact sum at its second read, if that fits. */
  lemma LedgerBalanceIsFullSum(clock: int, ls: seq<Label>, x: B.Answer)
    requires clock > B.ZERO_TIME && WellTimed(Init(clock), ls) && x in Run(Init(clock), ls).readers.answers
    ensures InRange(x.exact) ==> x.balance == x.exact
    ensures x.balance == Wrap(x.exact)
  {
    InitOk(clock);
    RunKeeps(Init(clock), ls);
    AnswersExact(Run(Init(clock), ls), x);
  }
}
