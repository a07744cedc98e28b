/** Times in the ledger: when a transaction is created, and when a reversal occurs. */
module LedgerClock {
  import opened Postings
  import opened Ledger
  import LI = LedgerInvariant
  import LC = LedgerCommit
  import LT = LedgerTheorems

  /** Created by now; a reversal occurs after its call began and by now. */
  predicate HeaderTimes(now: int, h: Header) {
    h.createdAt <= now && (h.reversalOf.Some? ==> Micros(h.createdAt) <= h.occurredAt <= now)
  }

  predicate SessionTimes(now: int, x: Session) {
    x.startedAt <= now && (StagedHeader(x).Some? ==> HeaderTimes(now, StagedHeader(x).value))
  }

  ghost predicate ClockInv(s: State) {
    && (forall sid {:trigger SessionTimes(s.clock, s.sessions[sid])} :: sid in s.sessions ==>
          SessionTimes(s.clock, s.sessions[sid]))
    && (forall t {:trigger HeaderTimes(s.clock, s.db.headers[t])} :: t in s.db.headers ==>
          HeaderTimes(s.clock, s.db.headers[t]))
  }

  /** Later, what was in the past still is. */
  lemma TimePasses(s: State, s': State)
    requires ClockInv(s) && s.clock <= s'.clock
    requires forall t :: t in s'.sessions ==>
      SessionTimes(s'.clock, s'.sessions[t]) || (t in s.sessions && s'.sessions[t] == s.sessions[t])
    requires forall t :: t in s'.db.headers ==>
      HeaderTimes(s'.clock, s'.db.headers[t]) || (t in s.db.headers && s'.db.headers[t] == s.db.headers[t])
    ensures ClockInv(s')
  {
    forall t | t in s'.sessions ensures SessionTimes(s'.clock, s'.sessions[t]) {
      if t in s.sessions {
        assert SessionTimes(s.clock, s.sessions[t]);
      }
    }
    forall t | t in s'.db.headers ensures HeaderTimes(s'.clock, s'.db.headers[t]) {
      if t in s.db.headers {
        assert HeaderTimes(s.clock, s.db.headers[t]);
      }
    }
  }

  lemma AdvanceTimes(s: State, sid: nat)
    requires sid in s.sessions && AdvanceSession(s, sid).Some? && SessionTimes(s.clock, s.sessions[sid])
    requires !s.sessions[sid].pc.Replying?
    ensures var s' := AdvanceSession(s, sid).value; sid in s'.sessions && SessionTimes(s.clock, s'.sessions[sid])
  {
  }

  lemma StepKeepsTimes(s: State, l: Label)
    requires ClockInv(s) && Step(s, l).Some?
    ensures ClockInv(Step(s, l).value)
  {
    var s' := Step(s, l).value;
    if LT.MovesSession(l) {
      LT.MoveShape(s, l);
      assert SessionTimes(s.clock, s.sessions[l.sid]);
      if l.Advance? && !s.sessions[l.sid].pc.Replying? {
        AdvanceTimes(s, l.sid);
      }
      if LT.CommitsNow(s, l) {
        LT.CommitShape(s, l);
      }
    }
    TimePasses(s, s');
  }

  lemma {:induction false} RunKeepsTimes(s: State, ls: seq<Label>)
    requires ClockInv(s)
    ensures ClockInv(Run(s, ls))
  {
    if ls != [] {
      var s0 := Run(s, ls[..|ls| - 1]);
      RunKeepsTimes(s, ls[..|ls| - 1]);
      if Step(s0, ls[|ls| - 1]).Some? {
        StepKeepsTimes(s0, ls[|ls| - 1]);
      }
    }
  }

  /**
   * A reversal occurs at its own call: after the call's DB transaction began (to the
   * microsecond) and before now. Every posting was created when its transaction began.
   */
  lemma ReversalsOccurWhenMade(s: State, t: int)
    requires Reachable(s) && t in s.db.headers
    ensures s.db.headers[t].createdAt <= s.clock
    ensures s.db.headers[t].reversalOf.Some? ==>
      Micros(s.db.headers[t].createdAt) <= s.db.headers[t].occurredAt <= s.clock
    ensures forall p :: p in s.db.postings && p.txId == t ==> p.createdAt == s.db.headers[t].createdAt
  {
    var clock: int, ls: seq<Label> :| s == Run(Init(clock), ls);
    RunKeepsTimes(Init(clock), ls);
    LC.ReachableInv(s);
    assert HeaderTimes(s.clock, s.db.headers[t]);
    forall p | p in s.db.postings && p.txId == t ensures p.createdAt == s.db.headers[t].createdAt {
      assert LI.PostingOk(s.db, p);
    }
  }
}
