/** What the protocol guarantees in every reachable state and over every run. */
module LedgerTheorems {
  import opened Int64
  import opened Postings
  import opened Ledger
  import opened LedgerInvariant
  import opened LedgerSteps
  import opened LedgerCommit

  // ---------------------------------------------------------------- shape of a step

  lemma AdvanceLocal(s: State, sid: nat)
    requires sid in s.sessions && AdvanceSession(s, sid).Some?
    requires !s.sessions[sid].pc.Replying? && !s.sessions[sid].pc.Finish?
    ensures var x := s.sessions[sid]; var s' := AdvanceSession(s, sid).value;
      && sid in s'.sessions && s' == s.(sessions := s.sessions[sid := s'.sessions[sid]], ids := s'.ids)
      && s'.sessions[sid].req == x.req && s'.sessions[sid].startedAt == x.startedAt
  {
  }

  /** One statement touches its own session only, and only a commit touches the tables. */
  lemma AdvanceShape(s: State, sid: nat)
    requires sid in s.sessions && AdvanceSession(s, sid).Some?
    ensures var x := s.sessions[sid]; var s' := AdvanceSession(s, sid).value;
      && (forall t :: t != sid ==> (t in s'.sessions <==> t in s.sessions))
      && (forall t :: t != sid && t in s.sessions ==> s'.sessions[t] == s.sessions[t])
      && s'.nextSid == s.nextSid && s'.clock == s.clock
      && (x.pc.Replying? ==> s' == Deliver(s, sid, x, x.pc.outcome))
      && (!x.pc.Replying? ==>
            && s'.replies == s.replies && sid in s'.sessions
            && s'.sessions[sid].req == x.req && s'.sessions[sid].startedAt == x.startedAt)
      && (!x.pc.Finish? ==> s'.db == s.db && s'.journal == s.journal)
  {
    var x := s.sessions[sid];
    if !x.pc.Replying? && !x.pc.Finish? {
      AdvanceLocal(s, sid);
    }
  }

  predicate CommitsNow(s: State, l: Label) {
    (l.Advance? || l.LoseAck?) && l.sid in s.sessions && s.sessions[l.sid].pc.Finish?
  }

  /** A label that moves one session on. */
  predicate MovesSession(l: Label) { l.Advance? || l.Fail? || l.LoseAck? }

  /** A step of session `sid` touches that session only; an undelivered one stays, with its request. */
  lemma MoveShape(s: State, l: Label)
    requires MovesSession(l) && Step(s, l).Some?
    ensures l.sid in s.sessions
    ensures var sid := l.sid; var x := s.sessions[sid]; var s' := Step(s, l).value;
      && (forall t :: t != sid ==> (t in s'.sessions <==> t in s.sessions))
      && (forall t :: t != sid && t in s.sessions ==> s'.sessions[t] == s.sessions[t])
      && s'.nextSid == s.nextSid && s'.clock == s.clock
      && (x.pc.Replying? ==> s' == Deliver(s, sid, x, x.pc.outcome))
      && (!x.pc.Replying? ==>
            && s'.replies == s.replies && sid in s'.sessions
            && s'.sessions[sid].req == x.req && s'.sessions[sid].startedAt == x.startedAt)
      && (!CommitsNow(s, l) ==> s'.db == s.db && s'.journal == s.journal)
      && (!l.Advance? ==> sid in s'.sessions && s'.sessions[sid].pc == Replying(Err(Internal)))
  {
    if l.Advance? {
      AdvanceShape(s, l.sid);
    } else if l.LoseAck? {
      var x := s.sessions[l.sid];
      UnackedShape(s, l.sid, x, x.pc.header, x.pc.eventId, x.pc.event);
    }
  }

  /** What the session at its COMMIT would make of the tables. */
  function MergeOf(s: State, sid: nat): Tables
    requires sid in s.sessions && s.sessions[sid].pc.Finish?
  {
    var x := s.sessions[sid];
    Merge(s.db, x, x.pc.header, x.pc.eventId, x.pc.event)
  }

  /** The trigger lets the commit pass. */
  predicate Passes(s: State, sid: nat)
    requires sid in s.sessions && s.sessions[sid].pc.Finish?
  {
    Sum(MergeOf(s, sid).postings, OfTx(s.sessions[sid].pc.header.id)) == 0
  }

  /** A commit, acknowledged or not, merges its session's writes exactly if the trigger lets it pass. */
  lemma CommitShape(s: State, l: Label)
    requires CommitsNow(s, l)
    ensures Step(s, l).Some?
    ensures var x := s.sessions[l.sid]; var s' := Step(s, l).value;
      && s'.db == (if Passes(s, l.sid) then MergeOf(s, l.sid) else s.db)
      && s'.journal == (if Passes(s, l.sid)
        then s.journal[x.pc.header.id := JournalEntry(l.sid, x.req, x.pc.eventId)] else s.journal)
      && s'.ids == s.ids && l.sid in s'.sessions
      && s'.sessions[l.sid].pc.Replying? && s'.sessions[l.sid].postings == []
      && (l.Advance? ==> (s'.sessions[l.sid].pc.outcome.Ok? <==> Passes(s, l.sid)))
  {
    var x := s.sessions[l.sid];
    UnackedShape(s, l.sid, x, x.pc.header, x.pc.eventId, x.pc.event);
  }

  /**
   * Every step other than a commit leaves all ledger tables as they are; outside commits the
   * accounts table changes only when an account is opened or deactivated.
   */
  lemma OnlyCommitWrites(s: State, l: Label)
    requires Step(s, l).Some? && !CommitsNow(s, l)
    ensures Step(s, l).value.db.(accounts := s.db.accounts) == s.db && Step(s, l).value.journal == s.journal
    ensures Step(s, l).value.db.accounts == s.db.accounts || l.OpenAccount? || l.Deactivate?
    ensures l.Deactivate? ==> Step(s, l).value.db.accounts.Keys == s.db.accounts.Keys
  {
    if MovesSession(l) {
      MoveShape(s, l);
    }
  }

  lemma {:induction false} RunConcat(s: State, a: seq<Label>, b: seq<Label>)
    ensures Run(s, a + b) == Run(Run(s, a), b)
  {
    if b == [] {
      assert a + b == a;
    } else {
      assert (a + b)[..|a + b| - 1] == a + b[..|b| - 1];
      RunConcat(s, a, b[..|b| - 1]);
    }
  }

  // ---------------------------------------------------------------- exactly-once writes

  /**
   * Each (user, key) has at most one committed transaction, and a committed key record is
   * `succeeded` and holds the response of the transaction that was committed under it.
   */
  lemma ExactlyOnce(s: State)
    requires Reachable(s)
    ensures s.journal.Keys == s.db.headers.Keys
    ensures forall t, u ::
      (t in s.journal && u in s.journal && s.journal[t].req.key != ""
        && KeyOf(s.journal[t].req) == KeyOf(s.journal[u].req)) ==> t == u
    ensures forall t :: t in s.journal && s.journal[t].req.key != "" ==> KeyOf(s.journal[t].req) in s.db.idem
    ensures forall k :: k in s.db.idem ==>
      && s.db.idem[k].succeeded && s.db.idem[k].response.Some?
      && var d := s.db.idem[k].response.value;
      && d.id in s.db.headers && d == CommittedDto(s.db, d.id)
      && KeyOf(s.journal[d.id].req) == k && PayloadOf(s.journal[d.id].req) == s.db.idem[k].hash
  {
    ReachableInv(s);
    forall t | t in s.journal && s.journal[t].req.key != ""
      ensures KeyOf(s.journal[t].req) in s.db.idem
        && s.db.idem[KeyOf(s.journal[t].req)].response == Some(CommittedDto(s.db, t))
    {
      assert TransactionOk(s.db, s.journal[t], s.db.headers[t]);
    }
    forall k | k in s.db.idem
      ensures s.db.idem[k].succeeded && s.db.idem[k].response.Some?
      ensures var d := s.db.idem[k].response.value;
        && d.id in s.db.headers && d == CommittedDto(s.db, d.id)
        && KeyOf(s.journal[d.id].req) == k && PayloadOf(s.journal[d.id].req) == s.db.idem[k].hash
    {
      assert KeyRowOk(s.db, s.journal, k);
      var t := s.db.idem[k].response.value.id;
      assert TransactionOk(s.db, s.journal[t], s.db.headers[t]);
    }
  }

  /** Over a whole run, all successful replies under one key are the same reply to the same payload. */
  lemma RepliesAgree(s: State, q: Reply, r: Reply)
    requires Reachable(s) && q in s.replies && r in s.replies
    requires q.req.key != "" && KeyOf(q.req) == KeyOf(r.req) && q.outcome.Ok? && r.outcome.Ok?
    ensures PayloadOf(q.req) == PayloadOf(r.req) && q.outcome == r.outcome
    ensures q.outcome.dto.id in s.db.headers && q.outcome.dto == CommittedDto(s.db, q.outcome.dto.id)
  {
    ReachableInv(s);
    assert ReplyOk(s.db, s.sessions, s.nextSid, q) && ReplyOk(s.db, s.sessions, s.nextSid, r);
  }

  /** The in-flight answer is dead code: the claim and its result commit together. */
  lemma NeverInFlight(s: State, r: Reply)
    requires Reachable(s) && r in s.replies
    ensures r.outcome != Err(IdempotencyInFlight)
  {
    ReachableInv(s);
    assert ReplyOk(s.db, s.sessions, s.nextSid, r);
  }

  /**
   * A call that wrote a transaction is told exactly that one, or gets the internal error of a
   * commit whose acknowledgement was lost; it wrote no other.
   */
  lemma WriterRepliesItsTransaction(s: State, r: Reply, t: int)
    requires Reachable(s) && r in s.replies && t in s.journal && s.journal[t].sid == r.sid
    ensures t in s.db.headers && CommitReply(s.db, t, r.outcome)
    ensures forall u :: u in s.journal && s.journal[u].sid == r.sid ==> u == t
  {
    ReachableInv(s);
    assert CallOk(s.db, s.journal[t].sid, t, s.sessions, s.nextSid, s.replies);
  }

  /** A call that returned any other error committed nothing, and neither did one that replayed another's response. */
  lemma OthersWroteNothing(s: State, r: Reply)
    requires Reachable(s) && r in s.replies
    requires match r.outcome
      case Err(e) => e != Internal
      case Ok(d) => d.id in s.journal && s.journal[d.id].sid != r.sid
    ensures forall t :: t in s.journal ==> s.journal[t].sid != r.sid
  {
    ReachableInv(s);
    forall t | t in s.journal && s.journal[t].sid == r.sid ensures false {
      WriterRepliesItsTransaction(s, r, t);
    }
  }

  /** The call `sid` has committed nothing. */
  ghost predicate Unwritten(s: State, sid: nat) { forall t :: t in s.journal ==> s.journal[t].sid != sid }

  /** The call is about to return an error. */
  ghost predicate Failed(s: State, sid: nat) {
    sid in s.sessions && s.sessions[sid].pc.Replying? && s.sessions[sid].pc.outcome.Err?
  }

  /** Open calls that are not replying have committed nothing. */
  lemma OpenUnwritten(s: State, sid: nat)
    requires Inv(s) && sid in s.sessions && !s.sessions[sid].pc.Replying?
    ensures Unwritten(s, sid)
  {
    forall t | t in s.journal ensures s.journal[t].sid != sid {
      assert CallOk(s.db, s.journal[t].sid, t, s.sessions, s.nextSid, s.replies);
    }
  }

  /** As long as no acknowledgement of the call is lost, an error means that it wrote nothing. */
  ghost predicate ErrorsClean(s: State, sid: nat) {
    && (Failed(s, sid) ==> Unwritten(s, sid))
    && (forall r :: r in s.replies && r.sid == sid && r.outcome.Err? ==> Unwritten(s, sid))
  }

  lemma NoReplyYet(s: State, sid: nat)
    requires Inv(s) && sid in s.sessions
    ensures forall r :: r in s.replies ==> r.sid != sid
  {
    forall r | r in s.replies ensures r.sid != sid {
      assert ReplyOk(s.db, s.sessions, s.nextSid, r);
    }
  }

  lemma OwnMoveClean(s: State, l: Label)
    requires Inv(s) && MovesSession(l) && !l.LoseAck? && Step(s, l).Some? && ErrorsClean(s, l.sid)
    ensures ErrorsClean(Step(s, l).value, l.sid)
  {
    MoveShape(s, l);
    NoReplyYet(s, l.sid);
    if !s.sessions[l.sid].pc.Replying? {
      OpenUnwritten(s, l.sid);
      if CommitsNow(s, l) {
        CommitShape(s, l);
      }
    }
  }

  lemma CleanStep(s: State, l: Label, sid: nat)
    requires Inv(s) && Step(s, l).Some? && ErrorsClean(s, sid) && l != LoseAck(sid)
    ensures ErrorsClean(Step(s, l).value, sid)
  {
    if MovesSession(l) && l.sid == sid {
      OwnMoveClean(s, l);
    } else if MovesSession(l) {
      MoveShape(s, l);
      if CommitsNow(s, l) {
        CommitShape(s, l);
      }
    } else if l.Begin? {
      NextSidKeeps(s);
    }
  }

  lemma {:induction false} CleanRun(s: State, ls: seq<Label>, sid: nat)
    requires Inv(s) && ErrorsClean(s, sid) && LoseAck(sid) !in ls
    ensures ErrorsClean(Run(s, ls), sid)
  {
    if ls != [] {
      var n := |ls| - 1;
      CleanRun(s, ls[..n], sid);
      RunKeeps(s, ls[..n]);
      assert ls[n] in ls;
      if Step(Run(s, ls[..n]), ls[n]).Some? {
        CleanStep(Run(s, ls[..n]), ls[n], sid);
      }
    }
  }

  /**
   * Over every run: a call that returned any error, a refused trigger and a failed statement
   * included, wrote nothing, unless the acknowledgement of its own commit was lost.
   */
  lemma ErrorsWroteNothing(clock: int, ls: seq<Label>, r: Reply)
    requires r in Run(Init(clock), ls).replies && r.outcome.Err? && LoseAck(r.sid) !in ls
    ensures Unwritten(Run(Init(clock), ls), r.sid)
  {
    CleanRun(Init(clock), ls, r.sid);
  }

  /** ... so a call that wrote a transaction, and whose commit was acknowledged, is told exactly that one. */
  lemma AcknowledgedWriterIsTold(clock: int, ls: seq<Label>, r: Reply, t: int)
    requires var s := Run(Init(clock), ls); r in s.replies && t in s.journal && s.journal[t].sid == r.sid
    requires LoseAck(r.sid) !in ls
    ensures var s := Run(Init(clock), ls); t in s.db.headers && r.outcome == Ok(CommittedDto(s.db, t))
  {
    var s := Run(Init(clock), ls);
    assert Reachable(s);
    WriterRepliesItsTransaction(s, r, t);
    if r.outcome.Err? {
      ErrorsWroteNothing(clock, ls, r);
    }
  }

  // ---------------------------------------------------------------- retries

  /** What a call under a committed key must return. */
  function Expected(rec: IdemRecord, r: Request): Outcome
    requires rec.response.Some?
  {
    if Precheck(r).Some? then Err(Precheck(r).value)
    else if PayloadOf(r) == rec.hash then Ok(rec.response.value)
    else Err(IdempotencyConflict)
  }

  /** What such a call is told: the expected answer, unless the database fails it. */
  predicate Answered(rec: IdemRecord, r: Request, o: Outcome)
    requires rec.response.Some?
  {
    o == Expected(rec, r) || o == Err(Internal)
  }

  /** The calls whose outcome is already fixed: they are replying, have replied, or have committed. */
  function Decided(s: State): set<nat> {
    (set t | t in s.sessions && s.sessions[t].pc.Replying?) + (set r | r in s.replies :: r.sid)
      + (set t | t in s.journal :: s.journal[t].sid)
  }

  ghost predicate SessionReplays(s: State, k: IdemKey, rec: IdemRecord, t: nat)
    requires rec.response.Some? && t in s.sessions
  {
    var pc := s.sessions[t].pc;
    KeyOf(s.sessions[t].req) == k ==>
      pc.Start? || pc.Existing? || (pc.Replying? && Answered(rec, s.sessions[t].req, pc.outcome))
  }

  /** All calls but those in `done` are bound to the key's record. */
  ghost predicate Replays(s: State, k: IdemKey, rec: IdemRecord, done: set<nat>)
    requires rec.response.Some?
  {
    && k in s.db.idem && s.db.idem[k] == rec && (forall t :: t in done ==> t < s.nextSid)
    && (forall t {:trigger SessionReplays(s, k, rec, t)} :: t in s.sessions && t !in done ==>
          SessionReplays(s, k, rec, t))
    && (forall r :: r in s.replies && r.sid !in done && KeyOf(r.req) == k ==> Answered(rec, r.req, r.outcome))
    && (forall t :: t in s.journal && s.journal[t].sid !in done ==> KeyOf(s.journal[t].req) != k)
  }

  /** Under a committed key, a call goes from the claim to reading the record to its answer. */
  lemma CommittedKeyAnswers(s: State, sid: nat, k: IdemKey)
    requires Inv(s) && k in s.db.idem && sid in s.sessions && KeyOf(s.sessions[sid].req) == k
    requires s.sessions[sid].pc.Start? || s.sessions[sid].pc.Existing?
    requires AdvanceSession(s, sid).Some?
    ensures s.db.idem[k].response.Some? && sid in AdvanceSession(s, sid).value.sessions
    ensures var x' := AdvanceSession(s, sid).value.sessions[sid];
      x'.pc.Existing? || x'.pc == Replying(Expected(s.db.idem[k], x'.req))
  {
    assert SessionOk(s.db, s.ids, s.sessions[sid]);
    assert KeyRowOk(s.db, s.journal, k);
    var t := s.db.idem[k].response.value.id;
    assert TransactionOk(s.db, s.journal[t], s.db.headers[t]);
  }

  /** Nobody commits under a key that is already committed. */
  lemma CommitUnderFreshKey(s: State, sid: nat, k: IdemKey)
    requires Inv(s) && k in s.db.idem && sid in s.sessions && s.sessions[sid].pc.Finish?
    ensures KeyOf(s.sessions[sid].req) != k
  {
    assert SessionOk(s.db, s.ids, s.sessions[sid]);
    assert KeyRowOk(s.db, s.journal, k);
  }

  /** The call `sid`, if it is under the key, is on its way to the expected answer, or was given it. */
  ghost predicate Retries(s: State, sid: nat, k: IdemKey, rec: IdemRecord)
    requires rec.response.Some?
  {
    && k in s.db.idem && s.db.idem[k] == rec
    && (sid in s.sessions && KeyOf(s.sessions[sid].req) == k ==>
          var pc := s.sessions[sid].pc; pc.Start? || pc.Existing? || pc == Replying(Expected(rec, s.sessions[sid].req)))
    && (forall r :: r in s.replies && r.sid == sid && KeyOf(r.req) == k ==> r.outcome == Expected(rec, r.req))
  }

  lemma RetriesMove(s: State, l: Label, sid: nat, k: IdemKey, rec: IdemRecord)
    requires Inv(s) && rec.response.Some? && Retries(s, sid, k, rec) && MovesSession(l) && Step(s, l).Some?
      && l != Fail(sid)
    ensures Retries(Step(s, l).value, sid, k, rec)
  {
    MoveShape(s, l);
    if CommitsNow(s, l) {
      CommitUnderFreshKey(s, l.sid, k);
      CommitShape(s, l);
    } else if l == Advance(sid) && KeyOf(s.sessions[sid].req) == k && !s.sessions[sid].pc.Replying? {
      CommittedKeyAnswers(s, sid, k);
    }
  }

  lemma RetriesStep(s: State, l: Label, sid: nat, k: IdemKey, rec: IdemRecord)
    requires Inv(s) && rec.response.Some? && Retries(s, sid, k, rec) && Step(s, l).Some? && l != Fail(sid)
    ensures Retries(Step(s, l).value, sid, k, rec)
  {
    if MovesSession(l) {
      RetriesMove(s, l, sid, k, rec);
    }
  }

  lemma {:induction false} RetriesRun(s: State, ls: seq<Label>, sid: nat, k: IdemKey, rec: IdemRecord)
    requires Inv(s) && rec.response.Some? && Retries(s, sid, k, rec) && Fail(sid) !in ls
    ensures Retries(Run(s, ls), sid, k, rec)
  {
    if ls != [] {
      var n := |ls| - 1;
      RetriesRun(s, ls[..n], sid, k, rec);
      RunKeeps(s, ls[..n]);
      assert ls[n] in ls;
      if Step(Run(s, ls[..n]), ls[n]).Some? {
        RetriesStep(Run(s, ls[..n]), ls[n], sid, k, rec);
      }
    }
  }

  lemma RetriesFromNow(s: State, k: IdemKey, sid: nat)
    requires Inv(s) && k in s.db.idem && s.db.idem[k].response.Some? && sid !in Decided(s)
    ensures Retries(s, sid, k, s.db.idem[k])
  {
    ReplaysFromNow(s, k);
    if sid in s.sessions {
      assert SessionReplays(s, k, s.db.idem[k], sid);
    }
    forall r | r in s.replies ensures r.sid != sid {
      assert r.sid in Decided(s);
    }
  }

  lemma ReplaysMove(s: State, l: Label, k: IdemKey, rec: IdemRecord, done: set<nat>)
    requires Inv(s) && rec.response.Some? && Replays(s, k, rec, done)
    requires MovesSession(l) && Step(s, l).Some? && !CommitsNow(s, l)
    ensures Replays(Step(s, l).value, k, rec, done)
  {
    var sid := l.sid;
    MoveShape(s, l);
    var x, s' := s.sessions[sid], Step(s, l).value;
    if sid !in done {
      assert SessionReplays(s, k, rec, sid);
      if KeyOf(x.req) == k && l.Advance? && !x.pc.Replying? {
        CommittedKeyAnswers(s, sid, k);
      }
    }
    forall t | t in s'.sessions && t !in done ensures SessionReplays(s', k, rec, t) {
      if t != sid {
        assert SessionReplays(s, k, rec, t);
      }
    }
  }

  /** A commit, acknowledged or not, is under another key. */
  lemma ReplaysCommit(s: State, l: Label, k: IdemKey, rec: IdemRecord, done: set<nat>)
    requires Inv(s) && rec.response.Some? && Replays(s, k, rec, done) && CommitsNow(s, l) && Step(s, l).Some?
    ensures Replays(Step(s, l).value, k, rec, done)
  {
    var s' := Step(s, l).value;
    CommitUnderFreshKey(s, l.sid, k);
    MoveShape(s, l);
    CommitShape(s, l);
    forall t | t in s'.sessions && t !in done ensures SessionReplays(s', k, rec, t) {
      if t != l.sid {
        assert SessionReplays(s, k, rec, t);
      }
    }
  }

  lemma ReplaysStep(s: State, l: Label, k: IdemKey, rec: IdemRecord, done: set<nat>)
    requires Inv(s) && rec.response.Some? && Replays(s, k, rec, done) && Step(s, l).Some?
    ensures Replays(Step(s, l).value, k, rec, done)
  {
    if CommitsNow(s, l) {
      ReplaysCommit(s, l, k, rec, done);
    } else if MovesSession(l) {
      ReplaysMove(s, l, k, rec, done);
    } else {
      var s' := Step(s, l).value;
      forall t | t in s'.sessions && t !in done ensures SessionReplays(s', k, rec, t) {
        if t in s.sessions {
          assert SessionReplays(s, k, rec, t);
        }
      }
    }
  }

  lemma {:induction false} ReplaysRun(s: State, ls: seq<Label>, k: IdemKey, rec: IdemRecord, done: set<nat>)
    requires Inv(s) && rec.response.Some? && Replays(s, k, rec, done)
    ensures Replays(Run(s, ls), k, rec, done)
  {
    if ls != [] {
      var s0 := Run(s, ls[..|ls| - 1]);
      ReplaysRun(s, ls[..|ls| - 1], k, rec, done);
      RunKeeps(s, ls[..|ls| - 1]);
      if Step(s0, ls[|ls| - 1]).Some? {
        ReplaysStep(s0, ls[|ls| - 1], k, rec, done);
      }
    }
  }

  /** Once a key is committed, every undecided call under it, open or yet to come, is bound to its record. */
  lemma ReplaysFromNow(s: State, k: IdemKey)
    requires Inv(s) && k in s.db.idem && s.db.idem[k].response.Some?
    ensures Replays(s, k, s.db.idem[k], Decided(s))
  {
    forall t | t in Decided(s) ensures t < s.nextSid {
      if u :| u in s.journal && s.journal[u].sid == t {
        assert CallOk(s.db, s.journal[u].sid, u, s.sessions, s.nextSid, s.replies);
      } else if r :| r in s.replies && r.sid == t {
        assert ReplyOk(s.db, s.sessions, s.nextSid, r);
      }
    }
    forall t | t in s.sessions && t !in Decided(s) ensures SessionReplays(s, k, s.db.idem[k], t) {
      assert SessionOk(s.db, s.ids, s.sessions[t]);
      assert KeyRowOk(s.db, s.journal, k);
    }
  }

  /**
   * Once a key is committed, whatever runs next: the record never changes; every call under
   * that key whose outcome was still open then, or that begins later, and that gets an answer
   * gets the stored response for the same payload and a conflict for another one (a reverse
   * under a create's key included), unless one of its own statements fails; and it writes
   * nothing.
   */
  lemma LaterCallsReplay(s: State, ls: seq<Label>, k: IdemKey, r: Reply)
    requires Reachable(s) && k in s.db.idem
    requires r in Run(s, ls).replies && r.sid !in Decided(s) && KeyOf(r.req) == k
    ensures s.db.idem[k].response.Some? && Answered(s.db.idem[k], r.req, r.outcome)
    ensures Fail(r.sid) !in ls ==> r.outcome == Expected(s.db.idem[k], r.req)
    ensures k in Run(s, ls).db.idem && Run(s, ls).db.idem[k] == s.db.idem[k]
    ensures forall t :: t in Run(s, ls).journal ==> Run(s, ls).journal[t].sid != r.sid
  {
    ReachableInv(s);
    ExactlyOnce(s);
    ReplaysFromNow(s, k);
    ReplaysRun(s, ls, k, s.db.idem[k], Decided(s));
    if Fail(r.sid) !in ls {
      RetriesFromNow(s, k, r.sid);
      RetriesRun(s, ls, r.sid, k, s.db.idem[k]);
    }
    var s' := Run(s, ls);
    forall t | t in s'.journal && s'.journal[t].sid == r.sid ensures false {
      JournalRequest(s, ls, r, t);
    }
  }

  /** The request in the journal is the request of the call that replied. */
  ghost predicate SameRequests(s: State)
  {
    && (forall t :: t in s.journal && s.journal[t].sid in s.sessions ==>
          s.sessions[s.journal[t].sid].req == s.journal[t].req)
    && (forall t, r :: t in s.journal && r in s.replies && r.sid == s.journal[t].sid ==> r.req == s.journal[t].req)
  }

  lemma SameRequestsMove(s: State, l: Label)
    requires Inv(s) && SameRequests(s) && MovesSession(l) && Step(s, l).Some?
    ensures SameRequests(Step(s, l).value)
  {
    MoveShape(s, l);
    forall r | r in s.replies ensures r.sid != l.sid {
      assert ReplyOk(s.db, s.sessions, s.nextSid, r);
    }
    if CommitsNow(s, l) {
      CommitShape(s, l);
    }
  }

  lemma SameRequestsStep(s: State, l: Label)
    requires Inv(s) && SameRequests(s) && Step(s, l).Some?
    ensures SameRequests(Step(s, l).value)
  {
    if l.Begin? {
      NextSidKeeps(s);
    } else if MovesSession(l) {
      SameRequestsMove(s, l);
    }
  }

  lemma {:induction false} SameRequestsRun(s: State, ls: seq<Label>)
    requires Inv(s) && SameRequests(s)
    ensures SameRequests(Run(s, ls))
  {
    if ls != [] {
      var s0 := Run(s, ls[..|ls| - 1]);
      SameRequestsRun(s, ls[..|ls| - 1]);
      RunKeeps(s, ls[..|ls| - 1]);
      if Step(s0, ls[|ls| - 1]).Some? {
        SameRequestsStep(s0, ls[|ls| - 1]);
      }
    }
  }

  lemma JournalRequest(s: State, ls: seq<Label>, r: Reply, t: int)
    requires Reachable(s) && r in Run(s, ls).replies
    requires t in Run(s, ls).journal && Run(s, ls).journal[t].sid == r.sid
    ensures Run(s, ls).journal[t].req == r.req
  {
    var clock: int, before: seq<Label> :| s == Run(Init(clock), before);
    RunConcat(Init(clock), before, ls);
    SameRequestsRun(Init(clock), before + ls);
  }
}
