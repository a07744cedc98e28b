/**
 * The service as code: a call issues its statements one at a time while other clients run in
 * between. `Verdict` says what a call that runs alone returns.
 */
module TransactionService {
  import opened Finite
  import opened Int64
  import opened Postings
  import opened Ledger
  import opened LedgerInvariant
  import opened LedgerSteps
  import opened LedgerCommit
  import opened LedgerTheorems
  import LR = LedgerReplies

  // ---------------------------------------------------------------- leg validation

  function ExactSum(legs: seq<Leg>): int {
    if legs == [] then 0 else ExactSum(legs[..|legs| - 1]) + legs[|legs| - 1].amount
  }

  /** The wrapping running sum is zero exactly when 2^64 divides the true sum. */
  lemma {:induction false} WrapSumExact(legs: seq<Leg>)
    ensures WrapSum(legs) == Wrap(ExactSum(legs))
    ensures WrapSum(legs) == 0 <==> ExactSum(legs) % TWO_64 == 0
  {
    if legs != [] {
      WrapSumExact(legs[..|legs| - 1]);
      WrapAdd(ExactSum(legs[..|legs| - 1]), legs[|legs| - 1].amount);
    }
  }

  /** `validateLegs`: reject a zero leg, and a sum that is not zero unless there is an external leg. */
  method ValidateLegs(legs: seq<Leg>, useExternal: bool) returns (err: Option<Error>)
    ensures err == Some(ZeroAmount) <==> exists i :: 0 <= i < |legs| && legs[i].amount == 0
    ensures err == Some(Unbalanced) <==>
      !useExternal && ExactSum(legs) % TWO_64 != 0 && forall i :: 0 <= i < |legs| ==> legs[i].amount != 0
    ensures err == LegsError(legs, useExternal)
  {
    var sum: I64 := 0;
    for i := 0 to |legs|
      invariant forall j :: 0 <= j < i ==> legs[j].amount != 0
      invariant sum == WrapSum(legs[..i])
    {
      if legs[i].amount == 0 {
        return Some(ZeroAmount);
      }
      assert legs[..i + 1][..i] == legs[..i];
      sum := Wrap(sum + legs[i].amount);
    }
    assert legs[..|legs|] == legs;
    WrapSumExact(legs);
    if !useExternal && sum != 0 {
      return Some(Unbalanced);
    }
    return None;
  }

  // ---------------------------------------------------------------- what a call alone returns

  function LegError(acc: Option<Account>, user: int, currency: string): Option<Error> {
    match acc
    case None => Some(AccountNotFound)
    case Some(a) =>
      if a.user != user then Some(Forbidden)
      else if !a.active then Some(AccountInactive)
      else if !a.external && a.currency != currency then Some(CurrencyMismatch)
      else None
  }

  function Lookup(db: Tables, a: int): Option<Account> {
    if a in db.accounts then Some(db.accounts[a]) else None
  }

  function First(a: Option<Error>, b: Option<Error>): Option<Error> {
    if a.Some? then a else b
  }

  /** The outcome once the idempotency key is out of the way. */
  function WriteVerdict(db: Tables, ids: Ids, r: Request): Option<Error> {
    match r
    case CreateReq(user, _, account, amount, currency, _, _) =>
      // the request may name the id of the external account that is about to be created
      var own := if user !in db.externals && account == ids.account then None
        else LegError(Lookup(db, account), user, currency);
      var ext := if user in db.externals then LegError(Lookup(db, db.externals[user]), user, currency) else None;
      First(own, First(ext, if amount == -TWO_63 then Some(Internal) else None))
    case TransferReq(user, _, from, to, _, currency, _, _) =>
      First(LegError(Lookup(db, from), user, currency), LegError(Lookup(db, to), user, currency))
    case ReverseReq(user, _, txId) =>
      if txId !in db.headers || db.headers[txId].user != user then Some(TxNotFound)
      else if db.headers[txId].reversalOf.Some? then Some(IsReversal)
      else if txId in db.reversedBy then Some(AlreadyReversed)
      else None
  }

  /** The error of a call that runs with no other open session; `None` is success. */
  function Verdict(db: Tables, ids: Ids, r: Request): Option<Error> {
    if Precheck(r).Some? then Precheck(r)
    else if r.key != "" && KeyOf(r) in db.idem then
      if db.idem[KeyOf(r)].hash == PayloadOf(r) then None else Some(IdempotencyConflict)
    else WriteVerdict(db, ids, r)
  }

  function SumVerdict(x: Session): Option<Error> {
    if |x.legs| == 2 && x.legs[0].amount + x.legs[1].amount == 0 then None else Some(Internal)
  }

  function CheckVerdict(db: Tables, x: Session, i: nat): Option<Error>
    requires !x.req.ReverseReq?
    decreases |x.legs| - i
  {
    if i >= |x.legs| then SumVerdict(x)
    else First(LegError(VisibleAccount(db, x, x.legs[i].account), x.req.user, x.req.currency),
      CheckVerdict(db, x, i + 1))
  }

  /** The outcome that a session alone is heading for. */
  function Fate(s: State, x: Session): Option<Error> {
    match x.pc
    case Start => Verdict(s.db, s.ids, x.req)
    case Existing =>
      if KeyOf(x.req) in s.db.idem && s.db.idem[KeyOf(x.req)].hash == PayloadOf(x.req) then None
        else Some(IdempotencyConflict)
    case Claimed => WriteVerdict(s.db, s.ids, x.req)
    case NoExternal => if x.req.user in s.db.externals then Some(Internal) else WriteVerdict(s.db, s.ids, x.req)
    case Check(i) => if x.req.ReverseReq? then None else CheckVerdict(s.db, x, i)
    case ListOrig(o) => if o.id in s.db.reversedBy then Some(AlreadyReversed) else None
    case Insert(o) => if o.Some? && o.value.id in s.db.reversedBy then Some(AlreadyReversed) else SumVerdict(x)
    case Replying(o) => if o.Err? then Some(o.error) else None
    case _ => SumVerdict(x)
  }

  ghost predicate Alone(s: State, sid: nat) {
    Inv(s) && sid in s.sessions && forall t :: t in s.sessions ==> t == sid
  }

  /** A new external account is always fit for its own leg. */
  lemma CreateChecks(s: State, x: Session, y: Session, ext: int)
    requires Inv(s) && x.req.CreateReq? && Precheck(x.req).None? && y.req == x.req
      && y.legs == WithExternalLeg(x.req, ext)
    requires if x.req.user in s.db.externals
      then y.newAccount.None? && ext == s.db.externals[x.req.user]
      else ext == s.ids.account &&
           y.newAccount == Some(NewAccount(ext, Account(x.req.user, x.req.currency, true, true)))
    ensures CheckVerdict(s.db, y, 0) == WriteVerdict(s.db, s.ids, x.req)
  {
    var e := ExplicitLegs(x.req);
    assert e[..0] == [] && WrapSum(e) == x.req.amount;
    assert y.legs == [Leg(x.req.account, x.req.amount), Leg(ext, Negate(x.req.amount))];
    assert CheckVerdict(s.db, y, 2) == SumVerdict(y);
    assert CheckVerdict(s.db, y, 1) == First(LegError(VisibleAccount(s.db, y, ext), x.req.user, x.req.currency),
      SumVerdict(y));
  }

  lemma TransferChecks(s: State, x: Session, y: Session)
    requires x.req.TransferReq? && Precheck(x.req).None? && y.req == x.req && y.legs == ExplicitLegs(x.req)
      && y.newAccount.None?
    ensures CheckVerdict(s.db, y, 0) == WriteVerdict(s.db, s.ids, x.req)
  {
    assert y.legs[0].amount == 0 - y.legs[1].amount;
    assert CheckVerdict(s.db, y, 2) == SumVerdict(y) == None;
    assert CheckVerdict(s.db, y, 1) == LegError(Lookup(s.db, x.req.to), x.req.user, x.req.currency);
  }

  lemma ReversalSums(s: State, x: Session, o: Header)
    requires Inv(s) && OrigOk(s.db, x, o) && x.legs == NegatedLegs(PostingsOf(s.db.postings, o.id))
    ensures SumVerdict(x) == None && PostingsOf(s.db.postings, o.id) != []
    ensures x.legs[0].amount != 0 && x.legs[1].amount != 0
    ensures forall l :: l in x.legs ==> l.account in s.db.accounts
  {
    assert TransactionOk(s.db, s.journal[o.id], s.db.headers[o.id]);
    var ps := PostingsOf(s.db.postings, o.id);
    assert ps[0] in s.db.postings && ps[1] in s.db.postings;
    assert PostingOk(s.db, ps[0]) && PostingOk(s.db, ps[1]);
  }

  /** The next statement of `sid` is not blocked and leads to the same outcome. */
  ghost predicate Keeps(s: State, sid: nat)
    requires sid in s.sessions
  {
    AdvanceSession(s, sid).Some? && sid in AdvanceSession(s, sid).value.sessions &&
    Fate(AdvanceSession(s, sid).value, AdvanceSession(s, sid).value.sessions[sid]) == Fate(s, s.sessions[sid])
  }

  lemma FateOfResolve(s: State, sid: nat)
    requires Alone(s, sid) && s.sessions[sid].pc.Claimed? && SessionOk(s.db, s.ids, s.sessions[sid])
    ensures Keeps(s, sid)
  {
    var x := s.sessions[sid];
    match x.req
    case CreateReq(user, _, _, _, _, _, _) =>
      if user in s.db.externals {
        CreateChecks(s, x, x.(pc := Check(0), legs := WithExternalLeg(x.req, s.db.externals[user])),
          s.db.externals[user]);
      }
    case TransferReq(_, _, _, _, _, _, _, _) =>
      TransferChecks(s, x, x.(pc := Check(0), legs := ExplicitLegs(x.req)));
    case ReverseReq(_, _, _) =>
  }

  lemma FateBeforeWrite(s: State, sid: nat)
    requires Alone(s, sid)
    requires var pc := s.sessions[sid].pc; pc.Start? || pc.Existing? || pc.Claimed? || pc.NoExternal?
    ensures Keeps(s, sid)
  {
    var x := s.sessions[sid];
    assert SessionOk(s.db, s.ids, x);
    match x.pc
    case Start =>
    case Existing =>
      assert KeyRowOk(s.db, s.journal, KeyOf(x.req));
      var t := s.db.idem[KeyOf(x.req)].response.value.id;
      assert TransactionOk(s.db, s.journal[t], s.db.headers[t]);
    case Claimed => FateOfResolve(s, sid);
    case NoExternal =>
      if x.req.user !in s.db.externals {
        var acc := NewAccount(s.ids.account, Account(x.req.user, x.req.currency, true, true));
        CreateChecks(s, x, x.(pc := Check(0), legs := WithExternalLeg(x.req, s.ids.account), newAccount :=
          Some(acc)), s.ids.account);
      }
  }

  lemma {:induction false} CheckVerdictCopy(db: Tables, x: Session, y: Session, i: nat)
    requires !x.req.ReverseReq? && y.req == x.req && y.legs == x.legs && y.newAccount == x.newAccount
    ensures CheckVerdict(db, y, i) == CheckVerdict(db, x, i)
    decreases |x.legs| - i
  {
    if i < |x.legs| {
      CheckVerdictCopy(db, x, y, i + 1);
    }
  }

  lemma FateOfChecks(s: State, sid: nat)
    requires sid in s.sessions && s.sessions[sid].pc.Check? && !s.sessions[sid].req.ReverseReq?
    ensures Keeps(s, sid)
  {
    var x := s.sessions[sid];
    CheckVerdictCopy(s.db, x, x.(pc := Check(x.pc.i + 1)), x.pc.i + 1);
  }

  lemma FateOfReversal(s: State, sid: nat)
    requires Alone(s, sid) && s.sessions[sid].pc.ListOrig?
    ensures Keeps(s, sid)
  {
    var x := s.sessions[sid];
    assert SessionOk(s.db, s.ids, x);
    var o := x.pc.orig;
    ReversalSums(s, x.(legs := NegatedLegs(PostingsOf(s.db.postings, o.id))), o);
  }

  /** Once the legs are ready there are two of them, non-zero, on existing accounts. */
  lemma ReadyLegs(s: State, x: Session, o: Option<Header>)
    requires Inv(s) && Ready(s.db, x, o) && Precheck(x.req).None?
    ensures |x.legs| == 2
    ensures forall l :: l in x.legs ==> l.amount != 0 && VisibleAccount(s.db, x, l.account).Some?
  {
    if o.Some? {
      ReversalSums(s, x, o.value);
    } else {
      forall l | l in x.legs ensures VisibleAccount(s.db, x, l.account).Some? {
        assert LegFits(s.db, x, l, x.req.currency);
      }
      CheckedLegs(s.db, x);
    }
  }

  lemma CheckedLegs(db: Tables, x: Session)
    requires LegsOk(db, x) && Precheck(x.req).None?
    ensures |x.legs| == 2 && x.legs[0].amount != 0 && x.legs[1].amount != 0
  {
    if x.req.CreateReq? {
      var e := ExplicitLegs(x.req);
      assert e[..0] == [] && WrapSum(e) == x.req.amount;
    }
  }

  lemma FateOfWrites(s: State, sid: nat)
    requires sid in s.sessions && forall t :: t in s.sessions ==> t == sid
    requires var x := s.sessions[sid];
      match x.pc
      case Insert(o) => o.None? ==> !x.req.ReverseReq?
      case Post(_, i) => forall l :: l in x.legs ==> l.amount != 0 && VisibleAccount(s.db, x, l.account).Some?
      case Emit(_) => true
      case Mark(_, _, _) => true
      case _ => false
    ensures Keeps(s, sid)
  {
  }

  lemma StagedTotal(x: Session, h: Header)
    requires PostingsMatch(x, h) && |x.postings| == |x.legs| == 2
    ensures Sum(x.postings, OfTx(h.id)) == x.legs[0].amount + x.legs[1].amount
  {
    assert x.postings[1..][1..] == [];
    assert x.postings[0].txId == h.id && x.postings[1].txId == h.id;
    assert Sum(x.postings[1..], OfTx(h.id)) == x.postings[1].amount;
  }

  lemma FateOfCommit(s: State, sid: nat)
    requires sid in s.sessions && s.sessions[sid].pc.Finish?
    requires var x := s.sessions[sid]; var h := x.pc.header;
      PostingsOk(s.db) && h.id !in s.db.headers && PostingsMatch(x, h) && |x.postings| == |x.legs| == 2
    ensures Keeps(s, sid)
  {
    var x := s.sessions[sid];
    StagedPostings(s.db, x, x.pc.header, x.pc.header.id);
    StagedTotal(x, x.pc.header);
  }

  lemma FateOfPosting(s: State, sid: nat)
    requires Alone(s, sid) && SessionOk(s.db, s.ids, s.sessions[sid]) && s.sessions[sid].pc.Post?
    ensures Keeps(s, sid)
  {
    ReadyLegs(s, s.sessions[sid], OrigOf(s.db, s.sessions[sid].pc.header));
    FateOfWrites(s, sid);
  }

  lemma FateOfFinish(s: State, sid: nat)
    requires Alone(s, sid) && SessionOk(s.db, s.ids, s.sessions[sid]) && s.sessions[sid].pc.Finish?
    ensures Keeps(s, sid)
  {
    ReadyLegs(s, s.sessions[sid], OrigOf(s.db, s.sessions[sid].pc.header));
    FateOfCommit(s, sid);
  }

  lemma FateOfSession(s: State, sid: nat)
    requires Alone(s, sid) && !s.sessions[sid].pc.Replying?
    ensures Keeps(s, sid)
  {
    var pc := s.sessions[sid].pc;
    assert SessionOk(s.db, s.ids, s.sessions[sid]);
    if pc.Start? || pc.Existing? || pc.Claimed? || pc.NoExternal? {
      FateBeforeWrite(s, sid);
    } else if pc.Check? {
      FateOfChecks(s, sid);
    } else if pc.ListOrig? {
      FateOfReversal(s, sid);
    } else if pc.Post? {
      FateOfPosting(s, sid);
    } else if pc.Finish? {
      FateOfFinish(s, sid);
    } else {
      FateOfWrites(s, sid);
    }
  }

  /** A session alone is never blocked, and each statement keeps the outcome it is heading for. */
  lemma FateKept(s: State, sid: nat)
    requires Alone(s, sid) && !s.sessions[sid].pc.Replying?
    ensures Keeps(s, sid) && Alone(AdvanceSession(s, sid).value, sid)
  {
    FateOfSession(s, sid);
    AdvanceKeeps(s, sid);
    AdvanceShape(s, sid);
  }

  // ---------------------------------------------------------------- termination of a call

  function Phase(x: Session): nat {
    match x.pc
    case Start => 10
    case Claimed => 9
    case NoExternal => 8
    case ListOrig(_) => 8
    case Check(_) => 7
    case Insert(_) => 6
    case Post(_, _) => 5
    case Emit(_) => 4
    case Mark(_, _, _) => 3
    case Finish(_, _, _) => 2
    case Existing => 1
    case Replying(_) => 0
  }

  function Left(x: Session): nat {
    match x.pc
    case Check(i) => if i <= |x.legs| then |x.legs| - i else 0
    case Post(_, i) => if i <= |x.legs| then |x.legs| - i else 0
    case _ => 0
  }

  predicate Progress(x: Session, y: Session) { Phase(y) < Phase(x) || (Phase(y) == Phase(x) && Left(y) < Left(x)) }

  predicate Writes(pc: Pc) { pc.Insert? || pc.Post? || pc.Emit? || pc.Mark? || pc.Finish? }

  lemma WriteProgress(s: State, sid: nat)
    requires sid in s.sessions && Writes(s.sessions[sid].pc) && AdvanceSession(s, sid).Some?
    ensures sid in AdvanceSession(s, sid).value.sessions
      && Progress(s.sessions[sid], AdvanceSession(s, sid).value.sessions[sid])
  {
  }

  lemma CheckProgress(s: State, sid: nat)
    requires sid in s.sessions && !Writes(s.sessions[sid].pc) && !s.sessions[sid].pc.Replying?
      && AdvanceSession(s, sid).Some?
    ensures sid in AdvanceSession(s, sid).value.sessions
      && Progress(s.sessions[sid], AdvanceSession(s, sid).value.sessions[sid])
  {
  }

  lemma StatementProgress(s: State, sid: nat)
    requires sid in s.sessions && !s.sessions[sid].pc.Replying? && AdvanceSession(s, sid).Some?
    ensures sid in AdvanceSession(s, sid).value.sessions
      && Progress(s.sessions[sid], AdvanceSession(s, sid).value.sessions[sid])
  {
    if Writes(s.sessions[sid].pc) {
      WriteProgress(s, sid);
    } else {
      CheckProgress(s, sid);
    }
  }

  // ---------------------------------------------------------------- no deadlock

  /** A statement waits only for a session that is further on. */
  lemma WaitsForLaterPhase(s: State, sid: nat) returns (t: nat)
    requires Inv(s) && sid in s.sessions && AdvanceSession(s, sid).None?
    ensures t in s.sessions && Phase(s.sessions[t]) < Phase(s.sessions[sid])
  {
    var x := s.sessions[sid];
    assert SessionOk(s.db, s.ids, x);
    match x.pc {
      case Start =>
        t :| t in s.sessions && t != sid && s.sessions[t].claim.Some? && KeyOf(s.sessions[t].req) == KeyOf(x.req);
      case NoExternal =>
        t :| t in s.sessions && t != sid && s.sessions[t].newAccount.Some?
          && s.sessions[t].newAccount.value.account.user == x.req.user;
      case Insert(o) =>
        t :| t in s.sessions && t != sid && StagedHeader(s.sessions[t]).Some?
          && StagedHeader(s.sessions[t]).value.reversalOf == Some(o.value.id);
    }
    assert SessionOk(s.db, s.ids, s.sessions[t]);
  }

  lemma {:induction false} SomeoneRunsFrom(s: State, sid: nat) returns (t: nat)
    requires Inv(s) && sid in s.sessions
    ensures t in s.sessions && AdvanceSession(s, t).Some?
    decreases Phase(s.sessions[sid])
  {
    if AdvanceSession(s, sid).Some? {
      t := sid;
    } else {
      var u := WaitsForLaterPhase(s, sid);
      t := SomeoneRunsFrom(s, u);
    }
  }

  /** No deadlock: in every reachable state with an open session some session's next statement can run. */
  lemma NoDeadlock(s: State)
    requires Reachable(s) && s.sessions != map[]
    ensures exists t :: t in s.sessions && Step(s, Advance(t)).Some?
  {
    ReachableInv(s);
    assert s.sessions.Keys != {};
    var sid := Pick(s.sessions.Keys);
    var t := SomeoneRunsFrom(s, sid);
    assert Step(s, Advance(t)).Some?;
  }

  // ---------------------------------------------------------------- the service

  predicate Mine(l: Label, sid: nat) { (MovesSession(l) || l.Abort?) && l.sid == sid }

  lemma OthersLeaveAlone(s: State, l: Label, sid: nat)
    requires sid in s.sessions && sid < s.nextSid && !Mine(l, sid) && Step(s, l).Some?
    ensures sid in Step(s, l).value.sessions && Step(s, l).value.sessions[sid] == s.sessions[sid]
    ensures sid < Step(s, l).value.nextSid
  {
    if MovesSession(l) {
      MoveShape(s, l);
    }
  }

  /** A statement that ends in an error has written nothing, unless only its acknowledgement was lost. */
  lemma FailedUnwritten(s: State, l: Label)
    requires Reachable(s) && (l.Advance? || l.Fail?) && Step(s, l).Some? && !s.sessions[l.sid].pc.Replying?
    ensures Failed(Step(s, l).value, l.sid) ==> Unwritten(Step(s, l).value, l.sid)
  {
    NotYetWritten(s, l.sid);
    MoveShape(s, l);
    if CommitsNow(s, l) {
      CommitShape(s, l);
    }
  }

  /** With a record, the call is a retry on its way to the expected answer. */
  ghost predicate Bound(s: State, sid: nat, k: IdemKey, rec: Option<IdemRecord>) {
    rec.Some? ==> rec.value.response.Some? && Retries(s, sid, k, rec.value)
  }

  lemma BoundStep(s: State, l: Label, sid: nat, k: IdemKey, rec: Option<IdemRecord>)
    requires Reachable(s) && Bound(s, sid, k, rec) && Step(s, l).Some? && l != Fail(sid)
    ensures Bound(Step(s, l).value, sid, k, rec)
  {
    ReachableInv(s);
    if rec.Some? {
      RetriesStep(s, l, sid, k, rec.value);
    }
  }

  /** Nobody holds a committed key, so a retry never waits. */
  lemma RetryNeverWaits(s: State, sid: nat, k: IdemKey)
    requires Reachable(s) && k in s.db.idem && sid in s.sessions && KeyOf(s.sessions[sid].req) == k
    requires s.sessions[sid].pc.Start? || s.sessions[sid].pc.Existing?
    ensures AdvanceSession(s, sid).Some?
  {
    ReachableInv(s);
    if ClaimHeld(s, sid, k) {
      var t :| t in s.sessions && t != sid && s.sessions[t].claim.Some? && KeyOf(s.sessions[t].req) == k;
      assert SessionOk(s.db, s.ids, s.sessions[t]);
    }
  }

  /** What may go wrong at a statement: it fails, or (a COMMIT) it succeeds and its acknowledgement is lost. */
  datatype Fault = NoFault | StatementFails | AckLost

  /** The step that a statement under a fault is. */
  function StepOf(s: State, sid: nat, fault: Fault): Label
    requires sid in s.sessions
  {
    if fault == NoFault then Advance(sid)
    else if fault == AckLost && s.sessions[sid].pc.Finish? then LoseAck(sid)
    else Fail(sid)
  }

  class TransactionService {
    /** The database and everyone connected to it. */
    var st: State
    const started: int
    /** Every step taken since the empty ledger. */
    ghost var trace: seq<Label>

    ghost predicate Valid()
      reads this
    {
      st == Run(Init(started), trace)
    }

    constructor (clock: int)
      ensures Valid() && st == Init(clock)
    {
      started := clock;
      st := Init(clock);
      trace := [];
    }

    method Do(l: Label)
      requires Valid()
      modifies this
      ensures Valid() && trace == old(trace) + [l]
      ensures st == match Step(old(st), l) case None => old(st) case Some(s') => s'
    {
      var next := Step(st, l);
      if next.Some? {
        st := next.value;
      }
      trace := trace + [l];
      assert trace[..|trace| - 1] == old(trace);
    }

    /** Other clients run; whatever they do, session `sid` is as it was. */
    method Yield(sid: nat, ls: seq<Label>, ghost k: IdemKey, ghost rec: Option<IdemRecord>)
      requires Valid() && sid in st.sessions && sid < st.nextSid && Bound(st, sid, k, rec)
      modifies this
      ensures Valid() && old(trace) <= trace && sid in st.sessions && sid < st.nextSid
      ensures st.sessions[sid] == old(st.sessions[sid])
      ensures ls == [] ==> st == old(st)
      ensures Bound(st, sid, k, rec)
    {
      for i := 0 to |ls|
        invariant Valid() && old(trace) <= trace && sid in st.sessions && sid < st.nextSid
        invariant st.sessions[sid] == old(st.sessions[sid])
        invariant i == 0 ==> st == old(st)
        invariant Bound(st, sid, k, rec)
      {
        if !Mine(ls[i], sid) {
          if Step(st, ls[i]).Some? {
            OthersLeaveAlone(st, ls[i], sid);
            Reached();
            BoundStep(st, ls[i], sid, k, rec);
          }
          Do(ls[i]);
        }
      }
    }

    /** Let the others run, then issue the next statement of `sid` unless it has to wait. */
    method Statement(sid: nat, ls: seq<Label>, fault: Fault, ghost rec: Option<IdemRecord>) returns (waiting: bool)
      requires Valid() && sid in st.sessions && sid < st.nextSid && !st.sessions[sid].pc.Replying?
      requires Bound(st, sid, KeyOf(st.sessions[sid].req), rec) && (rec.Some? ==> fault == NoFault)
      modifies this
      ensures Bound(st, sid, KeyOf(old(st.sessions[sid].req)), rec) && (rec.Some? ==> !waiting)
      ensures Valid() && old(trace) <= trace && sid in st.sessions && sid < st.nextSid
      ensures st.sessions[sid].req == old(st.sessions[sid].req)
      ensures waiting ==> fault == NoFault && st.sessions[sid] == old(st.sessions[sid])
      ensures !waiting ==> Progress(old(st.sessions[sid]), st.sessions[sid])
      ensures Failed(st, sid) && fault != AckLost ==> Unwritten(st, sid)
      ensures old(Only(st, sid)) && ls == [] && fault == NoFault ==>
        !waiting && Only(st, sid) && Fate(st, st.sessions[sid]) == old(Fate(st, st.sessions[sid]))
    {
      ghost var k := KeyOf(st.sessions[sid].req);
      Yield(sid, ls, k, rec);
      if Only(st, sid) {
        Reached();
        SoloStatement(st, sid);
      }
      var l := StepOf(st, sid, fault);
      Reached();
      StatementBound(st, sid, fault, k, rec);
      waiting := Step(st, l).None?;
      if !waiting {
        StatementMoves(st, sid, fault);
        if fault != AckLost {
          FailedUnwritten(st, l);
        }
        Do(l);
      }
    }

    /**
     * One call of Create, Transfer or Reverse. `others[n]` is what the other clients do before
     * the n-th statement, and `faults[n]` what goes wrong at it. A statement that has to wait
     * lets the others run on; when nothing is left to wait for, the call gives up (its context
     * ends) and is rolled back.
     *
     * A success is the committed transaction that the request asks for, stored under the key for
     * replay; without a key it is a new one, written by this very call. After an error
     * this call has written nothing, unless it is the internal error of a lost acknowledgement.
     * A retry, whose key is committed before the call, returns the stored response or a
     * conflict, whatever the others do, if none of its statements fails. A call that runs alone
     * and without faults returns exactly its verdict.
     */
    method Call(req: Request, others: seq<seq<Label>>, faults: seq<Fault>) returns (r: Outcome)
      requires Valid()
      modifies this
      ensures Valid() && old(trace) <= trace
      ensures r.Ok? ==> r.dto.id in st.db.headers && r.dto == CommittedDto(st.db, r.dto.id)
      ensures r.Ok? && req.key != "" ==>
        KeyOf(req) in st.db.idem && st.db.idem[KeyOf(req)] == IdemRecord(PayloadOf(req), true, Some(r.dto))
      ensures r.Err? && (AckLost !in faults || r.error != Internal) ==> Unwritten(st, old(st.nextSid))
      ensures Told(st, old(st.nextSid), req, r)
      ensures r.Ok? && req.key == "" ==> r.dto.id !in old(st.db.headers)
      ensures old(KeyOf(req) in st.db.idem) && faults == [] ==>
        old(st.db.idem[KeyOf(req)]).response.Some? && r == Expected(old(st.db.idem[KeyOf(req)]), req)
      ensures old(st.sessions) == map[] && others == [] && faults == [] ==>
        (r.Ok? <==> old(Verdict(st.db, st.ids, req)).None?)
      ensures old(st.sessions) == map[] && others == [] && faults == [] && r.Err? ==>
        old(Verdict(st.db, st.ids, req)) == Some(r.error)
    {
      var sid := st.nextSid;
      ghost var verdict := Verdict(st.db, st.ids, req);
      ghost var solo := st.sessions == map[] && others == [] && faults == [];
      ghost var rec := if KeyOf(req) in st.db.idem && faults == [] then Some(st.db.idem[KeyOf(req)]) else None;
      var refused := Open(req, rec);
      if refused.Some? {
        return Err(refused.value);
      }
      r := Statements(sid, others, faults, verdict, solo, rec);
      if r.Ok? && req.key == "" {
        ToldNew(started, old(trace), trace, req, r);
      }
    }

    /** The checks before the DB transaction, and its BEGIN. */
    method Open(req: Request, ghost rec: Option<IdemRecord>) returns (refused: Option<Error>)
      requires Valid() && (rec.Some? ==> KeyOf(req) in st.db.idem && rec.value == st.db.idem[KeyOf(req)])
      modifies this
      ensures Valid() && old(trace) <= trace && refused == Precheck(req)
      ensures Unwritten(st, old(st.nextSid)) && Bound(st, old(st.nextSid), KeyOf(req), rec)
      ensures refused.None? ==>
        && old(st.nextSid) in st.sessions && old(st.nextSid) < st.nextSid
        && st.sessions[old(st.nextSid)].req == req && st.sessions[old(st.nextSid)].pc.Start?
        && Fate(st, st.sessions[old(st.nextSid)]) == old(Verdict(st.db, st.ids, req))
        && (old(st.sessions) == map[] ==> Only(st, old(st.nextSid)))
    {
      Reached();
      CallBegins(st, req, rec);
      Do(Begin(req));
      refused := Precheck(req);
    }

    /** A statement that is not waited for: with `giveUp` the call fails rather than wait. */
    method Attempt(sid: nat, ls: seq<Label>, fault: Fault, giveUp: bool, ghost rec: Option<IdemRecord>)
      returns (waiting: bool)
      requires Valid() && sid in st.sessions && sid < st.nextSid && !st.sessions[sid].pc.Replying?
      requires Bound(st, sid, KeyOf(st.sessions[sid].req), rec) && (rec.Some? ==> fault == NoFault)
      modifies this
      ensures Valid() && old(trace) <= trace && sid in st.sessions && sid < st.nextSid
      ensures st.sessions[sid].req == old(st.sessions[sid].req) && Bound(st, sid, KeyOf(st.sessions[sid].req), rec)
      ensures waiting ==> !giveUp && st.sessions[sid] == old(st.sessions[sid])
      ensures !waiting ==> Progress(old(st.sessions[sid]), st.sessions[sid])
      ensures Failed(st, sid) && fault != AckLost ==> Unwritten(st, sid)
      ensures old(Only(st, sid)) && ls == [] && fault == NoFault ==>
        Only(st, sid) && Fate(st, st.sessions[sid]) == old(Fate(st, st.sessions[sid]))
    {
      waiting := Statement(sid, ls, fault, rec);
      if waiting && giveUp {
        waiting := Statement(sid, [], StatementFails, None);
      }
    }

    /** The statements of an open call, and its answer. */
    method Statements(sid: nat, others: seq<seq<Label>>, faults: seq<Fault>,
                      ghost verdict: Option<Error>, ghost solo: bool, ghost rec: Option<IdemRecord>)
      returns (r: Outcome)
      requires Valid() && sid in st.sessions && sid < st.nextSid && !st.sessions[sid].pc.Replying?
      requires solo ==> Only(st, sid) && Fate(st, st.sessions[sid]) == verdict && others == [] && faults == []
      requires Bound(st, sid, KeyOf(st.sessions[sid].req), rec) && (rec.Some? ==> faults == [])
      modifies this
      ensures Valid() && old(trace) <= trace && OutcomeOk(st.db, old(st.sessions[sid].req), r)
      ensures r.Err? && (AckLost !in faults || r.error != Internal) ==> Unwritten(st, sid)
      ensures solo ==> verdict == (if r.Ok? then None else Some(r.error))
      ensures rec.Some? ==> rec.value.response.Some? && r == Expected(rec.value, old(st.sessions[sid].req))
      ensures Told(st, sid, old(st.sessions[sid].req), r)
    {
      RunToEnd(sid, others, faults, verdict, solo, rec);
      r := Answer(sid);
    }

    /** Statement after statement, until the call is about to reply. */
    method RunToEnd(sid: nat, others: seq<seq<Label>>, faults: seq<Fault>,
                    ghost verdict: Option<Error>, ghost solo: bool, ghost rec: Option<IdemRecord>)
      requires Valid() && sid in st.sessions && sid < st.nextSid && !st.sessions[sid].pc.Replying?
      requires solo ==> Only(st, sid) && Fate(st, st.sessions[sid]) == verdict && others == [] && faults == []
      requires Bound(st, sid, KeyOf(st.sessions[sid].req), rec) && (rec.Some? ==> faults == [])
      modifies this
      ensures Valid() && old(trace) <= trace && sid in st.sessions && st.sessions[sid].pc.Replying?
      ensures st.sessions[sid].req == old(st.sessions[sid].req) && Bound(st, sid, KeyOf(st.sessions[sid].req), rec)
      ensures Failed(st, sid) && AckLost !in faults ==> Unwritten(st, sid)
      ensures solo ==> Fate(st, st.sessions[sid]) == verdict
    {
      ghost var req := st.sessions[sid].req;
      var turns := if |others| < |faults| then |faults| else |others|;
      var n := 0;
      while !st.sessions[sid].pc.Replying?
        invariant Valid() && old(trace) <= trace && n <= turns
        invariant sid in st.sessions && sid < st.nextSid && st.sessions[sid].req == req
        invariant Failed(st, sid) && AckLost !in faults ==> Unwritten(st, sid)
        invariant solo ==> Only(st, sid) && Fate(st, st.sessions[sid]) == verdict
        invariant Bound(st, sid, KeyOf(req), rec)
        decreases Phase(st.sessions[sid]), Left(st.sessions[sid]), turns - n
      {
        var giveUp := n == turns;
        var ls := if n < |others| then others[n] else [];
        var fault := if n < |faults| then faults[n] else NoFault;
        var waiting := Attempt(sid, ls, fault, giveUp, rec);
        n := if n < turns then n + 1 else n;
      }
    }

    /** Hand the outcome to the client. */
    method Answer(sid: nat) returns (r: Outcome)
      requires Valid() && sid in st.sessions && st.sessions[sid].pc.Replying?
      modifies this
      ensures Valid() && old(trace) <= trace && st.db == old(st.db) && st.journal == old(st.journal)
      ensures r == old(st.sessions[sid].pc.outcome) && OutcomeOk(st.db, old(st.sessions[sid].req), r)
      ensures r.Err? && r.error != Internal ==> Unwritten(st, sid)
      ensures Told(st, sid, old(st.sessions[sid].req), r)
    {
      r := st.sessions[sid].pc.outcome;
      Reached();
      AnswerOk(st, sid);
      ghost var x := st.sessions[sid];
      Do(Advance(sid));
      Reached();
      assert Reply(sid, x.req, r) in st.replies;
      ReplyTold(st, Reply(sid, x.req, r));
    }

    lemma Reached()
      requires Valid()
      ensures Reachable(st)
    {
    }
  }

  ghost predicate Only(s: State, sid: nat) {
    sid in s.sessions && forall t :: t in s.sessions ==> t == sid
  }

  lemma SoloStatement(s: State, sid: nat)
    requires Reachable(s) && Only(s, sid) && !s.sessions[sid].pc.Replying?
    ensures Keeps(s, sid) && Only(AdvanceSession(s, sid).value, sid)
  {
    ReachableInv(s);
    FateKept(s, sid);
  }

  lemma NextUndecided(s: State)
    requires Inv(s)
    ensures s.nextSid !in Decided(s)
  {
    NextSidKeeps(s);
  }

  lemma BoundFromNow(s: State, k: IdemKey, rec: Option<IdemRecord>)
    requires Reachable(s) && (rec.Some? ==> k in s.db.idem && rec.value == s.db.idem[k])
    ensures Bound(s, s.nextSid, k, rec)
  {
    if rec.Some? {
      ReachableInv(s);
      NextUndecided(s);
      assert KeyRowOk(s.db, s.journal, k);
      RetriesFromNow(s, k, s.nextSid);
    }
  }

  /**
   * What the caller of `sid` is told in a success: the transaction it asked for, field by field,
   * and without a key the one that this very call committed.
   */
  ghost predicate Told(s: State, sid: nat, req: Request, r: Outcome) {
    r.Ok? ==>
      && LR.Answers(s.db, req, r.dto) && r.dto.id in s.journal
      && (req.key == "" ==> s.journal[r.dto.id].sid == sid && s.journal[r.dto.id].req == req)
  }

  lemma ReplyTold(s: State, r: Reply)
    requires Reachable(s) && r in s.replies
    ensures Told(s, r.sid, r.req, r.outcome)
  {
    if r.outcome.Ok? {
      LR.SuccessIsOwn(s, r);
      LR.SuccessAnswersRequest(s, r);
    }
  }

  /** A transaction that a later call committed was not there before. */
  lemma NewTransaction(clock: int, before: seq<Label>, after: seq<Label>, t: int)
    requires before <= after && t in Run(Init(clock), after).journal
    requires Run(Init(clock), after).journal[t].sid == Run(Init(clock), before).nextSid
    ensures t !in Run(Init(clock), before).db.headers
  {
    var s := Run(Init(clock), before);
    var ls := after[|before|..];
    assert after == before + ls;
    RunConcat(Init(clock), before, ls);
    LR.RunOwn(Init(clock), before);
    RunKeeps(Init(clock), before);
    LR.RunOwn(s, ls);
    NextSidKeeps(s);
  }

  lemma ToldNew(clock: int, before: seq<Label>, after: seq<Label>, req: Request, r: Outcome)
    requires before <= after && r.Ok? && req.key == ""
    requires Told(Run(Init(clock), after), Run(Init(clock), before).nextSid, req, r)
    ensures r.dto.id !in Run(Init(clock), before).db.headers
  {
    NewTransaction(clock, before, after, r.dto.id);
  }

  /** A call that has just begun has written nothing and, as a retry, is bound to its record. */
  lemma CallBegins(s: State, req: Request, rec: Option<IdemRecord>)
    requires Reachable(s) && (rec.Some? ==> KeyOf(req) in s.db.idem && rec.value == s.db.idem[KeyOf(req)])
    ensures Unwritten(BeginCall(s, req), s.nextSid) && Bound(BeginCall(s, req), s.nextSid, KeyOf(req), rec)
  {
    BoundFromNow(s, KeyOf(req), rec);
    BoundStep(s, Begin(req), s.nextSid, KeyOf(req), rec);
    ReachableInv(s);
    NextSidKeeps(s);
  }

  lemma AnswerOk(s: State, sid: nat)
    requires Reachable(s) && sid in s.sessions && s.sessions[sid].pc.Replying?
    ensures OutcomeOk(s.db, s.sessions[sid].req, s.sessions[sid].pc.outcome)
    ensures s.sessions[sid].pc.outcome.Err? && s.sessions[sid].pc.outcome.error != Internal ==> Unwritten(s, sid)
  {
    ReachableInv(s);
    assert SessionOk(s.db, s.ids, s.sessions[sid]);
    if s.sessions[sid].pc.outcome.Err? && s.sessions[sid].pc.outcome.error != Internal {
      NotYetWritten(s, sid);
    }
  }

  /** A session that is not replying, or replies with an error other than the internal one, is not in the journal. */
  lemma NotYetWritten(s: State, sid: nat)
    requires Reachable(s) && sid in s.sessions
    requires !s.sessions[sid].pc.Replying?
      || (s.sessions[sid].pc.outcome.Err? && s.sessions[sid].pc.outcome.error != Internal)
    ensures Unwritten(s, sid)
  {
    ReachableInv(s);
    forall t | t in s.journal ensures s.journal[t].sid != sid {
      assert CallOk(s.db, s.journal[t].sid, t, s.sessions, s.nextSid, s.replies);
    }
  }

  lemma StatementBound(s: State, sid: nat, fault: Fault, k: IdemKey, rec: Option<IdemRecord>)
    requires Reachable(s) && sid in s.sessions && !s.sessions[sid].pc.Replying? && k == KeyOf(s.sessions[sid].req)
    requires Bound(s, sid, k, rec) && (rec.Some? ==> fault == NoFault)
    ensures rec.Some? ==> Step(s, StepOf(s, sid, fault)).Some?
    ensures Step(s, StepOf(s, sid, fault)).Some? ==> Bound(Step(s, StepOf(s, sid, fault)).value, sid, k, rec)
  {
    if rec.Some? {
      RetryNeverWaits(s, sid, k);
      BoundStep(s, Advance(sid), sid, k, rec);
    }
  }

  lemma StatementMoves(s: State, sid: nat, fault: Fault)
    requires sid in s.sessions && !s.sessions[sid].pc.Replying? && Step(s, StepOf(s, sid, fault)).Some?
    ensures var s' := Step(s, StepOf(s, sid, fault)).value; var x := s.sessions[sid];
      && sid in s'.sessions && s'.nextSid == s.nextSid && s'.sessions[sid].req == x.req
      && Progress(x, s'.sessions[sid])
  {
    MoveShape(s, StepOf(s, sid, fault));
    if fault == NoFault {
      StatementProgress(s, sid);
    }
  }
}
