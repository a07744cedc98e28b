/**
 * Why calls are refused: every error has its reason in the request or in the tables, and legs are
 * checked against accounts that were active at the time.
 */
module LedgerRefusals {
  import opened Int64
  import opened Postings
  import opened Ledger
  import opened LedgerInvariant
  import opened LedgerSteps
  import opened LedgerCommit
  import opened LedgerTheorems
  import TS = TransactionService

  // ---------------------------------------------------------------- before the database

  lemma TransferLegs(r: Request)
    requires r.TransferReq? && r.amount > 0
    ensures LegsError(ExplicitLegs(r), false) == None
  {
    var e := ExplicitLegs(r);
    assert e[0].amount == 0 - r.amount && e[1].amount == r.amount;
    assert e[..1] == [e[0]] && e[..1][..0] == [];
    assert WrapSum(e[..1]) == Wrap(0 - r.amount) == 0 - r.amount;
    assert WrapSum(e) == Wrap(WrapSum(e[..1]) + r.amount) == 0;
  }

  /**
   * Refused without a DB transaction: a create of zero, a transfer of nothing or less, and a
   * transfer between an account and itself; no other request.
   */
  lemma PrecheckIff(r: Request)
    ensures Precheck(r) == Some(ZeroAmount) <==> (r.CreateReq? && r.amount == 0) || (r.TransferReq? && r.amount <= 0)
    ensures Precheck(r) == Some(Unbalanced) <==> r.TransferReq? && r.amount > 0 && r.from == r.to
    ensures Precheck(r).Some? ==> Precheck(r) == Some(ZeroAmount) || Precheck(r) == Some(Unbalanced)
  {
    if r.CreateReq? && r.amount != 0 {
      assert ExplicitLegs(r) == [Leg(r.account, r.amount)];
    } else if r.TransferReq? && r.amount > 0 {
      TransferLegs(r);
    }
  }

  // ---------------------------------------------------------------- errors have a reason

  /** An account that a leg of the request is on. */
  predicate LegAccount(db: Tables, req: Request, a: int) {
    match req
    case CreateReq(user, _, account, _, _, _, _) => a == account || (user in db.externals && db.externals[user] == a)
    case TransferReq(_, _, from, to, _, _, _, _) => a == from || a == to
    case ReverseReq(_, _, _) => false
  }

  /** The reason for an error, as far as it cannot pass: it is still there whenever it is looked for. */
  ghost predicate Justified(db: Tables, req: Request, e: Error) {
    match e
    case ZeroAmount => (req.CreateReq? && req.amount == 0) || (req.TransferReq? && req.amount <= 0)
    case Unbalanced => req.TransferReq? && req.amount > 0 && req.from == req.to
    case IdempotencyConflict => KeyOf(req) in db.idem && db.idem[KeyOf(req)].hash != PayloadOf(req)
    case IdempotencyInFlight => false
    case AlreadyReversed => req.ReverseReq? && req.txId in db.reversedBy
    case IsReversal => req.ReverseReq? && req.txId in db.headers && db.headers[req.txId].reversalOf.Some?
    case Forbidden => exists a :: LegAccount(db, req, a) && a in db.accounts && db.accounts[a].user != req.user
    case AccountInactive =>
      exists a :: LegAccount(db, req, a) && a in db.accounts && db.accounts[a].user == req.user
        && !db.accounts[a].active
    case CurrencyMismatch =>
      exists a :: LegAccount(db, req, a) && a in db.accounts && !db.accounts[a].external
        && db.accounts[a].currency != req.currency
    case AccountNotFound => !req.ReverseReq?
    case TxNotFound => req.ReverseReq?
    case Internal => true
  }

  /** The reason at the moment of refusal, the passing ones included. */
  ghost predicate Reason(s: State, sid: nat, e: Error)
    requires sid in s.sessions
  {
    var x := s.sessions[sid];
    && Justified(s.db, x.req, e)
    && (e == AccountNotFound ==> exists l :: l in x.legs && VisibleAccount(s.db, x, l.account).None?)
    && (e == TxNotFound ==> x.req.txId !in s.db.headers || s.db.headers[x.req.txId].user != x.req.user)
    && (e == Internal ==>
          (x.pc.NoExternal? && x.req.user in s.db.externals) || (x.pc.Finish? && !Passes(s, sid)))
  }

  /** The next statement of session `sid` ends its call in error `e`. */
  ghost predicate Refuses(s: State, sid: nat, e: Error) {
    && sid in s.sessions && AdvanceSession(s, sid).Some? && sid in AdvanceSession(s, sid).value.sessions
    && AdvanceSession(s, sid).value.sessions[sid].pc == Replying(Err(e))
  }

  /** A leg's account, as the call sees it, is in the tables or is the external account it has just made. */
  lemma LegSeen(s: State, x: Session, i: nat)
    requires LegsOk(s.db, x) && i < |x.legs| && VisibleAccount(s.db, x, x.legs[i].account).Some?
    requires !(x.newAccount.Some? && x.newAccount.value.id == x.legs[i].account)
    ensures x.legs[i].account in s.db.accounts && LegAccount(s.db, x.req, x.legs[i].account)
  {
  }

  /** The account `a` is what error `e` says. */
  predicate Unfit(db: Tables, req: Request, a: int, e: Error)
    requires a in db.accounts && !req.ReverseReq?
  {
    var acc := db.accounts[a];
    || (e == Forbidden && acc.user != req.user)
    || (e == AccountInactive && acc.user == req.user && !acc.active)
    || (e == CurrencyMismatch && !acc.external && acc.currency != req.currency)
  }

  lemma UnfitJustifies(db: Tables, req: Request, a: int, e: Error)
    requires a in db.accounts && LegAccount(db, req, a) && Unfit(db, req, a, e)
    ensures Justified(db, req, e)
  {
  }

  lemma UnfitLeg(s: State, sid: nat, e: Error)
    requires Refuses(s, sid, e) && s.sessions[sid].pc.Check? && !s.sessions[sid].req.ReverseReq?
    ensures s.sessions[sid].pc.i < |s.sessions[sid].legs|
    ensures var x := s.sessions[sid]; var a := x.legs[x.pc.i].account; var acc := VisibleAccount(s.db, x, a);
      || (e == AccountNotFound && acc.None?)
      || (e == Forbidden && acc.Some? && acc.value.user != x.req.user)
      || (e == AccountInactive && acc.Some? && acc.value.user == x.req.user && !acc.value.active)
      || (e == CurrencyMismatch && acc.Some? && !acc.value.external && acc.value.currency != x.req.currency)
  {
  }

  /** What a leg is refused for. */
  lemma CheckReason(s: State, sid: nat, e: Error)
    requires Refuses(s, sid, e) && SessionOk(s.db, s.ids, s.sessions[sid]) && s.sessions[sid].pc.Check?
    ensures Reason(s, sid, e)
  {
    var x := s.sessions[sid];
    UnfitLeg(s, sid, e);
    var i := x.pc.i;
    assert x.legs[i] in x.legs;
    if e != AccountNotFound {
      LegSeen(s, x, i);
      UnfitJustifies(s.db, x.req, x.legs[i].account, e);
    }
  }

  lemma KeyReason(s: State, sid: nat, e: Error)
    requires Inv(s) && Refuses(s, sid, e) && s.sessions[sid].pc.Existing?
    ensures Reason(s, sid, e)
  {
    var x := s.sessions[sid];
    assert SessionOk(s.db, s.ids, x);
    assert KeyRowOk(s.db, s.journal, KeyOf(x.req));
    var t := s.db.idem[KeyOf(x.req)].response.value.id;
    assert TransactionOk(s.db, s.journal[t], s.db.headers[t]);
  }

  /** The original's postings are always there, and the constraints on postings never stop a call. */
  lemma NeverRefusedLate(s: State, sid: nat)
    requires Inv(s) && sid in s.sessions && (s.sessions[sid].pc.ListOrig? || s.sessions[sid].pc.Post?)
    ensures AdvanceSession(s, sid).Some? && sid in AdvanceSession(s, sid).value.sessions
    ensures !AdvanceSession(s, sid).value.sessions[sid].pc.Replying?
  {
    var x := s.sessions[sid];
    assert SessionOk(s.db, s.ids, x);
    if x.pc.ListOrig? {
      var o: int := x.pc.orig.id;
      assert TransactionOk(s.db, s.journal[o], s.db.headers[o]);
    } else {
      TS.ReadyLegs(s, x, OrigOf(s.db, x.pc.header));
    }
  }

  /** The other statements that can refuse: finding the original, making the external account, inserting the header. */
  lemma PlainReason(s: State, sid: nat, e: Error)
    requires Refuses(s, sid, e) && SessionOk(s.db, s.ids, s.sessions[sid])
    requires var pc := s.sessions[sid].pc;
      pc.Start? || pc.Claimed? || pc.NoExternal? || pc.Insert? || pc.Emit? || pc.Mark?
    ensures Reason(s, sid, e)
  {
  }

  lemma CommitReason(s: State, sid: nat, e: Error)
    requires Refuses(s, sid, e) && s.sessions[sid].pc.Finish?
    ensures Reason(s, sid, e)
  {
    CommitShape(s, Advance(sid));
  }

  /** Whenever a statement ends its call in an error, the reason holds then and there. */
  lemma RefusalReason(s: State, sid: nat, e: Error)
    requires Inv(s) && Refuses(s, sid, e) && !s.sessions[sid].pc.Replying?
    ensures Reason(s, sid, e)
  {
    var pc := s.sessions[sid].pc;
    assert SessionOk(s.db, s.ids, s.sessions[sid]);
    if pc.Existing? {
      KeyReason(s, sid, e);
    } else if pc.Check? {
      CheckReason(s, sid, e);
    } else if pc.ListOrig? || pc.Post? {
      NeverRefusedLate(s, sid);
    } else if pc.Finish? {
      CommitReason(s, sid, e);
    } else {
      PlainReason(s, sid, e);
    }
  }

  // ---------------------------------------------------------------- reasons stay

  /** Nothing that a reason rests on is ever taken back. */
  ghost predicate Stays(a: Tables, b: Tables) {
    && (forall k :: k in a.accounts ==>
          && k in b.accounts && b.accounts[k].user == a.accounts[k].user
            && b.accounts[k].currency == a.accounts[k].currency
          && b.accounts[k].external == a.accounts[k].external && (b.accounts[k].active ==> a.accounts[k].active))
    && (forall k :: k in a.externals ==> k in b.externals && b.externals[k] == a.externals[k])
    && (forall k :: k in a.headers ==> k in b.headers && b.headers[k] == a.headers[k])
    && (forall k :: k in a.reversedBy ==> k in b.reversedBy)
    && (forall k :: k in a.idem ==> k in b.idem && b.idem[k] == a.idem[k])
  }

  lemma JustifiedStays(a: Tables, b: Tables, req: Request, e: Error)
    requires Stays(a, b) && Justified(a, req, e)
    ensures Justified(b, req, e)
  {
    match e {
      case Forbidden =>
        var k: int :| LegAccount(a, req, k) && k in a.accounts && a.accounts[k].user != req.user;
        assert LegAccount(b, req, k) && k in b.accounts;
      case AccountInactive =>
        var k: int :| LegAccount(a, req, k) && k in a.accounts && a.accounts[k].user == req.user
          && !a.accounts[k].active;
        assert LegAccount(b, req, k) && k in b.accounts;
      case CurrencyMismatch =>
        var k: int :|
          LegAccount(a, req, k) && k in a.accounts && !a.accounts[k].external && a.accounts[k].currency != req.currency;
        assert LegAccount(b, req, k) && k in b.accounts;
      case _ =>
    }
  }

  lemma MergeStays(db: Tables, ids: Ids, x: Session)
    requires x.pc.Finish? && SessionOk(db, ids, x)
    ensures Stays(db, Merge(db, x, x.pc.header, x.pc.eventId, x.pc.event))
  {
    assert HeaderOk(db, ids, x, x.pc.header);
  }

  lemma StepStays(s: State, l: Label)
    requires Inv(s) && Step(s, l).Some?
    ensures Stays(s.db, Step(s, l).value.db)
  {
    if CommitsNow(s, l) {
      CommitShape(s, l);
      assert SessionOk(s.db, s.ids, s.sessions[l.sid]);
      MergeStays(s.db, s.ids, s.sessions[l.sid]);
    } else {
      OnlyCommitWrites(s, l);
    }
  }

  /** An outcome that is an error has its reason in the tables. */
  ghost predicate ErrorOk(db: Tables, req: Request, o: Outcome) { o.Err? ==> Justified(db, req, o.error) }

  ghost predicate SessionJustified(s: State, sid: nat)
    requires sid in s.sessions
  {
    s.sessions[sid].pc.Replying? ==> ErrorOk(s.db, s.sessions[sid].req, s.sessions[sid].pc.outcome)
  }

  ghost predicate AllJustified(s: State) {
    && (forall sid {:trigger SessionJustified(s, sid)} :: sid in s.sessions ==> SessionJustified(s, sid))
    && (forall r {:trigger ErrorOk(s.db, r.req, r.outcome)} :: r in s.replies ==> ErrorOk(s.db, r.req, r.outcome))
  }

  lemma ErrorStays(a: Tables, b: Tables, req: Request, o: Outcome)
    requires Stays(a, b) && ErrorOk(a, req, o)
    ensures ErrorOk(b, req, o)
  {
    if o.Err? {
      JustifiedStays(a, b, req, o.error);
    }
  }

  lemma OthersJustified(s: State, s': State, sid: nat)
    requires AllJustified(s) && Stays(s.db, s'.db)
    requires forall t :: t in s'.sessions && t != sid ==> t in s.sessions && s'.sessions[t] == s.sessions[t]
    requires sid in s'.sessions ==> SessionJustified(s', sid)
    requires forall r :: r in s'.replies ==> r in s.replies || ErrorOk(s'.db, r.req, r.outcome)
    ensures AllJustified(s')
  {
    forall t | t in s'.sessions ensures SessionJustified(s', t) {
      if t != sid {
        assert SessionJustified(s, t);
        if s.sessions[t].pc.Replying? {
          ErrorStays(s.db, s'.db, s.sessions[t].req, s.sessions[t].pc.outcome);
        }
      }
    }
    forall r | r in s'.replies ensures ErrorOk(s'.db, r.req, r.outcome) {
      if r in s.replies {
        assert ErrorOk(s.db, r.req, r.outcome);
        ErrorStays(s.db, s'.db, r.req, r.outcome);
      }
    }
  }

  lemma MoveJustified(s: State, l: Label)
    requires Inv(s) && MovesSession(l) && Step(s, l).Some? && !s.sessions[l.sid].pc.Replying?
    ensures l.sid in Step(s, l).value.sessions && SessionJustified(Step(s, l).value, l.sid)
  {
    MoveShape(s, l);
    StepStays(s, l);
    var s' := Step(s, l).value;
    var y := s'.sessions[l.sid];
    if y.pc.Replying? && y.pc.outcome.Err? && l.Advance? {
      RefusalReason(s, l.sid, y.pc.outcome.error);
      JustifiedStays(s.db, s'.db, y.req, y.pc.outcome.error);
    }
  }

  lemma StepJustified(s: State, l: Label)
    requires Inv(s) && AllJustified(s) && Step(s, l).Some?
    ensures AllJustified(Step(s, l).value)
  {
    var s' := Step(s, l).value;
    StepStays(s, l);
    if MovesSession(l) {
      MoveShape(s, l);
      assert SessionJustified(s, l.sid);
      if !s.sessions[l.sid].pc.Replying? {
        MoveJustified(s, l);
      }
      OthersJustified(s, s', l.sid);
    } else {
      if l.Begin? {
        PrecheckIff(l.req);
      }
      OthersJustified(s, s', s.nextSid);
    }
  }

  lemma {:induction false} RunJustified(s: State, ls: seq<Label>)
    requires Inv(s) && AllJustified(s)
    ensures AllJustified(Run(s, ls))
  {
    if ls != [] {
      var n := |ls| - 1;
      RunJustified(s, ls[..n]);
      RunKeeps(s, ls[..n]);
      if Step(Run(s, ls[..n]), ls[n]).Some? {
        StepJustified(Run(s, ls[..n]), ls[n]);
      }
    }
  }

  /**
   * Every error has its reason: a conflict means that the key is committed for another payload,
   * "already reversed" that a reversal is committed, and so on; whoever looks finds it still
   * there. A duplicate that overlaps with its first call is never told of a conflict.
   */
  lemma ErrorsJustified(s: State, r: Reply)
    requires Reachable(s) && r in s.replies && r.outcome.Err?
    ensures Justified(s.db, r.req, r.outcome.error)
  {
    var clock: int, ls: seq<Label> :| s == Run(Init(clock), ls);
    RunJustified(Init(clock), ls);
    assert ErrorOk(s.db, r.req, r.outcome);
  }

  // ---------------------------------------------------------------- legs were active

  /** At some point of the run so far the account was there and active. */
  ghost predicate ActiveOnce(clock: int, ls: seq<Label>, a: int) {
    exists n :: 0 <= n <= |ls| && ActiveAt(Run(Init(clock), ls[..n]), a)
  }

  predicate ActiveAt(s: State, a: int) { a in s.db.accounts && s.db.accounts[a].active }

  lemma ActiveNow(clock: int, ls: seq<Label>, a: int)
    requires ActiveAt(Run(Init(clock), ls), a)
    ensures ActiveOnce(clock, ls, a)
  {
    assert ls[..|ls|] == ls;
  }

  lemma ActiveLater(clock: int, ls: seq<Label>, l: Label, a: int)
    requires ActiveOnce(clock, ls, a)
    ensures ActiveOnce(clock, ls + [l], a)
  {
    var n :| 0 <= n <= |ls| && ActiveAt(Run(Init(clock), ls[..n]), a);
    assert (ls + [l])[..n] == ls[..n];
  }

  /** How many legs a create or transfer has had checked. */
  function Checked(x: Session): nat {
    match x.pc
    case Check(i) => if i <= |x.legs| then i else |x.legs|
    case Insert(_) => |x.legs|
    case Post(_, _) => |x.legs|
    case Emit(_) => |x.legs|
    case Mark(_, _, _) => |x.legs|
    case Finish(_, _, _) => |x.legs|
    case _ => 0
  }

  /** The external account that the call itself has made counts as active. */
  ghost predicate LegActive(clock: int, ls: seq<Label>, x: Session, a: int) {
    (x.newAccount.Some? && x.newAccount.value.id == a) || ActiveOnce(clock, ls, a)
  }

  ghost predicate SessionActive(clock: int, ls: seq<Label>, x: Session) {
    !x.req.ReverseReq? ==> forall j {:trigger x.legs[j]} :: 0 <= j < Checked(x) ==>
      LegActive(clock, ls, x, x.legs[j].account)
  }

  ghost predicate PostingActive(clock: int, ls: seq<Label>, db: Tables, p: Posting) {
    p.txId in db.headers && db.headers[p.txId].reversalOf.None? ==> ActiveOnce(clock, ls, p.account)
  }

  ghost predicate AllActive(clock: int, ls: seq<Label>) {
    var s := Run(Init(clock), ls);
    && SessionsActive(clock, ls, s.sessions)
    && (forall p {:trigger PostingActive(clock, ls, s.db, p)} :: p in s.db.postings ==>
          PostingActive(clock, ls, s.db, p))
  }

  /** The leg's account is visible to the call, and active. */
  predicate SeesActive(db: Tables, x: Session, a: int) {
    VisibleAccount(db, x, a).Some? && VisibleAccount(db, x, a).value.active
  }

  /** One statement checks at most one more leg, and then its account is visible and active. */
  lemma OneMoreChecked(s: State, sid: nat, y: Session, j: nat)
    requires sid in s.sessions && SessionOk(s.db, s.ids, s.sessions[sid]) && !s.sessions[sid].pc.Replying?
    requires AdvanceSession(s, sid).Some? && sid in AdvanceSession(s, sid).value.sessions
    requires y == AdvanceSession(s, sid).value.sessions[sid] && !y.req.ReverseReq? && j < Checked(y)
    ensures var x := s.sessions[sid];
      && y.req == x.req && y.legs == x.legs && y.newAccount == x.newAccount && j < |x.legs|
      && (j < Checked(x) || SeesActive(s.db, x, x.legs[j].account))
  {
    var pc := s.sessions[sid].pc;
    if pc.Check? {
      CheckChecked(s, sid, y, j);
    } else if pc.Insert? || pc.Post? || pc.Emit? || pc.Mark? || pc.Finish? {
      LateChecked(s, sid, y, j);
    } else {
      EarlyUnchecked(s, sid, y);
    }
  }

  lemma EarlyUnchecked(s: State, sid: nat, y: Session)
    requires sid in s.sessions && SessionOk(s.db, s.ids, s.sessions[sid]) && AdvanceSession(s, sid).Some?
    requires var pc := s.sessions[sid].pc; pc.Start? || pc.Existing? || pc.Claimed? || pc.NoExternal? || pc.ListOrig?
    requires sid in AdvanceSession(s, sid).value.sessions && y == AdvanceSession(s, sid).value.sessions[sid]
    ensures !y.req.ReverseReq? ==> Checked(y) == 0
  {
  }

  lemma CheckChecked(s: State, sid: nat, y: Session, j: nat)
    requires sid in s.sessions && SessionOk(s.db, s.ids, s.sessions[sid]) && s.sessions[sid].pc.Check?
    requires AdvanceSession(s, sid).Some? && sid in AdvanceSession(s, sid).value.sessions
    requires y == AdvanceSession(s, sid).value.sessions[sid] && j < Checked(y)
    ensures var x := s.sessions[sid];
      && y.req == x.req && y.legs == x.legs && y.newAccount == x.newAccount && j < |x.legs|
      && (j < Checked(x) || SeesActive(s.db, x, x.legs[j].account))
  {
  }

  lemma LateChecked(s: State, sid: nat, y: Session, j: nat)
    requires sid in s.sessions && AdvanceSession(s, sid).Some?
    requires var pc := s.sessions[sid].pc; pc.Insert? || pc.Post? || pc.Emit? || pc.Mark? || pc.Finish?
    requires sid in AdvanceSession(s, sid).value.sessions && y == AdvanceSession(s, sid).value.sessions[sid]
    requires j < Checked(y)
    ensures var x := s.sessions[sid];
      y.req == x.req && y.legs == x.legs && y.newAccount == x.newAccount && j < Checked(x)
  {
  }

  lemma NextLegActive(clock: int, ls: seq<Label>, l: Label, x: Session, a: int)
    requires LegActive(clock, ls, x, a) || SeesActive(Run(Init(clock), ls).db, x, a)
    ensures LegActive(clock, ls + [l], x, a)
  {
    if !(x.newAccount.Some? && x.newAccount.value.id == a) {
      if !ActiveOnce(clock, ls, a) {
        ActiveNow(clock, ls, a);
      }
      ActiveLater(clock, ls, l, a);
    }
  }

  lemma AdvanceLegActive(clock: int, ls: seq<Label>, s: State, sid: nat, y: Session, j: nat)
    requires s == Run(Init(clock), ls) && sid in s.sessions && SessionOk(s.db, s.ids, s.sessions[sid])
    requires !s.sessions[sid].pc.Replying? && SessionActive(clock, ls, s.sessions[sid])
    requires AdvanceSession(s, sid).Some? && sid in AdvanceSession(s, sid).value.sessions
    requires y == AdvanceSession(s, sid).value.sessions[sid] && !y.req.ReverseReq? && j < Checked(y)
    ensures j < |y.legs| && LegActive(clock, ls + [Advance(sid)], y, y.legs[j].account)
  {
    var x := s.sessions[sid];
    OneMoreChecked(s, sid, y, j);
    assert j < Checked(x) ==> LegActive(clock, ls, x, x.legs[j].account);
    NextLegActive(clock, ls, Advance(sid), x, x.legs[j].account);
  }

  lemma AdvanceActive(clock: int, ls: seq<Label>, s: State, sid: nat, y: Session)
    requires s == Run(Init(clock), ls) && sid in s.sessions && SessionOk(s.db, s.ids, s.sessions[sid])
    requires !s.sessions[sid].pc.Replying? && SessionActive(clock, ls, s.sessions[sid])
    requires AdvanceSession(s, sid).Some? && sid in AdvanceSession(s, sid).value.sessions
    requires y == AdvanceSession(s, sid).value.sessions[sid]
    ensures SessionActive(clock, ls + [Advance(sid)], y)
  {
    if !y.req.ReverseReq? {
      forall j | 0 <= j < Checked(y) ensures LegActive(clock, ls + [Advance(sid)], y, y.legs[j].account) {
        AdvanceLegActive(clock, ls, s, sid, y, j);
      }
    }
  }

  lemma UncheckedActive(clock: int, ls: seq<Label>, x: Session)
    requires Checked(x) == 0
    ensures SessionActive(clock, ls, x)
  {
  }

  lemma MoveActive(clock: int, ls: seq<Label>, l: Label, s: State)
    requires s == Run(Init(clock), ls) && MovesSession(l) && Step(s, l).Some? && l.sid in s.sessions
    requires SessionOk(s.db, s.ids, s.sessions[l.sid]) && SessionActive(clock, ls, s.sessions[l.sid])
    ensures l.sid in Step(s, l).value.sessions ==> SessionActive(clock, ls + [l], Step(s, l).value.sessions[l.sid])
  {
    MoveShape(s, l);
    if l.sid in Step(s, l).value.sessions {
      if l.Advance? {
        assert l == Advance(l.sid);
        AdvanceActive(clock, ls, s, l.sid, Step(s, l).value.sessions[l.sid]);
      } else {
        UncheckedActive(clock, ls + [l], Step(s, l).value.sessions[l.sid]);
      }
    }
  }

  lemma OtherActive(clock: int, ls: seq<Label>, l: Label, x: Session)
    requires SessionActive(clock, ls, x)
    ensures SessionActive(clock, ls + [l], x)
  {
    if !x.req.ReverseReq? {
      forall j | 0 <= j < Checked(x) ensures LegActive(clock, ls + [l], x, x.legs[j].account) {
        assert LegActive(clock, ls, x, x.legs[j].account);
        if ActiveOnce(clock, ls, x.legs[j].account) {
          ActiveLater(clock, ls, l, x.legs[j].account);
        }
      }
    }
  }

  /** The postings that a session has staged are on legs that were checked. */
  lemma StagedActive(clock: int, ls: seq<Label>, db: Tables, ids: Ids, x: Session, p: Posting)
    requires x.pc.Finish? && SessionOk(db, ids, x) && SessionActive(clock, ls, x) && p in x.postings
    ensures p.txId == x.pc.header.id
    ensures x.pc.header.reversalOf.None? ==> LegActive(clock, ls, x, p.account)
  {
    var i :| 0 <= i < |x.postings| && x.postings[i] == p;
    assert PostingsMatch(x, x.pc.header) && HeaderOk(db, ids, x, x.pc.header);
    assert p.account == x.legs[i].account;
  }

  lemma CommittedActive(clock: int, ls: seq<Label>, l: Label, s: State, p: Posting)
    requires s == Run(Init(clock), ls) && CommitsNow(s, l) && Passes(s, l.sid)
    requires SessionOk(s.db, s.ids, s.sessions[l.sid]) && SessionActive(clock, ls, s.sessions[l.sid])
    requires Step(s, l).Some? && Run(Init(clock), ls + [l]) == Step(s, l).value && p in s.sessions[l.sid].postings
    ensures PostingActive(clock, ls + [l], Step(s, l).value.db, p)
  {
    var x := s.sessions[l.sid];
    CommitShape(s, l);
    StagedActive(clock, ls, s.db, s.ids, x, p);
    if x.pc.header.reversalOf.None? {
      if x.newAccount.Some? && x.newAccount.value.id == p.account {
        ActiveNow(clock, ls + [l], p.account);
      } else {
        ActiveLater(clock, ls, l, p.account);
      }
    }
  }

  lemma PostingsActive(clock: int, ls: seq<Label>, l: Label)
    requires AllActive(clock, ls) && Inv(Run(Init(clock), ls)) && Step(Run(Init(clock), ls), l).Some?
    requires Run(Init(clock), ls + [l]) == Step(Run(Init(clock), ls), l).value
    ensures forall p :: p in Run(Init(clock), ls + [l]).db.postings ==>
      PostingActive(clock, ls + [l], Run(Init(clock), ls + [l]).db, p)
  {
    var s, s' := Run(Init(clock), ls), Run(Init(clock), ls + [l]);
    StepStays(s, l);
    if CommitsNow(s, l) {
      CommitShape(s, l);
    } else {
      OnlyCommitWrites(s, l);
    }
    forall p | p in s'.db.postings ensures PostingActive(clock, ls + [l], s'.db, p) {
      if p in s.db.postings {
        assert PostingActive(clock, ls, s.db, p) && PostingOk(s.db, p);
        if ActiveOnce(clock, ls, p.account) {
          ActiveLater(clock, ls, l, p.account);
        }
      } else {
        assert SessionActive(clock, ls, s.sessions[l.sid]) && SessionOk(s.db, s.ids, s.sessions[l.sid]);
        CommittedActive(clock, ls, l, s, p);
      }
    }
  }

  ghost predicate SessionsActive(clock: int, ls: seq<Label>, sessions: Sessions) {
    forall sid {:trigger SessionActive(clock, ls, sessions[sid])} :: sid in sessions ==>
      SessionActive(clock, ls, sessions[sid])
  }

  lemma OthersActive(clock: int, ls: seq<Label>, l: Label, before: Sessions, after: Sessions, mine: nat)
    requires SessionsActive(clock, ls, before)
    requires forall t :: t in after && t != mine ==> t in before && after[t] == before[t]
    requires mine in after ==> SessionActive(clock, ls + [l], after[mine])
    ensures SessionsActive(clock, ls + [l], after)
  {
    forall t | t in after ensures SessionActive(clock, ls + [l], after[t]) {
      if t != mine {
        assert SessionActive(clock, ls, before[t]);
        OtherActive(clock, ls, l, before[t]);
      }
    }
  }

  lemma StepSessionsActive(clock: int, ls: seq<Label>, l: Label, s: State)
    requires s == Run(Init(clock), ls) && SessionsActive(clock, ls, s.sessions) && SessionsOk(s.db, s.ids, s.sessions)
    requires Step(s, l).Some?
    ensures SessionsActive(clock, ls + [l], Step(s, l).value.sessions)
  {
    var s' := Step(s, l).value;
    if MovesSession(l) {
      MoveShape(s, l);
      assert SessionActive(clock, ls, s.sessions[l.sid]) && SessionOk(s.db, s.ids, s.sessions[l.sid]);
      MoveActive(clock, ls, l, s);
      OthersActive(clock, ls, l, s.sessions, s'.sessions, l.sid);
    } else {
      if l.Begin? && s.nextSid in s'.sessions && Precheck(l.req).None? {
        UncheckedActive(clock, ls + [l], s'.sessions[s.nextSid]);
      } else if s.nextSid in s'.sessions {
        assert SessionActive(clock, ls, s.sessions[s.nextSid]);
        OtherActive(clock, ls, l, s.sessions[s.nextSid]);
      }
      OthersActive(clock, ls, l, s.sessions, s'.sessions, s.nextSid);
    }
  }

  lemma StepActive(clock: int, ls: seq<Label>, l: Label)
    requires AllActive(clock, ls) && Inv(Run(Init(clock), ls)) && Step(Run(Init(clock), ls), l).Some?
    requires Run(Init(clock), ls + [l]) == Step(Run(Init(clock), ls), l).value
    ensures AllActive(clock, ls + [l])
  {
    PostingsActive(clock, ls, l);
    StepSessionsActive(clock, ls, l, Run(Init(clock), ls));
  }

  lemma RunOne(s: State, ls: seq<Label>, l: Label)
    ensures Run(s, ls + [l]) == match Step(Run(s, ls), l) case None => Run(s, ls) case Some(s') => s'
  {
    assert (ls + [l])[..|ls|] == ls;
  }

  lemma StillActive(clock: int, ls: seq<Label>, l: Label)
    requires AllActive(clock, ls) && Run(Init(clock), ls + [l]) == Run(Init(clock), ls)
    ensures AllActive(clock, ls + [l])
  {
    var s := Run(Init(clock), ls);
    forall sid | sid in s.sessions ensures SessionActive(clock, ls + [l], s.sessions[sid]) {
      assert SessionActive(clock, ls, s.sessions[sid]);
      OtherActive(clock, ls, l, s.sessions[sid]);
    }
    forall p | p in s.db.postings ensures PostingActive(clock, ls + [l], s.db, p) {
      assert PostingActive(clock, ls, s.db, p);
      if ActiveOnce(clock, ls, p.account) {
        ActiveLater(clock, ls, l, p.account);
      }
    }
  }

  lemma {:induction false} RunActive(clock: int, ls: seq<Label>)
    ensures AllActive(clock, ls)
  {
    if ls != [] {
      var before, l := ls[..|ls| - 1], ls[|ls| - 1];
      assert ls == before + [l];
      RunActive(clock, before);
      RunKeeps(Init(clock), before);
      RunOne(Init(clock), before, l);
      if Step(Run(Init(clock), before), l).Some? {
        StepActive(clock, before, l);
      } else {
        StillActive(clock, before, l);
      }
    }
  }

  /** Every account that a committed create or transfer posts to was active at some point of the run before. */
  lemma CommittedLegsWereActive(clock: int, ls: seq<Label>, p: Posting)
    requires var db := Run(Init(clock), ls).db;
      p in db.postings && p.txId in db.headers && db.headers[p.txId].reversalOf.None?
    ensures ActiveOnce(clock, ls, p.account)
  {
    RunActive(clock, ls);
    assert PostingActive(clock, ls, Run(Init(clock), ls).db, p);
  }
}
