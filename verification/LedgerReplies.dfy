/**
 * What calls are told: a success is the caller's own transaction, field by field as it asked
 * for it, and an error has its reason.
 */
module LedgerReplies {
  import opened Int64
  import opened Postings
  import opened Ledger
  import opened LedgerInvariant
  import opened LedgerSteps
  import opened LedgerCommit
  import opened LedgerTheorems
  import opened LedgerBooks
  import Text

  // ---------------------------------------------------------------- keys and payloads

  /** Requests share an idempotency key exactly if user and key agree. */
  lemma SameKeyIff(q: Request, r: Request)
    ensures KeyOf(q) == KeyOf(r) <==> q.user == r.user && q.key == r.key
  {
  }

  /** The same request, whatever its key. */
  predicate SameContent(q: Request, r: Request) {
    match q
    case CreateReq(user, _, account, amount, currency, at, note) =>
      && r.CreateReq? && r.user == user && r.account == account && r.amount == amount
      && r.currency == currency && r.occurredAt == at && r.note == note
    case TransferReq(user, _, from, to, amount, currency, at, note) =>
      && r.TransferReq? && r.user == user && r.from == from && r.to == to && r.amount == amount
      && r.currency == currency && r.occurredAt == at && r.note == note
    case ReverseReq(user, _, txId) => r.ReverseReq? && r.user == user && r.txId == txId
  }

  /** What the request hash compares is exactly kind, user, legs, currency, time and note. */
  lemma SamePayloadIff(q: Request, r: Request)
    ensures PayloadOf(q) == PayloadOf(r) <==> SameContent(q, r)
  {
    if q.CreateReq? && r.CreateReq? {
      assert ExplicitLegs(q)[0] == Leg(q.account, q.amount) && ExplicitLegs(r)[0] == Leg(r.account, r.amount);
    } else if q.TransferReq? && r.TransferReq? {
      assert ExplicitLegs(q)[0].account == q.from && ExplicitLegs(q)[1] == Leg(q.to, q.amount);
      assert ExplicitLegs(r)[0].account == r.from && ExplicitLegs(r)[1] == Leg(r.to, r.amount);
    }
  }

  // ---------------------------------------------------------------- a success is one's own

  /** Without a key, a success is the transaction that this very call committed. */
  ghost predicate Own(s: State, sid: nat, req: Request, o: Outcome) {
    o.Ok? && req.key == "" ==> o.dto.id in s.journal && s.journal[o.dto.id].sid == sid && s.journal[o.dto.id].req == req
  }

  ghost predicate SessionOwn(s: State, sid: nat)
    requires sid in s.sessions
  {
    s.sessions[sid].pc.Replying? ==> Own(s, sid, s.sessions[sid].req, s.sessions[sid].pc.outcome)
  }

  ghost predicate AllOwn(s: State) {
    && (forall sid {:trigger SessionOwn(s, sid)} :: sid in s.sessions ==> SessionOwn(s, sid))
    && (forall r {:trigger Own(s, r.sid, r.req, r.outcome)} :: r in s.replies ==> Own(s, r.sid, r.req, r.outcome))
  }

  /** Only a commit, or the record of a key, ends in success. */
  lemma SuccessOnlyFrom(s: State, l: Label)
    requires MovesSession(l) && Step(s, l).Some? && !CommitsNow(s, l) && !s.sessions[l.sid].pc.Replying?
    ensures l.sid in Step(s, l).value.sessions
    ensures var pc := Step(s, l).value.sessions[l.sid].pc;
      pc.Replying? && pc.outcome.Ok? ==> s.sessions[l.sid].pc.Existing?
  {
  }

  /** The journal only grows. */
  ghost predicate JournalStays(s: State, s': State) {
    forall t :: t in s.journal ==> t in s'.journal && s'.journal[t] == s.journal[t]
  }

  lemma CommitOwn(s: State, l: Label)
    requires Inv(s) && CommitsNow(s, l) && Step(s, l).Some?
    ensures SessionOwnAfter(s, l) && JournalStays(s, Step(s, l).value)
  {
    var x := s.sessions[l.sid];
    assert SessionOk(s.db, s.ids, x);
    assert HeaderOk(s.db, s.ids, x, x.pc.header);
    CommitShape(s, l);
    CommitReplies(s, l);
  }

  /** A commit that succeeds replies with its own header's id; any other reply is an error. */
  lemma CommitReplies(s: State, l: Label)
    requires CommitsNow(s, l) && Step(s, l).Some?
    ensures var x := s.sessions[l.sid]; var y := Step(s, l).value.sessions;
      && l.sid in y && y[l.sid].req == x.req && y[l.sid].pc.Replying?
      && (y[l.sid].pc.outcome.Ok? ==> Passes(s, l.sid) && y[l.sid].pc.outcome.dto.id == x.pc.header.id)
  {
  }

  ghost predicate SessionOwnAfter(s: State, l: Label)
    requires MovesSession(l) && Step(s, l).Some?
  {
    l.sid in Step(s, l).value.sessions ==> SessionOwn(Step(s, l).value, l.sid)
  }

  lemma MoveOwn(s: State, l: Label)
    requires Inv(s) && MovesSession(l) && Step(s, l).Some? && !CommitsNow(s, l)
    ensures SessionOwnAfter(s, l) && JournalStays(s, Step(s, l).value)
  {
    MoveShape(s, l);
    if !s.sessions[l.sid].pc.Replying? {
      SuccessOnlyFrom(s, l);
      assert SessionOk(s.db, s.ids, s.sessions[l.sid]);
    }
  }

  lemma OthersOwn(s: State, s': State, sid: nat)
    requires AllOwn(s) && JournalStays(s, s')
    requires forall t :: t in s'.sessions && t != sid ==> t in s.sessions && s'.sessions[t] == s.sessions[t]
    requires sid in s'.sessions ==> SessionOwn(s', sid)
    requires forall r :: r in s'.replies ==> r in s.replies || Own(s', r.sid, r.req, r.outcome)
    ensures AllOwn(s')
  {
    forall t | t in s'.sessions ensures SessionOwn(s', t) {
      if t != sid {
        assert SessionOwn(s, t);
      }
    }
    forall r | r in s'.replies ensures Own(s', r.sid, r.req, r.outcome) {
      if r in s.replies {
        assert Own(s, r.sid, r.req, r.outcome);
      }
    }
  }

  lemma StepOwn(s: State, l: Label)
    requires Inv(s) && AllOwn(s) && Step(s, l).Some?
    ensures AllOwn(Step(s, l).value) && JournalStays(s, Step(s, l).value)
  {
    var s' := Step(s, l).value;
    if MovesSession(l) {
      MoveShape(s, l);
      if CommitsNow(s, l) {
        CommitOwn(s, l);
      } else {
        MoveOwn(s, l);
      }
      assert SessionOwn(s, l.sid);
      OthersOwn(s, s', l.sid);
    } else {
      OthersOwn(s, s', s.nextSid);
    }
  }

  lemma {:induction false} RunOwn(s: State, ls: seq<Label>)
    requires Inv(s) && AllOwn(s)
    ensures AllOwn(Run(s, ls)) && JournalStays(s, Run(s, ls))
  {
    if ls != [] {
      var n := |ls| - 1;
      RunOwn(s, ls[..n]);
      RunKeeps(s, ls[..n]);
      if Step(Run(s, ls[..n]), ls[n]).Some? {
        StepOwn(Run(s, ls[..n]), ls[n]);
      }
    }
  }

  /**
   * Every success is a committed transaction of the caller's own request: without a key the one
   * that this very call committed; with a key one that was committed under the same key for the
   * same content.
   */
  lemma SuccessIsOwn(s: State, r: Reply)
    requires Reachable(s) && r in s.replies && r.outcome.Ok?
    ensures r.outcome.dto.id in s.journal && r.outcome.dto.id in s.db.headers
    ensures r.req.key == "" ==> s.journal[r.outcome.dto.id].sid == r.sid && s.journal[r.outcome.dto.id].req == r.req
    ensures r.req.key != "" ==> KeyOf(s.journal[r.outcome.dto.id].req) == KeyOf(r.req)
    ensures SameContent(s.journal[r.outcome.dto.id].req, r.req)
  {
    var clock: int, ls: seq<Label> :| s == Run(Init(clock), ls);
    ReachableInv(s);
    RunOwn(Init(clock), ls);
    assert Own(s, r.sid, r.req, r.outcome);
    assert ReplyOk(s.db, s.sessions, s.nextSid, r);
    if r.req.key != "" {
      ExactlyOnce(s);
    }
    SamePayloadIff(s.journal[r.outcome.dto.id].req, r.req);
  }

  // ---------------------------------------------------------------- field by field

  predicate PostingsTold(ds: seq<PostingDto>, ps: seq<Posting>) {
    && |ds| == |ps|
    && forall i :: 0 <= i < |ps| ==>
         ds[i].id == ps[i].id && ds[i].account == ps[i].account && ds[i].amount == ps[i].amount
  }

  /** The response tells the stored header and its posting rows. */
  predicate ResponseTells(d: Dto, h: Header, ps: seq<Posting>) {
    && d.id == h.id && d.user == h.user && d.currency == h.currency && d.occurredAt == h.occurredAt
    && d.note == h.note && d.reversalOf == h.reversalOf && d.createdAt == h.createdAt
    && PostingsTold(d.postings, ps)
  }

  /** So does the event, which is announced as a reversal exactly if it is one. */
  predicate EventTells(e: Event, h: Header, ps: seq<Posting>) {
    && e.txId == h.id && e.user == h.user && e.currency == h.currency && e.occurredAt == h.occurredAt
    && e.reversalOf == h.reversalOf && (e.eventType == TransactionReversed <==> h.reversalOf.Some?)
    && PostingsTold(e.postings, ps)
  }

  lemma ResponseFields(s: State, r: Reply)
    requires Reachable(s) && r in s.replies && r.outcome.Ok?
    ensures var d := r.outcome.dto;
      d.id in s.db.headers && ResponseTells(d, s.db.headers[d.id], PostingsOf(s.db.postings, d.id))
  {
    ReachableInv(s);
    assert ReplyOk(s.db, s.sessions, s.nextSid, r);
    assert s.db.headers[r.outcome.dto.id].id == r.outcome.dto.id;
  }

  lemma StoredFields(s: State, k: IdemKey)
    requires Reachable(s) && k in s.db.idem
    ensures s.db.idem[k].response.Some?
    ensures var d := s.db.idem[k].response.value;
      d.id in s.db.headers && ResponseTells(d, s.db.headers[d.id], PostingsOf(s.db.postings, d.id))
  {
    ReachableInv(s);
    ExactlyOnce(s);
    var d := s.db.idem[k].response.value;
    assert s.db.headers[d.id].id == d.id;
  }

  lemma EventFields(s: State, t: int)
    requires Reachable(s) && t in s.db.headers
    ensures t in s.journal && s.journal[t].eventId in s.db.outbox
    ensures EventTells(s.db.outbox[s.journal[t].eventId], s.db.headers[t], PostingsOf(s.db.postings, t))
  {
    ReachableInv(s);
    assert TransactionOk(s.db, s.journal[t], s.db.headers[t]);
  }

  // ---------------------------------------------------------------- the reply against the request

  predicate PostingIs(d: PostingDto, account: int, amount: int) { d.account == account && d.amount == amount }

  predicate ExternalAccountOf(db: Tables, user: int, a: int) {
    a in db.accounts && db.accounts[a].external && db.accounts[a].user == user
  }

  /** The response is the transaction that the request asks for. */
  predicate Answers(db: Tables, req: Request, d: Dto) {
    && d.user == req.user && |d.postings| == 2
    && match req
       case CreateReq(user, _, account, amount, currency, at, note) =>
         && d.currency == currency && d.occurredAt == Micros(at) && d.note == note && d.reversalOf.None?
         && PostingIs(d.postings[0], account, amount)
         && d.postings[1].amount == 0 - amount && ExternalAccountOf(db, user, d.postings[1].account)
       case TransferReq(_, _, from, to, amount, currency, at, note) =>
         && d.currency == currency && d.occurredAt == Micros(at) && d.note == note && d.reversalOf.None?
         && PostingIs(d.postings[0], from, 0 - amount) && PostingIs(d.postings[1], to, amount)
       case ReverseReq(user, _, o) =>
         && d.reversalOf == Some(o) && d.note == "reversal of transaction " + Text.Decimal(o)
         && o in db.headers && db.headers[o].user == user && db.headers[o].currency == d.currency
         && var ps := PostingsOf(db.postings, o);
         && |ps| == 2 && PostingIs(d.postings[0], ps[0].account, 0 - ps[0].amount)
         && PostingIs(d.postings[1], ps[1].account, 0 - ps[1].amount)
  }

  lemma CommittedAnswers(s: State, t: int, req: Request, d: Dto)
    requires Reachable(s) && t in s.db.headers && t in s.journal && SameContent(s.journal[t].req, req)
    requires ResponseTells(d, s.db.headers[t], PostingsOf(s.db.postings, t))
    ensures Answers(s.db, req, d)
  {
    ReachableInv(s);
    assert TransactionOk(s.db, s.journal[t], s.db.headers[t]);
    var ps := PostingsOf(s.db.postings, t);
    assert Pair(ps) && Fulfils(s.db, s.journal[t].req, s.db.headers[t], ps);
    if req.CreateReq? {
      assert ExternalRowOk(s.db, req.user);
    } else if req.ReverseReq? {
      var o: int := req.txId;
      assert ReversalOk(s.db, s.db.headers[t], ps);
      assert Opposite(ps, PostingsOf(s.db.postings, o));
    }
  }

  /**
   * Every success, first answer or replay, is the transaction its own request asked for: for a
   * create the amount on the account and its opposite on the user's external account, for a
   * transfer the two legs, for a reversal the opposite of each leg of the original.
   */
  lemma SuccessAnswersRequest(s: State, r: Reply)
    requires Reachable(s) && r in s.replies && r.outcome.Ok?
    ensures Answers(s.db, r.req, r.outcome.dto)
  {
    SuccessIsOwn(s, r);
    ResponseFields(s, r);
    CommittedAnswers(s, r.outcome.dto.id, r.req, r.outcome.dto);
  }
}
