/**
 * The ledger write protocol as a step system. A state holds the committed tables and any
 * number of open DB transactions ("sessions") with their staged writes; one step runs one
 * SQL statement of one session, ends a session, or is a move of the environment.
 * READ COMMITTED: a statement sees the committed tables and its own session's writes.
 * A statement that would have to wait for another session's uncommitted unique key is
 * not enabled.
 */
module Ledger {
  import opened Int64
  import opened Postings
  import Text

  // ---------------------------------------------------------------- requests

  datatype Leg = Leg(account: int, amount: I64)

  datatype Request =
    | CreateReq(user: int, key: string, account: int, amount: I64, currency: string, occurredAt: int, note: string)
    | TransferReq(user: int, key: string, from: int, to: int, amount: I64, currency: string, occurredAt: int,
      note: string)
    | ReverseReq(user: int, key: string, txId: int)

  type IdemKey = (int, string)

  function KeyOf(r: Request): IdemKey { (r.user, r.key) }

  /** What the request hash covers; SHA-256 over the canonical JSON is taken as injective. */
  datatype Payload =
    | BalancedPayload(user: int, legs: seq<Leg>, external: bool, currency: string, occurredAt: int, note: string)
    | ReversePayload(user: int, txId: int)

  function ExplicitLegs(r: Request): seq<Leg> {
    match r
    case CreateReq(_, _, account, amount, _, _, _) => [Leg(account, amount)]
    case TransferReq(_, _, from, to, amount, _, _, _) => [Leg(from, Negate(amount)), Leg(to, amount)]
    case ReverseReq(_, _, _) => []
  }

  function PayloadOf(r: Request): Payload {
    match r
    case CreateReq(user, _, _, _, currency, at, note) =>
      BalancedPayload(user, ExplicitLegs(r), true, currency, at, note)
    case TransferReq(user, _, _, _, _, currency, at, note) =>
      BalancedPayload(user, ExplicitLegs(r), false, currency, at, note)
    case ReverseReq(user, _, txId) => ReversePayload(user, txId)
  }

  datatype Error =
    | AccountNotFound | Forbidden | AccountInactive | CurrencyMismatch | Unbalanced | ZeroAmount
    | IdempotencyConflict | IdempotencyInFlight | TxNotFound | AlreadyReversed | IsReversal
    | Internal  // any other database error

  // ---------------------------------------------------------------- rows

  datatype Account = Account(user: int, currency: string, active: bool, external: bool)

  datatype Header = Header(
    id: int, user: int, currency: string, occurredAt: int, note: string,
    reversalOf: Option<int>, createdAt: int)

  datatype PostingDto = PostingDto(id: int, account: int, amount: I64)

  datatype Dto = Dto(
    id: int, user: int, currency: string, occurredAt: int, note: string,
    reversalOf: Option<int>, postings: seq<PostingDto>, createdAt: int)

  datatype EventType = TransactionCreated | TransactionReversed

  datatype Event = Event(
    eventType: EventType, txId: int, reversalOf: Option<int>, user: int, currency: string,
    occurredAt: int, postings: seq<PostingDto>)

  datatype IdemRecord = IdemRecord(hash: Payload, succeeded: bool, response: Option<Dto>)

  /**
   * The committed tables. `externals` is the partial unique index on accounts(user_id) and
   * `reversedBy` the unique index on transactions(reversal_of).
   */
  datatype Tables = Tables(
    accounts: map<int, Account>, externals: map<int, int>,
    headers: map<int, Header>, reversedBy: map<int, int>,
    postings: seq<Posting>, idem: map<IdemKey, IdemRecord>, outbox: map<int, Event>)

  function PostingDtos(ps: seq<Posting>): (r: seq<PostingDto>)
    ensures |r| == |ps|
  {
    seq(|ps|, i requires 0 <= i < |ps| => PostingDto(ps[i].id, ps[i].account, ps[i].amount))
  }

  function DtoOf(h: Header, ps: seq<Posting>): Dto {
    Dto(h.id, h.user, h.currency, h.occurredAt, h.note, h.reversalOf, PostingDtos(ps), h.createdAt)
  }

  function EventFor(h: Header, ps: seq<Posting>): Event {
    Event(if h.reversalOf.None? then TransactionCreated else TransactionReversed,
          h.id, h.reversalOf, h.user, h.currency, h.occurredAt, PostingDtos(ps))
  }

  // ---------------------------------------------------------------- sessions

  datatype Outcome = Ok(dto: Dto) | Err(error: Error)

  /** The next statement of a session; `Replying` means its DB transaction has ended. */
  datatype Pc =
    | Start                                         // INSERT the idempotency key
    | Existing                                      // SELECT the existing key record
    | Claimed                                       // SELECT the external account or the original
    | NoExternal                                    // INSERT the external account
    | Check(i: nat)                                 // SELECT the account of leg i
    | ListOrig(orig: Header)                        // SELECT the original's postings
    | Insert(reversed: Option<Header>)              // INSERT the header
    | Post(header: Header, i: nat)                  // INSERT posting i
    | Emit(header: Header)                          // INSERT the outbox event
    | Mark(header: Header, eventId: int, event: Event)    // UPDATE the key record
    | Finish(header: Header, eventId: int, event: Event)  // COMMIT
    | Replying(outcome: Outcome)

  datatype NewAccount = NewAccount(id: int, account: Account)

  datatype Session = Session(
    req: Request, startedAt: int, pc: Pc, legs: seq<Leg>,
    claim: Option<IdemRecord>, newAccount: Option<NewAccount>, postings: seq<Posting>)

  function StagedHeader(x: Session): Option<Header> {
    match x.pc
    case Post(h, _) => Some(h)
    case Emit(h) => Some(h)
    case Mark(h, _, _) => Some(h)
    case Finish(h, _, _) => Some(h)
    case _ => None
  }

  function StagedEvent(x: Session): Option<int> {
    match x.pc
    case Mark(_, e, _) => Some(e)
    case Finish(_, e, _) => Some(e)
    case _ => None
  }

  /** Sequences are never rolled back. */
  datatype Ids = Ids(account: int, tx: int, posting: int, event: int)

  /** History: which call committed a transaction, and the event it wrote. */
  datatype JournalEntry = JournalEntry(sid: nat, req: Request, eventId: int)

  /** History: what a call returned to its client. */
  datatype Reply = Reply(sid: nat, req: Request, outcome: Outcome)

  datatype State = State(
    db: Tables, sessions: map<nat, Session>, ids: Ids, clock: int, nextSid: nat,
    journal: map<int, JournalEntry>, replies: seq<Reply>)

  function Init(clock: int): State {
    State(Tables(map[], map[], map[], map[], [], map[], map[]), map[], Ids(1, 1, 1, 1), clock, 0, map[], [])
  }

  // ---------------------------------------------------------------- checks before the DB

  function WrapSum(legs: seq<Leg>): I64 {
    if legs == [] then 0 else Wrap(WrapSum(legs[..|legs| - 1]) + legs[|legs| - 1].amount)
  }

  predicate HasZero(legs: seq<Leg>) {
    exists i :: 0 <= i < |legs| && legs[i].amount == 0
  }

  function LegsError(legs: seq<Leg>, useExternal: bool): Option<Error> {
    if HasZero(legs) then Some(ZeroAmount)
    else if !useExternal && WrapSum(legs) != 0 then Some(Unbalanced)
    else None
  }

  /** Errors returned before a DB transaction is opened. */
  function Precheck(r: Request): Option<Error> {
    match r
    case CreateReq(_, _, _, amount, _, _, _) =>
      if amount == 0 then Some(ZeroAmount) else LegsError(ExplicitLegs(r), true)
    case TransferReq(_, _, from, to, amount, _, _, _) =>
      if amount <= 0 then Some(ZeroAmount)
      else if from == to then Some(Unbalanced)
      else LegsError(ExplicitLegs(r), false)
    case ReverseReq(_, _, _) => None
  }

  // ---------------------------------------------------------------- steps of a session

  function Put(s: State, sid: nat, x: Session): State {
    s.(sessions := s.sessions[sid := x])
  }

  /** The DB transaction ends (its staged writes are gone) and the call is about to return. */
  function Settle(s: State, sid: nat, outcome: Outcome): State
    requires sid in s.sessions
  {
    var x := s.sessions[sid];
    Put(s, sid, Session(x.req, x.startedAt, Replying(outcome), [], None, None, []))
  }

  predicate ClaimHeld(s: State, sid: nat, k: IdemKey) {
    exists t :: t in s.sessions && t != sid && s.sessions[t].claim.Some? && KeyOf(s.sessions[t].req) == k
  }

  predicate ExternalHeld(s: State, sid: nat, user: int) {
    exists t :: t in s.sessions && t != sid && s.sessions[t].newAccount.Some?
      && s.sessions[t].newAccount.value.account.user == user
  }

  predicate ReversalHeld(s: State, sid: nat, orig: int) {
    exists t :: t in s.sessions && t != sid && StagedHeader(s.sessions[t]).Some?
      && StagedHeader(s.sessions[t]).value.reversalOf == Some(orig)
  }

  function ClaimKey(s: State, sid: nat, x: Session): Option<State>
    requires sid in s.sessions
  {
    if x.req.key == "" then Some(Put(s, sid, x.(pc := Claimed)))
    else if ClaimHeld(s, sid, KeyOf(x.req)) then None
    else if KeyOf(x.req) in s.db.idem then Some(Put(s, sid, x.(pc := Existing)))
    else Some(Put(s, sid, x.(pc := Claimed, claim := Some(IdemRecord(PayloadOf(x.req), false, None)))))
  }

  function ReadKey(s: State, sid: nat, x: Session): State
    requires sid in s.sessions
  {
    if KeyOf(x.req) !in s.db.idem then Settle(s, sid, Err(Internal))
    else
      var rec := s.db.idem[KeyOf(x.req)];
      if rec.hash != PayloadOf(x.req) then Settle(s, sid, Err(IdempotencyConflict))
      else if rec.succeeded && rec.response.Some? then Settle(s, sid, Ok(rec.response.value))
      else Settle(s, sid, Err(IdempotencyInFlight))
  }

  /** The explicit legs and the offsetting leg on the external account. */
  function WithExternalLeg(r: Request, ext: int): seq<Leg> {
    ExplicitLegs(r) + [Leg(ext, Negate(WrapSum(ExplicitLegs(r))))]
  }

  function Resolve(s: State, sid: nat, x: Session): State
    requires sid in s.sessions
  {
    match x.req
    case CreateReq(user, _, _, _, _, _, _) =>
      if user in s.db.externals
      then Put(s, sid, x.(pc := Check(0), legs := WithExternalLeg(x.req, s.db.externals[user])))
      else Put(s, sid, x.(pc := NoExternal))
    case TransferReq(_, _, _, _, _, _, _, _) =>
      Put(s, sid, x.(pc := Check(0), legs := ExplicitLegs(x.req)))
    case ReverseReq(user, _, txId) =>
      if txId !in s.db.headers || s.db.headers[txId].user != user then Settle(s, sid, Err(TxNotFound))
      else if s.db.headers[txId].reversalOf.Some? then Settle(s, sid, Err(IsReversal))
      else Put(s, sid, x.(pc := ListOrig(s.db.headers[txId])))
  }

  function CreateExternal(s: State, sid: nat, x: Session): Option<State>
    requires sid in s.sessions && !x.req.ReverseReq?
  {
    var user := x.req.user;
    if user in s.db.externals then Some(Settle(s, sid, Err(Internal)))
    else if ExternalHeld(s, sid, user) then None
    else
      var ext := s.ids.account;
      var acc := NewAccount(ext, Account(user, x.req.currency, true, true));
      Some(Put(s, sid, x.(pc := Check(0), legs := WithExternalLeg(x.req, ext), newAccount := Some(acc)))
           .(ids := s.ids.(account := ext + 1)))
  }

  /** The account as the session's own statements see it. */
  function VisibleAccount(db: Tables, x: Session, a: int): Option<Account> {
    if x.newAccount.Some? && x.newAccount.value.id == a then Some(x.newAccount.value.account)
    else if a in db.accounts then Some(db.accounts[a])
    else None
  }

  function CheckLeg(s: State, sid: nat, x: Session, i: nat): State
    requires sid in s.sessions && !x.req.ReverseReq?
  {
    if i >= |x.legs| then Put(s, sid, x.(pc := Insert(None)))
    else
      var acc := VisibleAccount(s.db, x, x.legs[i].account);
      if acc.None? then Settle(s, sid, Err(AccountNotFound))
      else if acc.value.user != x.req.user then Settle(s, sid, Err(Forbidden))
      else if !acc.value.active then Settle(s, sid, Err(AccountInactive))
      else if !acc.value.external && acc.value.currency != x.req.currency then Settle(s, sid, Err(CurrencyMismatch))
      else Put(s, sid, x.(pc := Check(i + 1)))
  }

  function NegatedLegs(ps: seq<Posting>): (r: seq<Leg>)
    ensures |r| == |ps|
    ensures forall i :: 0 <= i < |ps| ==> r[i] == Leg(ps[i].account, Negate(ps[i].amount))
  {
    if ps == [] then [] else [Leg(ps[0].account, Negate(ps[0].amount))] + NegatedLegs(ps[1..])
  }

  function ListOriginal(s: State, sid: nat, x: Session, orig: Header): State
    requires sid in s.sessions
  {
    var ps := PostingsOf(s.db.postings, orig.id);
    if ps == [] then Settle(s, sid, Err(TxNotFound))
    else Put(s, sid, x.(pc := Insert(Some(orig)), legs := NegatedLegs(ps)))
  }

  function ReversalNote(orig: int): string { "reversal of transaction " + Text.Decimal(orig) }

  /** TIMESTAMPTZ keeps microseconds; the driver drops the rest. */
  function Micros(t: int): (r: int)
    ensures r <= t < r + 1000
  {
    t / 1000 * 1000
  }

  function NewHeader(s: State, x: Session, orig: Option<Header>): Header
    requires orig.None? ==> !x.req.ReverseReq?
  {
    match orig
    case None => Header(s.ids.tx, x.req.user, x.req.currency, Micros(x.req.occurredAt), x.req.note, None, x.startedAt)
    case Some(o) => Header(s.ids.tx, x.req.user, o.currency, Micros(s.clock), ReversalNote(o.id), Some(o.id),
      x.startedAt)
  }

  function InsertHeader(s: State, sid: nat, x: Session, orig: Option<Header>): Option<State>
    requires sid in s.sessions && (orig.None? ==> !x.req.ReverseReq?)
  {
    if orig.Some? && orig.value.id in s.db.reversedBy then Some(Settle(s, sid, Err(AlreadyReversed)))
    else if orig.Some? && ReversalHeld(s, sid, orig.value.id) then None
    else Some(Put(s, sid, x.(pc := Post(NewHeader(s, x, orig), 0))).(ids := s.ids.(tx := s.ids.tx + 1)))
  }

  function InsertPosting(s: State, sid: nat, x: Session, h: Header, i: nat): State
    requires sid in s.sessions
  {
    if i >= |x.legs| then Put(s, sid, x.(pc := Emit(h)))
    else if x.legs[i].amount == 0 || VisibleAccount(s.db, x, x.legs[i].account).None?
    then Settle(s, sid, Err(Internal))  // CHECK and foreign key on postings
    else
      var p := Posting(s.ids.posting, h.id, x.legs[i].account, x.legs[i].amount, x.startedAt);
      Put(s, sid, x.(pc := Post(h, i + 1), postings := x.postings + [p]))
      .(ids := s.ids.(posting := s.ids.posting + 1))
  }

  function InsertEvent(s: State, sid: nat, x: Session, h: Header): State
    requires sid in s.sessions
  {
    Put(s, sid, x.(pc := Mark(h, s.ids.event, EventFor(h, x.postings))))
    .(ids := s.ids.(event := s.ids.event + 1))
  }

  /** UPDATE ... WHERE user, key and hash match; without a key there is nothing to mark. */
  function MarkSuccess(s: State, sid: nat, x: Session, h: Header, e: int, ev: Event): State
    requires sid in s.sessions
  {
    var claim' :=
      if x.req.key != "" && x.claim.Some? && x.claim.value.hash == PayloadOf(x.req)
      then Some(IdemRecord(x.claim.value.hash, true, Some(DtoOf(h, x.postings))))
      else x.claim;
    Put(s, sid, x.(pc := Finish(h, e, ev), claim := claim'))
  }

  function Merge(db: Tables, x: Session, h: Header, e: int, ev: Event): Tables {
    Tables(
      if x.newAccount.Some? then db.accounts[x.newAccount.value.id := x.newAccount.value.account] else db.accounts,
      if x.newAccount.Some? then db.externals[x.newAccount.value.account.user := x.newAccount.value.id]
        else db.externals,
      db.headers[h.id := h],
      if h.reversalOf.Some? then db.reversedBy[h.reversalOf.value := h.id] else db.reversedBy,
      db.postings + x.postings,
      if x.claim.Some? then db.idem[KeyOf(x.req) := x.claim.value] else db.idem,
      db.outbox[e := ev])
  }

  /** COMMIT: the deferred trigger re-sums the transaction's postings over the table. */
  function Commit(s: State, sid: nat, x: Session, h: Header, e: int, ev: Event): State
    requires sid in s.sessions
  {
    var db' := Merge(s.db, x, h, e, ev);
    if Sum(db'.postings, OfTx(h.id)) != 0 then Settle(s, sid, Err(Internal))
    else
      Settle(s, sid, Ok(DtoOf(h, x.postings)))
      .(db := db', journal := s.journal[h.id := JournalEntry(sid, x.req, e)])
  }

  /** COMMIT as the service sees it when the connection breaks before the acknowledgement. */
  function CommitUnacked(s: State, sid: nat, x: Session, h: Header, e: int, ev: Event): State
    requires sid in s.sessions
  {
    Settle(Commit(s, sid, x, h, e, ev), sid, Err(Internal))
  }

  function Deliver(s: State, sid: nat, x: Session, o: Outcome): State {
    s.(sessions := s.sessions - {sid}, replies := s.replies + [Reply(sid, x.req, o)])
  }

  /** Run the next statement of session `sid`, or hand its reply to the client. */
  function AdvanceSession(s: State, sid: nat): Option<State>
    requires sid in s.sessions
  {
    var x := s.sessions[sid];
    match x.pc
    case Start => ClaimKey(s, sid, x)
    case Existing => Some(ReadKey(s, sid, x))
    case Claimed => Some(Resolve(s, sid, x))
    case NoExternal => if x.req.ReverseReq? then None else CreateExternal(s, sid, x)
    case Check(i) => if x.req.ReverseReq? then None else Some(CheckLeg(s, sid, x, i))
    case ListOrig(o) => Some(ListOriginal(s, sid, x, o))
    case Insert(o) => if o.None? && x.req.ReverseReq? then None else InsertHeader(s, sid, x, o)
    case Post(h, i) => Some(InsertPosting(s, sid, x, h, i))
    case Emit(h) => Some(InsertEvent(s, sid, x, h))
    case Mark(h, e, ev) => Some(MarkSuccess(s, sid, x, h, e, ev))
    case Finish(h, e, ev) => Some(Commit(s, sid, x, h, e, ev))
    case Replying(o) => Some(Deliver(s, sid, x, o))
  }

  // ---------------------------------------------------------------- the step system

  datatype Label =
    | Begin(req: Request)
    | Advance(sid: nat)
    | Fail(sid: nat)       // a statement, or COMMIT, fails: rolled back and answered with an error
    | LoseAck(sid: nat)    // COMMIT succeeds but its acknowledgement is lost: answered with an error
    | Abort(sid: nat)      // the caller is gone: a crash, or the reply is lost
    | Tick(elapsed: nat)
    | OpenAccount(user: int, currency: string)
    | Deactivate(account: int)

  function BeginCall(s: State, req: Request): State {
    var err := Precheck(req);
    if err.Some?
    then s.(nextSid := s.nextSid + 1, replies := s.replies + [Reply(s.nextSid, req, Err(err.value))])
    else Put(s, s.nextSid, Session(req, s.clock, Start, [], None, None, [])).(nextSid := s.nextSid + 1)
  }

  /** `None`: the step is not enabled (no such session, or its statement waits for a lock). */
  function Step(s: State, l: Label): Option<State> {
    match l
    case Begin(req) => Some(BeginCall(s, req))
    case Advance(sid) => if sid in s.sessions then AdvanceSession(s, sid) else None
    case Fail(sid) => if sid in s.sessions && !s.sessions[sid].pc.Replying? then Some(Settle(s, sid, Err(Internal)))
      else None
    case LoseAck(sid) =>
      if sid in s.sessions && s.sessions[sid].pc.Finish?
      then var x := s.sessions[sid]; Some(CommitUnacked(s, sid, x, x.pc.header, x.pc.eventId, x.pc.event))
      else None
    case Abort(sid) => if sid in s.sessions then Some(s.(sessions := s.sessions - {sid})) else None
    case Tick(d) => Some(s.(clock := s.clock + d))
    case OpenAccount(user, currency) =>
      Some(s.(db := s.db.(accounts := s.db.accounts[s.ids.account := Account(user, currency, true, false)]),
              ids := s.ids.(account := s.ids.account + 1)))
    case Deactivate(a) =>
      if a in s.db.accounts
      then Some(s.(db := s.db.(accounts := s.db.accounts[a := s.db.accounts[a].(active := false)])))
      else None
  }

  /** A run: steps that are not enabled are skipped. */
  function Run(s: State, ls: seq<Label>): State {
    if ls == [] then s
    else
      var s0 := Run(s, ls[..|ls| - 1]);
      match Step(s0, ls[|ls| - 1])
      case None => s0
      case Some(s') => s'
  }

  ghost predicate Reachable(s: State) {
    exists clock: int, ls: seq<Label> :: s == Run(Init(clock), ls)
  }
}
