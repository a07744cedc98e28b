/** What every step of the ledger protocol keeps. */
module LedgerInvariant {
  import opened Int64
  import opened Postings
  import opened Ledger

  // ---------------------------------------------------------------- committed tables

  ghost predicate AccountRowOk(db: Tables, a: int)
    requires a in db.accounts
  {
    db.accounts[a].external ==> db.accounts[a].user in db.externals && db.externals[db.accounts[a].user] == a
  }

  ghost predicate ExternalRowOk(db: Tables, u: int)
    requires u in db.externals
  {
    db.externals[u] in db.accounts && db.accounts[db.externals[u]].external && db.accounts[db.externals[u]].user == u
  }

  /** At most one external account per user, and the partial index finds it. */
  ghost predicate AccountsOk(db: Tables) {
    && (forall a {:trigger AccountRowOk(db, a)} :: a in db.accounts ==> AccountRowOk(db, a))
    && (forall u {:trigger ExternalRowOk(db, u)} :: u in db.externals ==> ExternalRowOk(db, u))
  }

  /** Owned by the user, and in the transaction's currency unless it is the external account. */
  predicate Fits(acc: Account, user: int, currency: string) {
    acc.user == user && (!acc.external ==> acc.currency == currency)
  }

  ghost predicate PostingOk(db: Tables, p: Posting) {
    && p.txId in db.headers
    && p.account in db.accounts
    && Fits(db.accounts[p.account], db.headers[p.txId].user, db.headers[p.txId].currency)
    && p.createdAt == db.headers[p.txId].createdAt
  }

  ghost predicate PostingsOk(db: Tables) {
    forall p {:trigger PostingOk(db, p)} :: p in db.postings ==> PostingOk(db, p)
  }

  /** Two postings, x and -x over the integers. */
  predicate Pair(ps: seq<Posting>) {
    |ps| == 2 && ps[0].amount != 0 && ps[0].amount + ps[1].amount == 0
  }

  predicate Opposite(ps: seq<Posting>, qs: seq<Posting>) {
    |ps| == |qs| && forall i :: 0 <= i < |ps| ==> ps[i].account == qs[i].account && ps[i].amount + qs[i].amount == 0
  }

  /** The committed transaction is the one the request asked for. */
  ghost predicate Fulfils(db: Tables, r: Request, h: Header, ps: seq<Posting>)
    requires Pair(ps)
  {
    && h.user == r.user
    && match r
       case CreateReq(user, _, account, amount, currency, at, note) =>
         && h.currency == currency && h.occurredAt == Micros(at) && h.note == note && h.reversalOf.None?
         && ps[0].account == account && ps[0].amount == amount
         && user in db.externals && ps[1].account == db.externals[user]
       case TransferReq(_, _, from, to, amount, currency, at, note) =>
         && h.currency == currency && h.occurredAt == Micros(at) && h.note == note && h.reversalOf.None?
         && ps[0].account == from && ps[1].account == to && ps[1].amount == amount
         && from != to && amount > 0
       case ReverseReq(_, _, txId) => h.reversalOf == Some(txId) && h.note == ReversalNote(txId)
  }

  ghost predicate ReversalOk(db: Tables, h: Header, ps: seq<Posting>) {
    h.reversalOf.Some? ==>
      var o := h.reversalOf.value;
      && o in db.headers && db.headers[o].reversalOf.None?
      && db.headers[o].user == h.user && db.headers[o].currency == h.currency
      && o in db.reversedBy && db.reversedBy[o] == h.id
      && Opposite(ps, PostingsOf(db.postings, o))
  }

  ghost predicate TransactionOk(db: Tables, entry: JournalEntry, h: Header) {
    var ps := PostingsOf(db.postings, h.id);
    && Pair(ps)
    && Fulfils(db, entry.req, h, ps)
    && ReversalOk(db, h, ps)
    && entry.eventId in db.outbox && db.outbox[entry.eventId] == EventFor(h, ps)
    && (entry.req.key != "" ==>
          KeyOf(entry.req) in db.idem && db.idem[KeyOf(entry.req)] ==
            IdemRecord(PayloadOf(entry.req), true, Some(DtoOf(h, ps))))
  }

  ghost predicate KeyRowOk(db: Tables, journal: map<int, JournalEntry>, k: IdemKey)
    requires journal.Keys == db.headers.Keys && k in db.idem
  {
    && k.1 != "" && db.idem[k].response.Some?
    && db.idem[k].response.value.id in db.headers && KeyOf(journal[db.idem[k].response.value.id].req) == k
  }

  ghost predicate ReversedRowOk(db: Tables, o: int)
    requires o in db.reversedBy
  {
    db.reversedBy[o] in db.headers && db.headers[db.reversedBy[o]].reversalOf == Some(o)
  }

  ghost predicate OutboxRowOk(db: Tables, journal: map<int, JournalEntry>, e: int)
    requires journal.Keys == db.headers.Keys && e in db.outbox
  {
    db.outbox[e].txId in db.headers && journal[db.outbox[e].txId].eventId == e
  }

  /** Every key record, reversal and event belongs to a committed transaction. */
  ghost predicate IndexesOk(db: Tables, journal: map<int, JournalEntry>)
    requires journal.Keys == db.headers.Keys
  {
    && (forall k {:trigger KeyRowOk(db, journal, k)} :: k in db.idem ==> KeyRowOk(db, journal, k))
    && (forall o {:trigger ReversedRowOk(db, o)} :: o in db.reversedBy ==> ReversedRowOk(db, o))
    && (forall e {:trigger OutboxRowOk(db, journal, e)} :: e in db.outbox ==> OutboxRowOk(db, journal, e))
  }

  ghost predicate TablesOk(db: Tables, journal: map<int, JournalEntry>) {
    && AccountsOk(db)
    && PostingsOk(db)
    && journal.Keys == db.headers.Keys
    && (forall t :: t in db.headers ==> db.headers[t].id == t)
    && (forall t {:trigger TransactionOk(db, journal[t], db.headers[t])} ::
          t in db.headers ==> TransactionOk(db, journal[t], db.headers[t]))
    && IndexesOk(db, journal)
  }

  /** Sequences are ahead of every id in the tables. */
  ghost predicate IdsOk(db: Tables, ids: Ids) {
    && (forall a :: a in db.accounts ==> a < ids.account)
    && (forall t :: t in db.headers ==> t < ids.tx)
    && (forall e :: e in db.outbox ==> e < ids.event)
  }

  // ---------------------------------------------------------------- open sessions

  /** A success reply is the committed transaction, and what the key record replays. */
  ghost predicate OutcomeOk(db: Tables, r: Request, o: Outcome) {
    match o
    case Err(e) => e != IdempotencyInFlight
    case Ok(d) =>
      && d.id in db.headers && d == DtoOf(db.headers[d.id], PostingsOf(db.postings, d.id))
      && (r.key != "" ==> KeyOf(r) in db.idem && db.idem[KeyOf(r)] == IdemRecord(PayloadOf(r), true, Some(d)))
  }

  ghost predicate LegFits(db: Tables, x: Session, leg: Leg, currency: string) {
    VisibleAccount(db, x, leg.account).Some? && Fits(VisibleAccount(db, x, leg.account).value, x.req.user, currency)
  }

  /** The external account a create's offsetting leg goes to. */
  function ExternalOf(db: Tables, x: Session): Option<int> {
    if x.newAccount.Some? then Some(x.newAccount.value.id)
    else if x.req.user in db.externals then Some(db.externals[x.req.user])
    else None
  }

  ghost predicate LegsOk(db: Tables, x: Session) {
    match x.req
    case CreateReq(_, _, _, _, _, _, _) =>
      ExternalOf(db, x).Some? && x.legs == WithExternalLeg(x.req, ExternalOf(db, x).value)
    case TransferReq(_, _, _, _, _, _, _, _) => x.legs == ExplicitLegs(x.req)
    case ReverseReq(_, _, _) => false
  }

  ghost predicate OrigOk(db: Tables, x: Session, o: Header) {
    && x.req.ReverseReq? && o.id == x.req.txId
    && o.id in db.headers && db.headers[o.id] == o
    && o.user == x.req.user && o.reversalOf.None?
  }

  /** All legs are known and checked; for a reversal they negate the original's postings. */
  ghost predicate Ready(db: Tables, x: Session, orig: Option<Header>) {
    match orig
    case None => LegsOk(db, x) && forall l :: l in x.legs ==> LegFits(db, x, l, x.req.currency)
    case Some(o) => OrigOk(db, x, o) && x.legs == NegatedLegs(PostingsOf(db.postings, o.id))
  }

  function OrigOf(db: Tables, h: Header): Option<Header> {
    if h.reversalOf.Some? && h.reversalOf.value in db.headers then Some(db.headers[h.reversalOf.value]) else None
  }

  ghost predicate HeaderOk(db: Tables, ids: Ids, x: Session, h: Header) {
    && h.id < ids.tx && h.id !in db.headers
    && h.user == x.req.user && h.createdAt == x.startedAt
    && (h.reversalOf.Some? ==> h.reversalOf.value in db.headers && h.reversalOf.value !in db.reversedBy)
    && match OrigOf(db, h)
       case None => !x.req.ReverseReq? && h.reversalOf.None? && h.currency == x.req.currency
         && h.occurredAt == Micros(x.req.occurredAt) && h.note == x.req.note
       case Some(o) => x.req.ReverseReq? && h.currency == o.currency && h.note == ReversalNote(o.id)
  }

  predicate PostingsMatch(x: Session, h: Header) {
    && |x.postings| <= |x.legs|
    && forall i :: 0 <= i < |x.postings| ==>
         && x.postings[i] == Posting(x.postings[i].id, h.id, x.legs[i].account, x.legs[i].amount, x.startedAt)
         && x.legs[i].amount != 0
  }

  ghost predicate Writing(db: Tables, ids: Ids, x: Session, h: Header) {
    Ready(db, x, OrigOf(db, h)) && HeaderOk(db, ids, x, h) && PostingsMatch(x, h)
  }

  ghost predicate EventOk(db: Tables, ids: Ids, x: Session, h: Header, e: int, ev: Event) {
    |x.postings| == |x.legs| && e < ids.event && e !in db.outbox && ev == EventFor(h, x.postings)
  }

  /** A key is held from its claim to the end of the session; nobody has committed it. */
  ghost predicate ClaimOk(db: Tables, x: Session) {
    if x.pc.Start? || x.pc.Existing? || x.pc.Replying? || x.req.key == "" then x.claim.None?
    else x.claim.Some? && x.claim.value.hash == PayloadOf(x.req) && KeyOf(x.req) !in db.idem
  }

  ghost predicate NewAccountOk(db: Tables, ids: Ids, x: Session) {
    x.newAccount.Some? ==>
      var n := x.newAccount.value;
      && x.req.CreateReq? && n.account == Account(x.req.user, x.req.currency, true, true)
      && n.id < ids.account && n.id !in db.accounts && n.account.user !in db.externals
  }

  ghost predicate SessionOk(db: Tables, ids: Ids, x: Session) {
    && ClaimOk(db, x)
    && NewAccountOk(db, ids, x)
    && (x.pc.Replying? || Precheck(x.req).None?)
    && match x.pc
       case Start => x.newAccount.None? && x.postings == []
       case Existing => x.newAccount.None? && x.postings == [] && x.req.key != "" && KeyOf(x.req) in db.idem
       case Claimed => x.newAccount.None? && x.postings == []
       case NoExternal => x.newAccount.None? && x.postings == [] && x.req.CreateReq?
       case Check(i) =>
         && x.postings == [] && LegsOk(db, x) && i <= |x.legs|
         && forall j :: 0 <= j < i ==> LegFits(db, x, x.legs[j], x.req.currency)
       case ListOrig(o) => x.newAccount.None? && x.postings == [] && OrigOk(db, x, o)
       case Insert(o) => x.postings == [] && Ready(db, x, o) && (o.Some? ==> x.newAccount.None?)
       case Post(h, i) => Writing(db, ids, x, h) && |x.postings| == i
       case Emit(h) => Writing(db, ids, x, h) && |x.postings| == |x.legs|
       case Mark(h, e, ev) => Writing(db, ids, x, h) && EventOk(db, ids, x, h, e, ev)
       case Finish(h, e, ev) =>
         && Writing(db, ids, x, h) && EventOk(db, ids, x, h, e, ev)
         && (x.req.key != "" ==> x.claim == Some(IdemRecord(PayloadOf(x.req), true, Some(DtoOf(h, x.postings)))))
       case Replying(o) => x.newAccount.None? && x.postings == [] && OutcomeOk(db, x.req, o)
  }

  /** Two open sessions never hold the same unique key or the same fresh id. */
  ghost predicate Exclusive(x: Session, y: Session) {
    && (x.claim.Some? && y.claim.Some? ==> KeyOf(x.req) != KeyOf(y.req))
    && (x.newAccount.Some? && y.newAccount.Some? ==>
          x.newAccount.value.id != y.newAccount.value.id
            && x.newAccount.value.account.user != y.newAccount.value.account.user)
    && (StagedHeader(x).Some? && StagedHeader(y).Some? ==>
          && StagedHeader(x).value.id != StagedHeader(y).value.id
          && (StagedHeader(x).value.reversalOf.Some? ==>
                StagedHeader(x).value.reversalOf != StagedHeader(y).value.reversalOf))
    && (StagedEvent(x).Some? && StagedEvent(y).Some? ==> StagedEvent(x) != StagedEvent(y))
  }

  // ---------------------------------------------------------------- history

  function CommittedDto(db: Tables, t: int): Dto
    requires t in db.headers
  {
    DtoOf(db.headers[t], PostingsOf(db.postings, t))
  }

  type Sessions = map<nat, Session>

  /** What a call that committed `t` may be told: the transaction, or that the commit was not acknowledged. */
  predicate CommitReply(db: Tables, t: int, o: Outcome)
    requires t in db.headers
  {
    o == Ok(CommittedDto(db, t)) || o == Err(Internal)
  }

  /** The call `sid` that committed transaction `t` has no other reply. */
  ghost predicate CallOk(db: Tables, sid: nat, t: int, sessions: Sessions, nextSid: nat, replies: seq<Reply>)
    requires t in db.headers
  {
    && sid < nextSid
    && (sid in sessions ==> sessions[sid].pc.Replying? && CommitReply(db, t, sessions[sid].pc.outcome))
    && forall r :: r in replies && r.sid == sid ==> CommitReply(db, t, r.outcome)
  }

  ghost predicate JournalOk(db: Tables, journal: map<int, JournalEntry>, sessions: Sessions, nextSid: nat,
      replies: seq<Reply>)
    requires journal.Keys == db.headers.Keys
  {
    && (forall t {:trigger CallOk(db, journal[t].sid, t, sessions, nextSid, replies)} ::
          t in journal ==> CallOk(db, journal[t].sid, t, sessions, nextSid, replies))
    && (forall t, u {:trigger journal[t].sid, journal[u].sid} ::
          t in journal && u in journal && journal[t].sid == journal[u].sid ==> t == u)
  }

  ghost predicate ReplyOk(db: Tables, sessions: Sessions, nextSid: nat, r: Reply) {
    r.sid < nextSid && r.sid !in sessions && OutcomeOk(db, r.req, r.outcome)
  }

  ghost predicate RepliesOk(db: Tables, sessions: Sessions, nextSid: nat, replies: seq<Reply>) {
    && (forall sid :: sid in sessions ==> sid < nextSid)
    && (forall r {:trigger ReplyOk(db, sessions, nextSid, r)} :: r in replies ==> ReplyOk(db, sessions, nextSid, r))
  }

  ghost predicate SessionsOk(db: Tables, ids: Ids, sessions: Sessions) {
    forall sid {:trigger SessionOk(db, ids, sessions[sid])} :: sid in sessions ==> SessionOk(db, ids, sessions[sid])
  }

  ghost predicate AllExclusive(sessions: Sessions) {
    forall a, b {:trigger Exclusive(sessions[a], sessions[b])} ::
      a in sessions && b in sessions && a != b ==> Exclusive(sessions[a], sessions[b])
  }

  ghost predicate Inv(s: State) {
    && TablesOk(s.db, s.journal)
    && IdsOk(s.db, s.ids)
    && SessionsOk(s.db, s.ids, s.sessions)
    && AllExclusive(s.sessions)
    && RepliesOk(s.db, s.sessions, s.nextSid, s.replies)
    && JournalOk(s.db, s.journal, s.sessions, s.nextSid, s.replies)
  }

  // ---------------------------------------------------------------- the tables only grow

  ghost predicate Grows(a: Tables, b: Tables) {
    && (forall k :: k in a.accounts ==>
          k in b.accounts && b.accounts[k].(active := true) == a.accounts[k].(active := true))
    && (forall k :: k in a.externals ==> k in b.externals && b.externals[k] == a.externals[k])
    && (forall k :: k in a.headers ==> k in b.headers && b.headers[k] == a.headers[k])
    && (forall k :: k in a.reversedBy ==> k in b.reversedBy && b.reversedBy[k] == a.reversedBy[k])
    && (forall k :: k in a.idem ==> k in b.idem && b.idem[k] == a.idem[k])
    && (forall k :: k in a.outbox ==> k in b.outbox && b.outbox[k] == a.outbox[k])
    && (forall t :: t in a.headers ==> PostingsOf(b.postings, t) == PostingsOf(a.postings, t))
  }

  lemma TransactionStable(a: Tables, b: Tables, entry: JournalEntry, h: Header)
    requires Grows(a, b) && h.id in a.headers && TransactionOk(a, entry, h)
    ensures TransactionOk(b, entry, h)
  {
  }

  /** What `b` added does not collide with what session `x` has staged. */
  ghost predicate Apart(b: Tables, x: Session) {
    && (x.claim.Some? ==> KeyOf(x.req) !in b.idem)
    && (x.newAccount.Some? ==> x.newAccount.value.id !in b.accounts && x.newAccount.value.account.user !in b.externals)
    && (StagedHeader(x).Some? ==>
          && StagedHeader(x).value.id !in b.headers
          && (StagedHeader(x).value.reversalOf.Some? ==> StagedHeader(x).value.reversalOf.value !in b.reversedBy))
    && (StagedEvent(x).Some? ==> StagedEvent(x).value !in b.outbox)
  }

  lemma LegFitsStable(a: Tables, b: Tables, x: Session, leg: Leg, currency: string)
    requires Grows(a, b) && LegFits(a, x, leg, currency)
    ensures LegFits(b, x, leg, currency)
  {
  }

  lemma WritingStable(a: Tables, b: Tables, i: Ids, j: Ids, x: Session, h: Header)
    requires Grows(a, b) && Apart(b, x) && StagedHeader(x) == Some(h)
    requires i.tx <= j.tx && Writing(a, i, x, h)
    ensures Writing(b, j, x, h)
  {
    assert HeaderOk(a, i, x, h);
    if h.reversalOf.Some? {
      var o: int := h.reversalOf.value;
      assert o in a.headers;
    }
    assert OrigOf(b, h) == OrigOf(a, h);
    if OrigOf(a, h).None? {
      forall l | l in x.legs ensures LegFits(b, x, l, x.req.currency) {
        LegFitsStable(a, b, x, l, x.req.currency);
      }
    }
  }

  ghost predicate IdsGrow(i: Ids, j: Ids) {
    i.account <= j.account && i.tx <= j.tx && i.posting <= j.posting && i.event <= j.event
  }

  ghost predicate Early(x: Session) {
    StagedHeader(x).None?
  }

  lemma EarlyStable(a: Tables, b: Tables, i: Ids, j: Ids, x: Session)
    requires Grows(a, b) && Apart(b, x) && IdsGrow(i, j) && SessionOk(a, i, x) && Early(x)
    ensures SessionOk(b, j, x)
  {
    match x.pc
    case Check(n) =>
      forall k | 0 <= k < n ensures LegFits(b, x, x.legs[k], x.req.currency) {
        LegFitsStable(a, b, x, x.legs[k], x.req.currency);
      }
    case Insert(o) =>
      if o.None? {
        forall l | l in x.legs ensures LegFits(b, x, l, x.req.currency) {
          LegFitsStable(a, b, x, l, x.req.currency);
        }
      }
    case _ =>
  }

  lemma SessionStable(a: Tables, b: Tables, i: Ids, j: Ids, x: Session)
    requires Grows(a, b) && Apart(b, x) && IdsGrow(i, j) && SessionOk(a, i, x)
    ensures SessionOk(b, j, x)
  {
    if Early(x) {
      EarlyStable(a, b, i, j, x);
    } else {
      WritingStable(a, b, i, j, x, StagedHeader(x).value);
    }
  }
}
