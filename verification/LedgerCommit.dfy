/** The commit step: the deferred trigger passed, and the staged writes join the tables. */
module LedgerCommit {
  import opened Int64
  import opened Postings
  import opened Ledger
  import opened LedgerInvariant
  import opened LedgerSteps

  ghost predicate Committing(db: Tables, ids: Ids, journal: map<int, JournalEntry>, x: Session, h: Header, e: int,
      ev: Event) {
    && TablesOk(db, journal) && IdsOk(db, ids)
    && SessionOk(db, ids, x) && x.pc == Finish(h, e, ev)
    && Sum(Merge(db, x, h, e, ev).postings, OfTx(h.id)) == 0
  }

  lemma StagedPostings(db: Tables, x: Session, h: Header, t: int)
    requires PostingsOk(db) && h.id !in db.headers && PostingsMatch(x, h)
    ensures PostingsOf(db.postings + x.postings, t) == if t == h.id then x.postings else PostingsOf(db.postings, t)
    ensures Sum(db.postings + x.postings, OfTx(h.id)) == Sum(x.postings, OfTx(h.id))
  {
    forall p | p in db.postings ensures p.txId != h.id {
      assert PostingOk(db, p);
    }
    SelectConcat(db.postings, x.postings, OfTx(t));
    SumConcat(db.postings, x.postings, OfTx(h.id));
    SumNone(db.postings, OfTx(h.id));
    if t == h.id {
      SelectNone(db.postings, OfTx(t));
      SelectAll(x.postings, OfTx(t));
    } else {
      SelectNone(x.postings, OfTx(t));
    }
  }

  lemma MergeGrows(db: Tables, ids: Ids, journal: map<int, JournalEntry>, x: Session, h: Header, e: int, ev: Event)
    requires Committing(db, ids, journal, x, h, e, ev)
    ensures Grows(db, Merge(db, x, h, e, ev))
  {
    forall t | t in db.headers ensures PostingsOf(Merge(db, x, h, e, ev).postings, t) == PostingsOf(db.postings, t) {
      StagedPostings(db, x, h, t);
    }
  }

  /** Every leg's account exists once the staged account is merged, and still fits. */
  lemma LegsFitMerged(db: Tables, ids: Ids, journal: map<int, JournalEntry>, x: Session, h: Header, e: int,
      ev: Event, l: Leg)
    requires Committing(db, ids, journal, x, h, e, ev) && l in x.legs
    ensures var m := Merge(db, x, h, e, ev); l.account in m.accounts && Fits(m.accounts[l.account], h.user, h.currency)
  {
    var o := OrigOf(db, h);
    if o.None? {
      assert LegFits(db, x, l, x.req.currency);
    } else {
      var ps := PostingsOf(db.postings, o.value.id);
      var i :| 0 <= i < |x.legs| && x.legs[i] == l;
      assert ps[i] in db.postings;
      assert PostingOk(db, ps[i]);
    }
  }

  lemma PostingsMerged(db: Tables, ids: Ids, journal: map<int, JournalEntry>, x: Session, h: Header, e: int, ev: Event)
    requires Committing(db, ids, journal, x, h, e, ev)
    ensures PostingsOk(Merge(db, x, h, e, ev))
  {
    var m := Merge(db, x, h, e, ev);
    MergeGrows(db, ids, journal, x, h, e, ev);
    forall p | p in m.postings ensures PostingOk(m, p) {
      if p in db.postings {
        assert PostingOk(db, p);
      } else {
        var i :| 0 <= i < |x.postings| && x.postings[i] == p;
        LegsFitMerged(db, ids, journal, x, h, e, ev, x.legs[i]);
      }
    }
  }

  /** The trigger's exact sum leaves exactly the pairs x, -x; -2^63 cannot take part in one. */
  lemma StagedPair(db: Tables, ids: Ids, journal: map<int, JournalEntry>, x: Session, h: Header, e: int, ev: Event)
    requires Committing(db, ids, journal, x, h, e, ev)
    ensures Pair(x.postings)
    ensures !x.req.ReverseReq? ==> x.legs[0] == ExplicitLegs(x.req)[0]
    ensures x.req.CreateReq? ==> x.legs[1].account == ExternalOf(db, x).value
    ensures x.req.TransferReq? ==> x.legs[1] == ExplicitLegs(x.req)[1]
  {
    var o := OrigOf(db, h);
    if o.Some? {
      assert TransactionOk(db, journal[o.value.id], db.headers[o.value.id]);
    }
    assert |x.legs| == 2;
    StagedPostings(db, x, h, h.id);
    assert Sum(x.postings, OfTx(h.id)) == 0;
    assert x.postings[1..][1..] == [];
    assert x.postings[0].txId == h.id && x.postings[1].txId == h.id;
    assert Sum(x.postings[1..], OfTx(h.id)) == x.postings[1].amount;
  }

  lemma StagedOpposite(db: Tables, ids: Ids, journal: map<int, JournalEntry>, x: Session, h: Header, e: int, ev: Event)
    requires Committing(db, ids, journal, x, h, e, ev) && h.reversalOf.Some?
    ensures Opposite(x.postings, PostingsOf(db.postings, h.reversalOf.value))
  {
    var o: int := h.reversalOf.value;
    assert o in db.headers;
    assert TransactionOk(db, journal[o], db.headers[o]);
    var ps := PostingsOf(db.postings, o);
    assert x.legs == NegatedLegs(ps);
    assert Pair(ps);
    assert ps[0].amount != -TWO_63 && ps[1].amount != -TWO_63;
  }

  lemma StagedFulfils(db: Tables, m: Tables, ids: Ids, x: Session, h: Header)
    requires Writing(db, ids, x, h) && Precheck(x.req).None? && Pair(x.postings) && |x.legs| == 2
    requires h.reversalOf.Some? ==> db.headers[h.reversalOf.value].id == h.reversalOf.value
    requires !x.req.ReverseReq? ==> x.legs[0] == ExplicitLegs(x.req)[0]
    requires x.req.CreateReq? ==> x.req.user in m.externals && x.legs[1].account == m.externals[x.req.user]
    requires x.req.TransferReq? ==> x.legs[1] == ExplicitLegs(x.req)[1]
    ensures Fulfils(m, x.req, h, x.postings)
  {
    var o := OrigOf(db, h);
    assert x.postings[0].account == x.legs[0].account && x.postings[1].account == x.legs[1].account;
    assert x.postings[0].amount == x.legs[0].amount && x.postings[1].amount == x.legs[1].amount;
  }

  lemma FulfilsMerged(db: Tables, ids: Ids, journal: map<int, JournalEntry>, x: Session, h: Header, e: int, ev: Event)
    requires Committing(db, ids, journal, x, h, e, ev) && Pair(x.postings)
    ensures Fulfils(Merge(db, x, h, e, ev), x.req, h, x.postings)
  {
    StagedPair(db, ids, journal, x, h, e, ev);
    StagedFulfils(db, Merge(db, x, h, e, ev), ids, x, h);
  }

  lemma ReversalMerged(db: Tables, ids: Ids, journal: map<int, JournalEntry>, x: Session, h: Header, e: int, ev: Event)
    requires Committing(db, ids, journal, x, h, e, ev)
    ensures ReversalOk(Merge(db, x, h, e, ev), h, x.postings)
  {
    if h.reversalOf.Some? {
      var o: int := h.reversalOf.value;
      assert o in db.headers;
      StagedOpposite(db, ids, journal, x, h, e, ev);
      StagedPostings(db, x, h, o);
    }
  }

  lemma NewTransactionOk(db: Tables, ids: Ids, journal: map<int, JournalEntry>, x: Session, h: Header, e: int,
      ev: Event, sid: nat)
    requires Committing(db, ids, journal, x, h, e, ev)
    ensures TransactionOk(Merge(db, x, h, e, ev), JournalEntry(sid, x.req, e), h)
  {
    StagedPair(db, ids, journal, x, h, e, ev);
    StagedPostings(db, x, h, h.id);
    ReversalMerged(db, ids, journal, x, h, e, ev);
    FulfilsMerged(db, ids, journal, x, h, e, ev);
  }

  lemma KeyRowMerged(db: Tables, ids: Ids, journal: map<int, JournalEntry>, x: Session, h: Header, e: int, ev: Event,
      sid: nat, k: IdemKey)
    requires Committing(db, ids, journal, x, h, e, ev) && k in Merge(db, x, h, e, ev).idem
    ensures KeyRowOk(Merge(db, x, h, e, ev), journal[h.id := JournalEntry(sid, x.req, e)], k)
  {
    if k in db.idem {
      assert KeyRowOk(db, journal, k);
    }
  }

  lemma OutboxRowMerged(db: Tables, ids: Ids, journal: map<int, JournalEntry>, x: Session, h: Header, e: int,
      ev: Event, sid: nat, n: int)
    requires Committing(db, ids, journal, x, h, e, ev) && n in Merge(db, x, h, e, ev).outbox
    ensures OutboxRowOk(Merge(db, x, h, e, ev), journal[h.id := JournalEntry(sid, x.req, e)], n)
  {
    if n in db.outbox {
      assert OutboxRowOk(db, journal, n);
    }
  }

  lemma IndexesMerged(db: Tables, ids: Ids, journal: map<int, JournalEntry>, x: Session, h: Header, e: int,
      ev: Event, sid: nat)
    requires Committing(db, ids, journal, x, h, e, ev)
    ensures IndexesOk(Merge(db, x, h, e, ev), journal[h.id := JournalEntry(sid, x.req, e)])
  {
    var m := Merge(db, x, h, e, ev);
    var journal' := journal[h.id := JournalEntry(sid, x.req, e)];
    forall k | k in m.idem ensures KeyRowOk(m, journal', k) {
      KeyRowMerged(db, ids, journal, x, h, e, ev, sid, k);
    }
    forall o | o in m.reversedBy ensures ReversedRowOk(m, o) {
      if o in db.reversedBy {
        assert ReversedRowOk(db, o);
      }
    }
    forall n | n in m.outbox ensures OutboxRowOk(m, journal', n) {
      OutboxRowMerged(db, ids, journal, x, h, e, ev, sid, n);
    }
  }

  lemma AccountsMerged(db: Tables, ids: Ids, journal: map<int, JournalEntry>, x: Session, h: Header, e: int, ev: Event)
    requires Committing(db, ids, journal, x, h, e, ev)
    ensures AccountsOk(Merge(db, x, h, e, ev))
  {
    var m := Merge(db, x, h, e, ev);
    forall a | a in m.accounts ensures AccountRowOk(m, a) {
      if a in db.accounts {
        assert AccountRowOk(db, a);
      }
    }
    forall u | u in m.externals ensures ExternalRowOk(m, u) {
      if u in db.externals {
        assert ExternalRowOk(db, u);
      }
    }
  }

  lemma TransactionsMerged(db: Tables, ids: Ids, journal: map<int, JournalEntry>, x: Session, h: Header, e: int,
      ev: Event, sid: nat, t: int)
    requires Committing(db, ids, journal, x, h, e, ev)
    requires t in Merge(db, x, h, e, ev).headers
    ensures var m := Merge(db, x, h, e, ev);
      TransactionOk(m, (if t == h.id then JournalEntry(sid, x.req, e) else journal[t]), m.headers[t])
  {
    if t == h.id {
      NewTransactionOk(db, ids, journal, x, h, e, ev, sid);
    } else {
      MergeGrows(db, ids, journal, x, h, e, ev);
      assert TransactionOk(db, journal[t], db.headers[t]);
      TransactionStable(db, Merge(db, x, h, e, ev), journal[t], db.headers[t]);
    }
  }

  lemma HeadersMerged(db: Tables, ids: Ids, journal: map<int, JournalEntry>, x: Session, h: Header, e: int,
      ev: Event, sid: nat)
    requires Committing(db, ids, journal, x, h, e, ev)
    ensures var m := Merge(db, x, h, e, ev); var journal' := journal[h.id := JournalEntry(sid, x.req, e)];
      forall t {:trigger TransactionOk(m, journal'[t], m.headers[t])} :: t in m.headers ==>
        t in journal' && TransactionOk(m, journal'[t], m.headers[t])
  {
    var m := Merge(db, x, h, e, ev);
    var journal' := journal[h.id := JournalEntry(sid, x.req, e)];
    forall t | t in m.headers ensures t in journal' && TransactionOk(m, journal'[t], m.headers[t]) {
      TransactionsMerged(db, ids, journal, x, h, e, ev, sid, t);
    }
  }

  lemma TablesMerged(db: Tables, ids: Ids, journal: map<int, JournalEntry>, x: Session, h: Header, e: int, ev: Event,
      sid: nat)
    requires Committing(db, ids, journal, x, h, e, ev)
    ensures TablesOk(Merge(db, x, h, e, ev), journal[h.id := JournalEntry(sid, x.req, e)])
  {
    AccountsMerged(db, ids, journal, x, h, e, ev);
    PostingsMerged(db, ids, journal, x, h, e, ev);
    IndexesMerged(db, ids, journal, x, h, e, ev, sid);
    HeadersMerged(db, ids, journal, x, h, e, ev, sid);
  }

  // ---------------------------------------------------------------- the other sessions and the history

  lemma ApartMerged(db: Tables, ids: Ids, x: Session, h: Header, e: int, ev: Event, y: Session)
    requires SessionOk(db, ids, x) && SessionOk(db, ids, y) && x.pc == Finish(h, e, ev) && Exclusive(x, y)
    ensures Apart(Merge(db, x, h, e, ev), y)
  {
    ApartNow(db, ids, y);
    var m := Merge(db, x, h, e, ev);
    assert StagedHeader(x) == Some(h) && StagedEvent(x) == Some(e);
    assert y.claim.Some? ==> KeyOf(y.req) !in m.idem;
    assert y.newAccount.Some? ==>
      y.newAccount.value.id !in m.accounts && y.newAccount.value.account.user !in m.externals;
  }

  lemma OutcomeStable(a: Tables, b: Tables, r: Request, o: Outcome)
    requires Grows(a, b) && OutcomeOk(a, r, o)
    ensures OutcomeOk(b, r, o)
  {
  }

  lemma CommittedOutcome(db: Tables, ids: Ids, journal: map<int, JournalEntry>, x: Session, h: Header, e: int,
      ev: Event)
    requires Committing(db, ids, journal, x, h, e, ev)
    ensures OutcomeOk(Merge(db, x, h, e, ev), x.req, Ok(DtoOf(h, x.postings)))
    ensures CommittedDto(Merge(db, x, h, e, ev), h.id) == DtoOf(h, x.postings)
  {
    StagedPostings(db, x, h, h.id);
  }

  lemma SessionsMerged(s: State, sid: nat, x: Session, h: Header, e: int, ev: Event, y: Session)
    requires Live(s, sid, x) && Committing(s.db, s.ids, s.journal, x, h, e, ev)
    requires SessionOk(Merge(s.db, x, h, e, ev), s.ids, y)
    ensures SessionsOk(Merge(s.db, x, h, e, ev), s.ids, s.sessions[sid := y])
  {
    var m := Merge(s.db, x, h, e, ev);
    MergeGrows(s.db, s.ids, s.journal, x, h, e, ev);
    forall t | t in s.sessions && t != sid ensures SessionOk(m, s.ids, s.sessions[t]) {
      assert SessionOk(s.db, s.ids, s.sessions[t]);
      assert Exclusive(s.sessions[sid], s.sessions[t]);
      ApartMerged(s.db, s.ids, x, h, e, ev, s.sessions[t]);
      SessionStable(s.db, m, s.ids, s.ids, s.sessions[t]);
    }
  }

  lemma JournalGrown(s: State, m: Tables, sid: nat, y: Session, t0: int, entry: JournalEntry)
    requires Inv(s) && Grows(s.db, m) && sid in s.sessions && !s.sessions[sid].pc.Replying?
    requires t0 !in s.journal && m.headers.Keys == s.db.headers.Keys + {t0} && entry.sid == sid
    requires t0 in m.headers && y.pc.Replying? && CommitReply(m, t0, y.pc.outcome)
    ensures JournalOk(m, s.journal[t0 := entry], s.sessions[sid := y], s.nextSid, s.replies)
  {
    var journal' := s.journal[t0 := entry];
    forall r | r in s.replies ensures r.sid != sid {
      assert ReplyOk(s.db, s.sessions, s.nextSid, r);
    }
    forall t | t in journal' ensures CallOk(m, journal'[t].sid, t, s.sessions[sid := y], s.nextSid, s.replies) {
      if t != t0 {
        assert CallOk(s.db, s.journal[t].sid, t, s.sessions, s.nextSid, s.replies);
      }
    }
    forall t, u | t in journal' && u in journal' && journal'[t].sid == journal'[u].sid ensures t == u {
      if t != t0 {
        assert CallOk(s.db, s.journal[t].sid, t, s.sessions, s.nextSid, s.replies);
      }
      if u != t0 {
        assert CallOk(s.db, s.journal[u].sid, u, s.sessions, s.nextSid, s.replies);
      }
    }
  }

  lemma RepliesGrown(s: State, m: Tables, sid: nat, y: Session)
    requires Inv(s) && Grows(s.db, m) && sid in s.sessions
    ensures RepliesOk(m, s.sessions[sid := y], s.nextSid, s.replies)
  {
    forall r | r in s.replies ensures ReplyOk(m, s.sessions[sid := y], s.nextSid, r) {
      assert ReplyOk(s.db, s.sessions, s.nextSid, r);
      OutcomeStable(s.db, m, r.req, r.outcome);
    }
  }

  lemma CommitKeepsHistory(s: State, sid: nat, x: Session, h: Header, e: int, ev: Event, m: Tables, y: Session)
    requires Live(s, sid, x) && Committing(s.db, s.ids, s.journal, x, h, e, ev) && m == Merge(s.db, x, h, e, ev)
    requires y == Session(x.req, x.startedAt, Replying(Ok(DtoOf(h, x.postings))), [], None, None, [])
      || y == Session(x.req, x.startedAt, Replying(Err(Internal)), [], None, None, [])
    requires m.headers.Keys == s.journal.Keys + {h.id}
    ensures IdsOk(m, s.ids)
    ensures SessionsOk(m, s.ids, s.sessions[sid := y])
    ensures RepliesOk(m, s.sessions[sid := y], s.nextSid, s.replies)
    ensures JournalOk(m, s.journal[h.id := JournalEntry(sid, x.req, e)], s.sessions[sid := y], s.nextSid, s.replies)
  {
    CommittedOutcome(s.db, s.ids, s.journal, x, h, e, ev);
    SessionsMerged(s, sid, x, h, e, ev, y);
    MergeGrows(s.db, s.ids, s.journal, x, h, e, ev);
    RepliesGrown(s, m, sid, y);
    JournalGrown(s, m, sid, y, h.id, JournalEntry(sid, x.req, e));
  }

  /** The state once the session's writes are merged and it is about to reply. */
  function Merged(s: State, sid: nat, x: Session, h: Header, e: int, ev: Event, o: Outcome): State {
    s.(db := Merge(s.db, x, h, e, ev),
       sessions := s.sessions[sid := Session(x.req, x.startedAt, Replying(o), [], None, None, [])],
       journal := s.journal[h.id := JournalEntry(sid, x.req, e)])
  }

  lemma MergedKeeps(s: State, sid: nat, x: Session, h: Header, e: int, ev: Event, o: Outcome)
    requires Live(s, sid, x) && x.pc == Finish(h, e, ev) && Sum(Merge(s.db, x, h, e, ev).postings, OfTx(h.id)) == 0
    requires o == Ok(DtoOf(h, x.postings)) || o == Err(Internal)
    ensures Inv(Merged(s, sid, x, h, e, ev, o))
  {
    var y := Session(x.req, x.startedAt, Replying(o), [], None, None, []);
    TablesMerged(s.db, s.ids, s.journal, x, h, e, ev, sid);
    ExclusiveKept(s.sessions, sid, y);
    CommitKeepsHistory(s, sid, x, h, e, ev, Merge(s.db, x, h, e, ev), y);
  }

  lemma CommitKeeps(s: State, sid: nat, x: Session, h: Header, e: int, ev: Event)
    requires Live(s, sid, x) && x.pc == Finish(h, e, ev)
    ensures Inv(Commit(s, sid, x, h, e, ev))
  {
    if Sum(Merge(s.db, x, h, e, ev).postings, OfTx(h.id)) != 0 {
      SettleKeeps(s, sid, Err(Internal));
    } else {
      MergedKeeps(s, sid, x, h, e, ev, Ok(DtoOf(h, x.postings)));
      assert Commit(s, sid, x, h, e, ev) == Merged(s, sid, x, h, e, ev, Ok(DtoOf(h, x.postings)));
    }
  }

  /** Losing the acknowledgement changes the reply and nothing else. */
  lemma UnackedShape(s: State, sid: nat, x: Session, h: Header, e: int, ev: Event)
    requires sid in s.sessions && s.sessions[sid] == x
    ensures var s' := CommitUnacked(s, sid, x, h, e, ev); var c := Commit(s, sid, x, h, e, ev);
      && s'.db == c.db && s'.journal == c.journal && s'.ids == c.ids && s'.clock == c.clock
      && s'.nextSid == c.nextSid && s'.replies == c.replies
      && s'.sessions == s.sessions[sid := Session(x.req, x.startedAt, Replying(Err(Internal)), [], None, None, [])]
      && s' == if Sum(Merge(s.db, x, h, e, ev).postings, OfTx(h.id)) != 0 then Settle(s, sid, Err(Internal))
        else Merged(s, sid, x, h, e, ev, Err(Internal))
  {
  }

  lemma CommitUnackedKeeps(s: State, sid: nat, x: Session, h: Header, e: int, ev: Event)
    requires Live(s, sid, x) && x.pc == Finish(h, e, ev)
    ensures Inv(CommitUnacked(s, sid, x, h, e, ev))
  {
    UnackedShape(s, sid, x, h, e, ev);
    if Sum(Merge(s.db, x, h, e, ev).postings, OfTx(h.id)) != 0 {
      SettleKeeps(s, sid, Err(Internal));
    } else {
      MergedKeeps(s, sid, x, h, e, ev, Err(Internal));
    }
  }

  // ---------------------------------------------------------------- steps that end or open a call

  lemma RemoveKeeps(s: State, sid: nat)
    requires Inv(s)
    ensures Inv(s.(sessions := s.sessions - {sid}))
  {
    var left := s.sessions - {sid};
    forall t | t in left ensures SessionOk(s.db, s.ids, left[t]) {
      assert SessionOk(s.db, s.ids, s.sessions[t]);
    }
    forall a, b | a in left && b in left && a != b ensures Exclusive(left[a], left[b]) {
      assert Exclusive(s.sessions[a], s.sessions[b]);
    }
    forall r | r in s.replies ensures ReplyOk(s.db, left, s.nextSid, r) {
      assert ReplyOk(s.db, s.sessions, s.nextSid, r);
    }
    forall t | t in s.journal ensures CallOk(s.db, s.journal[t].sid, t, left, s.nextSid, s.replies) {
      assert CallOk(s.db, s.journal[t].sid, t, s.sessions, s.nextSid, s.replies);
    }
  }

  lemma ReplyKeeps(s: State, r: Reply)
    requires Inv(s) && r.sid < s.nextSid && r.sid !in s.sessions && OutcomeOk(s.db, r.req, r.outcome)
    requires forall t :: t in s.journal && s.journal[t].sid == r.sid ==> CommitReply(s.db, t, r.outcome)
    ensures Inv(s.(replies := s.replies + [r]))
  {
    assert ReplyOk(s.db, s.sessions, s.nextSid, r);
    forall t | t in s.journal ensures CallOk(s.db, s.journal[t].sid, t, s.sessions, s.nextSid, s.replies + [r]) {
      assert CallOk(s.db, s.journal[t].sid, t, s.sessions, s.nextSid, s.replies);
    }
  }

  lemma DeliverKeeps(s: State, sid: nat, x: Session, o: Outcome)
    requires Live(s, sid, x) && x.pc == Replying(o)
    ensures Inv(Deliver(s, sid, x, o))
  {
    forall t | t in s.journal && s.journal[t].sid == sid ensures CommitReply(s.db, t, o) {
      assert CallOk(s.db, s.journal[t].sid, t, s.sessions, s.nextSid, s.replies);
    }
    RemoveKeeps(s, sid);
    ReplyKeeps(s.(sessions := s.sessions - {sid}), Reply(sid, x.req, o));
  }

  lemma NextSidKeeps(s: State)
    requires Inv(s)
    ensures Inv(s.(nextSid := s.nextSid + 1))
    ensures forall t :: t in s.journal ==> s.journal[t].sid != s.nextSid
    ensures forall r :: r in s.replies ==> r.sid != s.nextSid
  {
    forall r | r in s.replies ensures ReplyOk(s.db, s.sessions, s.nextSid + 1, r) && r.sid != s.nextSid {
      assert ReplyOk(s.db, s.sessions, s.nextSid, r);
    }
    forall t | t in s.journal
      ensures CallOk(s.db, s.journal[t].sid, t, s.sessions, s.nextSid + 1, s.replies) && s.journal[t].sid != s.nextSid
    {
      assert CallOk(s.db, s.journal[t].sid, t, s.sessions, s.nextSid, s.replies);
    }
  }

  lemma NewSessionKeeps(s: State, sid: nat, y: Session)
    requires Inv(s) && sid < s.nextSid && sid !in s.sessions && (forall r :: r in s.replies ==> r.sid != sid)
    requires forall t :: t in s.journal ==> s.journal[t].sid != sid
    requires y.pc.Start? && SessionOk(s.db, s.ids, y)
    ensures Inv(Put(s, sid, y))
  {
    var after := s.sessions[sid := y];
    forall t | t in after ensures SessionOk(s.db, s.ids, after[t]) {
      if t != sid {
        assert SessionOk(s.db, s.ids, s.sessions[t]);
      }
    }
    forall a, b | a in after && b in after && a != b ensures Exclusive(after[a], after[b]) {
      if a != sid && b != sid {
        assert Exclusive(s.sessions[a], s.sessions[b]);
      }
    }
    forall r | r in s.replies ensures ReplyOk(s.db, after, s.nextSid, r) {
      assert ReplyOk(s.db, s.sessions, s.nextSid, r);
    }
    forall t | t in s.journal ensures CallOk(s.db, s.journal[t].sid, t, after, s.nextSid, s.replies) {
      assert CallOk(s.db, s.journal[t].sid, t, s.sessions, s.nextSid, s.replies);
    }
  }

  lemma BeginKeeps(s: State, req: Request)
    requires Inv(s)
    ensures Inv(BeginCall(s, req))
  {
    NextSidKeeps(s);
    var s1 := s.(nextSid := s.nextSid + 1);
    var err := Precheck(req);
    if err.Some? {
      ReplyKeeps(s1, Reply(s.nextSid, req, Err(err.value)));
    } else {
      NewSessionKeeps(s1, s.nextSid, Session(req, s.clock, Start, [], None, None, []));
    }
  }

  // ---------------------------------------------------------------- moves of the environment

  /** Account rows may be added or deactivated; nothing else in the tables changes. */
  ghost predicate AccountMove(a: Tables, b: Tables, i: Ids, j: Ids) {
    && b == a.(accounts := b.accounts) && j == i.(account := j.account) && i.account <= j.account
    && (forall k :: k in a.accounts ==>
          k in b.accounts && b.accounts[k].(active := true) == a.accounts[k].(active := true))
    && (forall k :: k in b.accounts && k !in a.accounts ==> i.account <= k < j.account && !b.accounts[k].external)
  }

  lemma RowsMoved(a: Tables, b: Tables, i: Ids, j: Ids, journal: map<int, JournalEntry>)
    requires AccountsOk(a) && PostingsOk(a) && journal.Keys == a.headers.Keys && IndexesOk(a, journal)
      && AccountMove(a, b, i, j)
    ensures AccountsOk(b) && PostingsOk(b) && IndexesOk(b, journal)
  {
    forall n | n in b.accounts ensures AccountRowOk(b, n) {
      if n in a.accounts {
        assert AccountRowOk(a, n);
      }
    }
    forall u | u in b.externals ensures ExternalRowOk(b, u) {
      assert ExternalRowOk(a, u);
      var n: int := a.externals[u];
      assert n in a.accounts;
    }
    forall p | p in b.postings ensures PostingOk(b, p) {
      assert PostingOk(a, p);
    }
    forall k | k in b.idem ensures KeyRowOk(b, journal, k) {
      assert KeyRowOk(a, journal, k);
    }
    forall o | o in b.reversedBy ensures ReversedRowOk(b, o) {
      assert ReversedRowOk(a, o);
    }
    forall e | e in b.outbox ensures OutboxRowOk(b, journal, e) {
      assert OutboxRowOk(a, journal, e);
    }
  }

  lemma TablesMoved(a: Tables, b: Tables, i: Ids, j: Ids, journal: map<int, JournalEntry>)
    requires TablesOk(a, journal) && AccountMove(a, b, i, j)
    ensures TablesOk(b, journal)
  {
    assert Grows(a, b);
    RowsMoved(a, b, i, j, journal);
    forall t | t in b.headers ensures TransactionOk(b, journal[t], b.headers[t]) {
      assert TransactionOk(a, journal[t], a.headers[t]);
      TransactionStable(a, b, journal[t], b.headers[t]);
    }
  }

  lemma SessionsMoved(a: Tables, b: Tables, i: Ids, j: Ids, sessions: Sessions)
    requires SessionsOk(a, i, sessions) && AccountMove(a, b, i, j)
    ensures SessionsOk(b, j, sessions)
  {
    forall t | t in sessions ensures SessionOk(b, j, sessions[t]) {
      assert SessionOk(a, i, sessions[t]);
      ApartNow(a, i, sessions[t]);
      SessionStable(a, b, i, j, sessions[t]);
    }
  }

  lemma AccountMoveKeeps(s: State, m: Tables, j: Ids)
    requires Inv(s) && AccountMove(s.db, m, s.ids, j)
    ensures Inv(s.(db := m, ids := j))
  {
    TablesMoved(s.db, m, s.ids, j, s.journal);
    SessionsMoved(s.db, m, s.ids, j, s.sessions);
    forall r | r in s.replies ensures ReplyOk(m, s.sessions, s.nextSid, r) {
      assert ReplyOk(s.db, s.sessions, s.nextSid, r);
      OutcomeStable(s.db, m, r.req, r.outcome);
    }
    forall t | t in s.journal ensures CallOk(m, s.journal[t].sid, t, s.sessions, s.nextSid, s.replies) {
      assert CallOk(s.db, s.journal[t].sid, t, s.sessions, s.nextSid, s.replies);
    }
  }

  // ---------------------------------------------------------------- all steps, all runs

  lemma AdvanceKeeps(s: State, sid: nat)
    requires Inv(s) && sid in s.sessions
    ensures AdvanceSession(s, sid).Some? ==> Inv(AdvanceSession(s, sid).value)
  {
    var x := s.sessions[sid];
    assert SessionOk(s.db, s.ids, x);
    match x.pc
    case Start => ClaimKeyKeeps(s, sid, x);
    case Existing => ReadKeyKeeps(s, sid, x);
    case Claimed => ResolveKeeps(s, sid, x);
    case NoExternal => CreateExternalKeeps(s, sid, x);
    case Check(i) => CheckLegKeeps(s, sid, x, i);
    case ListOrig(o) => ListOriginalKeeps(s, sid, x, o);
    case Insert(o) => InsertHeaderKeeps(s, sid, x, o);
    case Post(h, i) => InsertPostingKeeps(s, sid, x, h, i);
    case Emit(h) => InsertEventKeeps(s, sid, x, h);
    case Mark(h, e, ev) => MarkSuccessKeeps(s, sid, x, h, e, ev);
    case Finish(h, e, ev) => CommitKeeps(s, sid, x, h, e, ev);
    case Replying(o) => DeliverKeeps(s, sid, x, o);
  }

  /** Main lemma: every enabled step keeps the invariant. */
  lemma StepKeeps(s: State, l: Label)
    requires Inv(s)
    ensures Step(s, l).Some? ==> Inv(Step(s, l).value)
  {
    match l
    case Begin(req) => BeginKeeps(s, req);
    case Advance(sid) => if sid in s.sessions { AdvanceKeeps(s, sid); }
    case Fail(sid) => if sid in s.sessions && !s.sessions[sid].pc.Replying? { SettleKeeps(s, sid, Err(Internal)); }
    case LoseAck(sid) =>
      if sid in s.sessions && s.sessions[sid].pc.Finish? {
        var x := s.sessions[sid];
        assert SessionOk(s.db, s.ids, x);
        CommitUnackedKeeps(s, sid, x, x.pc.header, x.pc.eventId, x.pc.event);
      }
    case Abort(sid) => RemoveKeeps(s, sid);
    case Tick(d) =>
    case OpenAccount(user, currency) =>
      AccountMoveKeeps(s, s.db.(accounts := s.db.accounts[s.ids.account := Account(user, currency, true, false)]),
        s.ids.(account := s.ids.account + 1));
    case Deactivate(a) =>
      if a in s.db.accounts {
        AccountMoveKeeps(s, s.db.(accounts := s.db.accounts[a := s.db.accounts[a].(active := false)]), s.ids);
      }
  }

  lemma {:induction false} RunKeeps(s: State, ls: seq<Label>)
    requires Inv(s)
    ensures Inv(Run(s, ls))
  {
    if ls != [] {
      RunKeeps(s, ls[..|ls| - 1]);
      StepKeeps(Run(s, ls[..|ls| - 1]), ls[|ls| - 1]);
    }
  }

  /** Every reachable state satisfies the invariant. */
  lemma ReachableInv(s: State)
    requires Reachable(s)
    ensures Inv(s)
  {
    var clock: int, ls: seq<Label> :| s == Run(Init(clock), ls);
    RunKeeps(Init(clock), ls);
  }
}
