/** Every step of the protocol keeps the invariant. */
module LedgerSteps {
  import opened Int64
  import opened Postings
  import opened Ledger
  import opened LedgerInvariant

  // ---------------------------------------------------------------- steps that stay inside one session

  lemma ApartNow(db: Tables, ids: Ids, x: Session)
    requires SessionOk(db, ids, x)
    ensures Apart(db, x)
  {
  }

  lemma SessionsKept(db: Tables, i: Ids, j: Ids, sessions: Sessions, sid: nat, y: Session)
    requires SessionsOk(db, i, sessions) && IdsGrow(i, j) && SessionOk(db, j, y)
    ensures SessionsOk(db, j, sessions[sid := y])
  {
    forall t | t in sessions ensures SessionOk(db, j, sessions[t]) {
      assert SessionOk(db, i, sessions[t]);
      ApartNow(db, i, sessions[t]);
      SessionStable(db, db, i, j, sessions[t]);
    }
  }

  lemma ExclusiveKept(sessions: Sessions, sid: nat, y: Session)
    requires AllExclusive(sessions) && sid in sessions
    requires forall t :: t in sessions && t != sid ==> Exclusive(y, sessions[t])
    ensures AllExclusive(sessions[sid := y])
  {
    var after := sessions[sid := y];
    forall a, b | a in after && b in after && a != b ensures Exclusive(after[a], after[b]) {
      if a != sid && b != sid {
        assert Exclusive(sessions[a], sessions[b]);
      }
    }
  }

  lemma JournalKept(s: State, sid: nat, y: Session)
    requires s.journal.Keys == s.db.headers.Keys
    requires JournalOk(s.db, s.journal, s.sessions, s.nextSid, s.replies)
    requires sid in s.sessions && !s.sessions[sid].pc.Replying?
    ensures JournalOk(s.db, s.journal, s.sessions[sid := y], s.nextSid, s.replies)
  {
    forall t | t in s.journal ensures CallOk(s.db, s.journal[t].sid, t, s.sessions[sid := y], s.nextSid, s.replies) {
      assert CallOk(s.db, s.journal[t].sid, t, s.sessions, s.nextSid, s.replies);
    }
  }

  lemma RepliesKept(s: State, sid: nat, y: Session)
    requires RepliesOk(s.db, s.sessions, s.nextSid, s.replies) && sid in s.sessions
    ensures RepliesOk(s.db, s.sessions[sid := y], s.nextSid, s.replies)
  {
    forall r | r in s.replies ensures ReplyOk(s.db, s.sessions[sid := y], s.nextSid, r) {
      assert ReplyOk(s.db, s.sessions, s.nextSid, r);
    }
  }

  /** Replacing one open session by one that is itself fine and collides with no other. */
  lemma PutKeeps(s: State, sid: nat, y: Session, j: Ids)
    requires Inv(s) && sid in s.sessions && !s.sessions[sid].pc.Replying?
    requires IdsGrow(s.ids, j) && SessionOk(s.db, j, y)
    requires forall t :: t in s.sessions && t != sid ==> Exclusive(y, s.sessions[t])
    ensures Inv(Put(s, sid, y).(ids := j))
  {
    SessionsKept(s.db, s.ids, j, s.sessions, sid, y);
    ExclusiveKept(s.sessions, sid, y);
    JournalKept(s, sid, y);
    RepliesKept(s, sid, y);
  }

  /** `y` holds no lock and no fresh id that `x` does not hold. */
  ghost predicate HoldsNoMore(x: Session, y: Session) {
    && y.req == x.req
    && (y.claim.Some? ==> x.claim.Some?)
    && (y.newAccount.Some? ==> y.newAccount == x.newAccount)
    && (StagedHeader(y).Some? ==> StagedHeader(y) == StagedHeader(x))
    && (StagedEvent(y).Some? ==> StagedEvent(y) == StagedEvent(x))
  }

  lemma QuietPutKeeps(s: State, sid: nat, y: Session, j: Ids)
    requires Inv(s) && sid in s.sessions && !s.sessions[sid].pc.Replying?
    requires IdsGrow(s.ids, j) && SessionOk(s.db, j, y) && HoldsNoMore(s.sessions[sid], y)
    ensures Inv(Put(s, sid, y).(ids := j))
  {
    forall t | t in s.sessions && t != sid ensures Exclusive(y, s.sessions[t]) {
      assert Exclusive(s.sessions[sid], s.sessions[t]);
    }
    PutKeeps(s, sid, y, j);
  }

  lemma SettleKeeps(s: State, sid: nat, o: Outcome)
    requires Inv(s) && sid in s.sessions && !s.sessions[sid].pc.Replying?
    requires OutcomeOk(s.db, s.sessions[sid].req, o)
    ensures Inv(Settle(s, sid, o))
  {
    var x := s.sessions[sid];
    QuietPutKeeps(s, sid, Session(x.req, x.startedAt, Replying(o), [], None, None, []), s.ids);
  }

  ghost predicate Live(s: State, sid: nat, x: Session) {
    Inv(s) && sid in s.sessions && s.sessions[sid] == x && SessionOk(s.db, s.ids, x)
  }

  lemma ClaimKeyKeeps(s: State, sid: nat, x: Session)
    requires Live(s, sid, x) && x.pc == Start
    ensures ClaimKey(s, sid, x).Some? ==> Inv(ClaimKey(s, sid, x).value)
  {
    if x.req.key == "" {
      QuietPutKeeps(s, sid, x.(pc := Claimed), s.ids);
    } else if ClaimHeld(s, sid, KeyOf(x.req)) {
    } else if KeyOf(x.req) in s.db.idem {
      QuietPutKeeps(s, sid, x.(pc := Existing), s.ids);
    } else {
      PutKeeps(s, sid, x.(pc := Claimed, claim := Some(IdemRecord(PayloadOf(x.req), false, None))), s.ids);
    }
  }

  /** A committed key record is always `succeeded` and replays its transaction. */
  lemma ReadKeyKeeps(s: State, sid: nat, x: Session)
    requires Live(s, sid, x) && x.pc == Existing
    ensures Inv(ReadKey(s, sid, x))
  {
    var rec := s.db.idem[KeyOf(x.req)];
    assert KeyRowOk(s.db, s.journal, KeyOf(x.req));
    var t := rec.response.value.id;
    assert t in s.db.headers && TransactionOk(s.db, s.journal[t], s.db.headers[t]);
    SettleKeeps(s, sid, if rec.hash != PayloadOf(x.req) then Err(IdempotencyConflict) else Ok(rec.response.value));
  }

  lemma ResolveKeeps(s: State, sid: nat, x: Session)
    requires Live(s, sid, x) && x.pc == Claimed
    ensures Inv(Resolve(s, sid, x))
  {
    match x.req
    case CreateReq(user, _, _, _, _, _, _) =>
      if user in s.db.externals {
        QuietPutKeeps(s, sid, x.(pc := Check(0), legs := WithExternalLeg(x.req, s.db.externals[user])), s.ids);
      } else {
        QuietPutKeeps(s, sid, x.(pc := NoExternal), s.ids);
      }
    case TransferReq(_, _, _, _, _, _, _, _) =>
      QuietPutKeeps(s, sid, x.(pc := Check(0), legs := ExplicitLegs(x.req)), s.ids);
    case ReverseReq(user, _, txId) =>
      if txId !in s.db.headers || s.db.headers[txId].user != user {
        SettleKeeps(s, sid, Err(TxNotFound));
      } else if s.db.headers[txId].reversalOf.Some? {
        SettleKeeps(s, sid, Err(IsReversal));
      } else {
        QuietPutKeeps(s, sid, x.(pc := ListOrig(s.db.headers[txId])), s.ids);
      }
  }

  lemma CreateExternalKeeps(s: State, sid: nat, x: Session)
    requires Live(s, sid, x) && x.pc == NoExternal && x.req.CreateReq?
    ensures CreateExternal(s, sid, x).Some? ==> Inv(CreateExternal(s, sid, x).value)
  {
    var user := x.req.user;
    if user in s.db.externals {
      SettleKeeps(s, sid, Err(Internal));
    } else if !ExternalHeld(s, sid, user) {
      var ext := s.ids.account;
      var acc := NewAccount(ext, Account(user, x.req.currency, true, true));
      var y := x.(pc := Check(0), legs := WithExternalLeg(x.req, ext), newAccount := Some(acc));
      forall t | t in s.sessions && t != sid ensures Exclusive(y, s.sessions[t]) {
        assert SessionOk(s.db, s.ids, s.sessions[t]);
        assert Exclusive(x, s.sessions[t]);
      }
      PutKeeps(s, sid, y, s.ids.(account := ext + 1));
    }
  }

  lemma LegChecked(db: Tables, ids: Ids, x: Session, i: nat, y: Session)
    requires SessionOk(db, ids, x) && x.pc == Check(i)
    requires if i < |x.legs| then LegFits(db, x, x.legs[i], x.req.currency) && y == x.(pc := Check(i + 1))
      else y == x.(pc := Insert(None))
    ensures SessionOk(db, ids, y)
  {
    forall j | 0 <= j < |x.legs| && j <= i ensures LegFits(db, y, y.legs[j], y.req.currency) {
      assert LegFits(db, x, x.legs[j], x.req.currency);
    }
  }

  lemma CheckLegKeeps(s: State, sid: nat, x: Session, i: nat)
    requires Live(s, sid, x) && x.pc == Check(i) && !x.req.ReverseReq?
    ensures Inv(CheckLeg(s, sid, x, i))
  {
    var next := if i < |x.legs| then Check(i + 1) else Insert(None);
    if i < |x.legs| && !LegFits(s.db, x, x.legs[i], x.req.currency) {
      var acc := VisibleAccount(s.db, x, x.legs[i].account);
      SettleKeeps(s, sid, Err(if acc.None? then AccountNotFound else if acc.value.user != x.req.user then Forbidden
        else if !acc.value.active then AccountInactive else CurrencyMismatch));
    } else if i < |x.legs| && !VisibleAccount(s.db, x, x.legs[i].account).value.active {
      SettleKeeps(s, sid, Err(AccountInactive));
    } else {
      LegChecked(s.db, s.ids, x, i, x.(pc := next));
      QuietPutKeeps(s, sid, x.(pc := next), s.ids);
    }
  }

  lemma ListOriginalKeeps(s: State, sid: nat, x: Session, o: Header)
    requires Live(s, sid, x) && x.pc == ListOrig(o)
    ensures Inv(ListOriginal(s, sid, x, o))
  {
    var ps := PostingsOf(s.db.postings, o.id);
    if ps == [] {
      SettleKeeps(s, sid, Err(TxNotFound));
    } else {
      QuietPutKeeps(s, sid, x.(pc := Insert(Some(o)), legs := NegatedLegs(ps)), s.ids);
    }
  }

  /** Being ready depends only on the request, the legs and the staged account. */
  lemma ReadyCopy(db: Tables, x: Session, y: Session, o: Option<Header>)
    requires Ready(db, x, o)
    requires y.req == x.req && y.legs == x.legs && y.newAccount == x.newAccount
    ensures Ready(db, y, o)
  {
    if o.None? {
      forall l | l in y.legs ensures LegFits(db, y, l, y.req.currency) {
        assert LegFits(db, x, l, x.req.currency);
      }
    }
  }

  lemma HeaderInserted(s: State, x: Session, o: Option<Header>, h: Header, y: Session)
    requires SessionOk(s.db, s.ids, x) && IdsOk(s.db, s.ids) && x.pc == Insert(o)
    requires o.Some? ==> o.value.id !in s.db.reversedBy
    requires o.None? ==> !x.req.ReverseReq?
    requires h == NewHeader(s, x, o) && y == x.(pc := Post(h, 0))
    ensures SessionOk(s.db, s.ids.(tx := s.ids.tx + 1), y)
  {
    assert OrigOf(s.db, h) == o;
    ReadyCopy(s.db, x, y, o);
  }

  lemma HeaderExclusive(s: State, sid: nat, x: Session, o: Option<Header>, h: Header, y: Session, t: nat)
    requires Live(s, sid, x) && x.pc == Insert(o) && t in s.sessions && t != sid
    requires o.Some? ==> !ReversalHeld(s, sid, o.value.id)
    requires o.None? ==> !x.req.ReverseReq?
    requires h == NewHeader(s, x, o) && y == x.(pc := Post(h, 0))
    ensures Exclusive(y, s.sessions[t])
  {
    assert SessionOk(s.db, s.ids, s.sessions[t]);
    assert Exclusive(s.sessions[sid], s.sessions[t]);
  }

  lemma NewHeaderKeeps(s: State, sid: nat, x: Session, o: Option<Header>, y: Session)
    requires Live(s, sid, x) && x.pc == Insert(o) && (o.None? ==> !x.req.ReverseReq?)
    requires o.Some? ==> o.value.id !in s.db.reversedBy && !ReversalHeld(s, sid, o.value.id)
    requires y == x.(pc := Post(NewHeader(s, x, o), 0))
    ensures Inv(Put(s, sid, y).(ids := s.ids.(tx := s.ids.tx + 1)))
  {
    var h := NewHeader(s, x, o);
    HeaderInserted(s, x, o, h, y);
    forall t | t in s.sessions && t != sid ensures Exclusive(y, s.sessions[t]) {
      HeaderExclusive(s, sid, x, o, h, y, t);
    }
    PutKeeps(s, sid, y, s.ids.(tx := s.ids.tx + 1));
  }

  lemma InsertHeaderKeeps(s: State, sid: nat, x: Session, o: Option<Header>)
    requires Live(s, sid, x) && x.pc == Insert(o)
    requires o.None? ==> !x.req.ReverseReq?
    ensures InsertHeader(s, sid, x, o).Some? ==> Inv(InsertHeader(s, sid, x, o).value)
  {
    if o.Some? && o.value.id in s.db.reversedBy {
      SettleKeeps(s, sid, Err(AlreadyReversed));
    } else if !(o.Some? && ReversalHeld(s, sid, o.value.id)) {
      NewHeaderKeeps(s, sid, x, o, x.(pc := Post(NewHeader(s, x, o), 0)));
    }
  }

  lemma PostingsMatchExtended(x: Session, h: Header, p: Posting, y: Session)
    requires PostingsMatch(x, h) && |x.postings| < |x.legs|
    requires var i := |x.postings|;
      x.legs[i].amount != 0 && p == Posting(p.id, h.id, x.legs[i].account, x.legs[i].amount, x.startedAt)
    requires y.legs == x.legs && y.startedAt == x.startedAt && y.postings == x.postings + [p]
    ensures PostingsMatch(y, h)
  {
    forall j | 0 <= j < |y.postings|
      ensures y.postings[j] == Posting(y.postings[j].id, h.id, y.legs[j].account, y.legs[j].amount, y.startedAt)
        && y.legs[j].amount != 0
    {
      if j < |x.postings| {
        assert y.postings[j] == x.postings[j];
      }
    }
  }

  lemma PostedOk(db: Tables, ids: Ids, x: Session, h: Header, i: nat, p: Posting, y: Session)
    requires SessionOk(db, ids, x) && x.pc == Post(h, i) && i < |x.legs| && x.legs[i].amount != 0
    requires p == Posting(p.id, h.id, x.legs[i].account, x.legs[i].amount, x.startedAt)
    requires y == x.(pc := Post(h, i + 1), postings := x.postings + [p])
    ensures SessionOk(db, ids.(posting := ids.posting + 1), y)
  {
    ReadyCopy(db, x, y, OrigOf(db, h));
    PostingsMatchExtended(x, h, p, y);
  }

  lemma EmittingOk(db: Tables, ids: Ids, x: Session, h: Header, i: nat)
    requires SessionOk(db, ids, x) && x.pc == Post(h, i) && i >= |x.legs|
    ensures SessionOk(db, ids, x.(pc := Emit(h)))
  {
    ReadyCopy(db, x, x.(pc := Emit(h)), OrigOf(db, h));
  }

  lemma PostOneKeeps(s: State, sid: nat, x: Session, h: Header, i: nat, p: Posting)
    requires Live(s, sid, x) && x.pc == Post(h, i) && i < |x.legs| && x.legs[i].amount != 0
    requires p == Posting(s.ids.posting, h.id, x.legs[i].account, x.legs[i].amount, x.startedAt)
    ensures Inv(Put(s, sid, x.(pc := Post(h, i + 1), postings := x.postings + [p]))
                .(ids := s.ids.(posting := s.ids.posting + 1)))
  {
    var y := x.(pc := Post(h, i + 1), postings := x.postings + [p]);
    PostedOk(s.db, s.ids, x, h, i, p, y);
    QuietPutKeeps(s, sid, y, s.ids.(posting := s.ids.posting + 1));
  }

  lemma AllPostedKeeps(s: State, sid: nat, x: Session, h: Header, i: nat)
    requires Live(s, sid, x) && x.pc == Post(h, i) && i >= |x.legs|
    ensures Inv(Put(s, sid, x.(pc := Emit(h))))
  {
    EmittingOk(s.db, s.ids, x, h, i);
    QuietPutKeeps(s, sid, x.(pc := Emit(h)), s.ids);
  }

  lemma InsertPostingKeeps(s: State, sid: nat, x: Session, h: Header, i: nat)
    requires Live(s, sid, x) && x.pc == Post(h, i)
    ensures Inv(InsertPosting(s, sid, x, h, i))
  {
    if i >= |x.legs| {
      AllPostedKeeps(s, sid, x, h, i);
    } else if x.legs[i].amount == 0 || VisibleAccount(s.db, x, x.legs[i].account).None? {
      SettleKeeps(s, sid, Err(Internal));
    } else {
      PostOneKeeps(s, sid, x, h, i, Posting(s.ids.posting, h.id, x.legs[i].account, x.legs[i].amount, x.startedAt));
    }
  }

  lemma EmittedOk(db: Tables, ids: Ids, x: Session, h: Header, y: Session)
    requires SessionOk(db, ids, x) && x.pc == Emit(h) && IdsOk(db, ids)
    requires y == x.(pc := Mark(h, ids.event, EventFor(h, x.postings)))
    ensures SessionOk(db, ids.(event := ids.event + 1), y)
  {
    ReadyCopy(db, x, y, OrigOf(db, h));
  }

  lemma InsertEventKeeps(s: State, sid: nat, x: Session, h: Header)
    requires Live(s, sid, x) && x.pc == Emit(h)
    ensures Inv(InsertEvent(s, sid, x, h))
  {
    var y := x.(pc := Mark(h, s.ids.event, EventFor(h, x.postings)));
    EmittedOk(s.db, s.ids, x, h, y);
    forall t | t in s.sessions && t != sid ensures Exclusive(y, s.sessions[t]) {
      assert SessionOk(s.db, s.ids, s.sessions[t]);
      assert Exclusive(x, s.sessions[t]);
    }
    PutKeeps(s, sid, y, s.ids.(event := s.ids.event + 1));
  }

  lemma MarkSuccessKeeps(s: State, sid: nat, x: Session, h: Header, e: int, ev: Event)
    requires Live(s, sid, x) && x.pc == Mark(h, e, ev)
    ensures Inv(MarkSuccess(s, sid, x, h, e, ev))
  {
    var y := MarkSuccess(s, sid, x, h, e, ev).sessions[sid];
    forall t | t in s.sessions && t != sid ensures Exclusive(y, s.sessions[t]) {
      assert Exclusive(x, s.sessions[t]);
    }
    QuietPutKeeps(s, sid, y, s.ids);
  }
}
