/** The publisher beside the running ledger: what is announced is what was committed. */
module LedgerOutbox {
  import opened Postings
  import L = Ledger
  import LI = LedgerInvariant
  import LC = LedgerCommit
  import LT = LedgerTheorems
  import O = Outbox

  datatype Label = Protocol(l: L.Label) | Worker(o: O.Label)

  datatype System = System(ledger: L.State, outbox: O.State)

  /** The event row that a protocol step commits, if any. */
  function Appends(s: L.State, l: L.Label): Option<O.Label> {
    if LT.CommitsNow(s, l) && LT.Passes(s, l.sid)
    then Some(O.Append(s.sessions[l.sid].pc.eventId, s.sessions[l.sid].startedAt))
    else None
  }

  function Publisher(o: O.State, l: Option<O.Label>): O.State {
    if l.Some? && O.CanStep(o, l.value) then O.Step(o, l.value) else o
  }

  function Step(y: System, l: Label): System {
    match l
    case Protocol(p) =>
      (match L.Step(y.ledger, p)
       case None => y
       case Some(s') => System(s', Publisher(y.outbox, Appends(y.ledger, p))))
    case Worker(o) => if o.Append? then y else y.(outbox := Publisher(y.outbox, Some(o)))
  }

  function Init(clock: int): System { System(L.Init(clock), O.Init()) }

  function Run(y: System, ls: seq<Label>): System {
    if ls == [] then y else Step(Run(y, ls[..|ls| - 1]), ls[|ls| - 1])
  }

  /** Nothing went out that is not a row of the table. */
  ghost predicate NoPhantoms(o: O.State) {
    forall e {:trigger O.Count(o.sent, e)} :: O.Count(o.sent, e) > 0 ==> e in o.rows
  }

  /** The publisher's table has exactly the rows `events`. */
  ghost predicate Tracks(o: O.State, events: set<int>) { O.Inv(o) && o.rows.Keys == events && NoPhantoms(o) }

  /** The row was created when the transaction it tells of began. */
  ghost predicate Dated(db: L.Tables, o: O.State, e: int)
    requires e in o.rows
  {
    e in db.outbox && db.outbox[e].txId in db.headers && o.rows[e].createdAt == db.headers[db.outbox[e].txId].createdAt
  }

  ghost predicate AllDated(db: L.Tables, o: O.State) {
    forall e {:trigger Dated(db, o, e)} :: e in o.rows ==> Dated(db, o, e)
  }

  ghost predicate Inv(y: System) {
    LI.Inv(y.ledger) && Tracks(y.outbox, y.ledger.db.outbox.Keys) && AllDated(y.ledger.db, y.outbox)
  }

  lemma WorkerKeepsRows(o: O.State, l: O.Label)
    requires O.Inv(o) && NoPhantoms(o) && O.CanStep(o, l)
    ensures NoPhantoms(O.Step(o, l))
    ensures !l.Append? ==> O.Step(o, l).rows.Keys == o.rows.Keys
  {
    if l.Publish? {
      assert O.WorkerOk(o, o.workers[l.w]);
    }
    var o' := O.Step(o, l);
    forall e | O.Count(o'.sent, e) > 0 ensures e in o'.rows {
      assert O.Count(o.sent, e) > 0 ==> e in o.rows;
    }
  }

  /** A protocol step adds exactly the event row it commits. */
  lemma EventRows(s: L.State, p: L.Label)
    requires LI.SessionsOk(s.db, s.ids, s.sessions) && L.Step(s, p).Some?
    ensures var a := Appends(s, p); var db' := L.Step(s, p).value.db;
      && (forall e :: e in s.db.outbox ==> e in db'.outbox && db'.outbox[e] == s.db.outbox[e])
      && (forall t :: t in s.db.headers ==> t in db'.headers && db'.headers[t] == s.db.headers[t])
      && if a.None? then db'.outbox == s.db.outbox
         else
           && a.value.id !in s.db.outbox && db'.outbox.Keys == s.db.outbox.Keys + {a.value.id}
           && db'.outbox[a.value.id].txId in db'.headers
           && db'.headers[db'.outbox[a.value.id].txId].createdAt == a.value.createdAt
  {
    if LT.CommitsNow(s, p) {
      LT.CommitShape(s, p);
      assert LI.SessionOk(s.db, s.ids, s.sessions[p.sid]);
    } else {
      LT.OnlyCommitWrites(s, p);
    }
  }

  lemma AppendTracks(o: O.State, a: Option<O.Label>, before: set<int>, after: set<int>)
    requires Tracks(o, before)
    requires if a.None? then after == before
      else a.value.Append? && a.value.id !in before && after == before + {a.value.id}
    ensures Tracks(Publisher(o, a), after)
  {
    if a.Some? {
      O.StepKeeps(o, a.value);
      WorkerKeepsRows(o, a.value);
    }
  }

  lemma AppendDated(o: O.State, a: Option<O.Label>, db: L.Tables, db': L.Tables)
    requires AllDated(db, o) && (a.Some? ==> a.value.Append? && O.CanStep(o, a.value))
    requires forall e :: e in db.outbox ==> e in db'.outbox && db'.outbox[e] == db.outbox[e]
    requires forall t :: t in db.headers ==> t in db'.headers && db'.headers[t] == db.headers[t]
    requires a.Some? ==>
      && a.value.id in db'.outbox && db'.outbox[a.value.id].txId in db'.headers
      && db'.headers[db'.outbox[a.value.id].txId].createdAt == a.value.createdAt
    ensures AllDated(db', Publisher(o, a))
  {
    var o' := Publisher(o, a);
    forall e | e in o'.rows ensures Dated(db', o', e) {
      if e in o.rows {
        assert Dated(db, o, e);
        var t: int := db.outbox[e].txId;
        assert t in db.headers;
      }
    }
  }

  lemma WorkerDated(db: L.Tables, o: O.State, l: O.Label)
    requires AllDated(db, o) && O.CanStep(o, l) && !l.Append?
    ensures AllDated(db, O.Step(o, l))
  {
    forall e | e in O.Step(o, l).rows ensures Dated(db, O.Step(o, l), e) {
      assert Dated(db, o, e);
    }
  }

  lemma ProtocolKeeps(y: System, p: L.Label)
    requires Inv(y) && L.Step(y.ledger, p).Some?
    ensures Inv(Step(y, Protocol(p)))
  {
    LC.StepKeeps(y.ledger, p);
    EventRows(y.ledger, p);
    AppendTracks(y.outbox, Appends(y.ledger, p), y.ledger.db.outbox.Keys, L.Step(y.ledger, p).value.db.outbox.Keys);
    AppendDated(y.outbox, Appends(y.ledger, p), y.ledger.db, L.Step(y.ledger, p).value.db);
  }

  lemma StepKeeps(y: System, l: Label)
    requires Inv(y)
    ensures Inv(Step(y, l))
  {
    match l
    case Protocol(p) => if L.Step(y.ledger, p).Some? { ProtocolKeeps(y, p); }
    case Worker(o) =>
      if !o.Append? && O.CanStep(y.outbox, o) {
        O.StepKeeps(y.outbox, o);
        WorkerKeepsRows(y.outbox, o);
        WorkerDated(y.ledger.db, y.outbox, o);
      }
  }

  lemma {:induction false} RunKeeps(y: System, ls: seq<Label>)
    requires Inv(y)
    ensures Inv(Run(y, ls))
  {
    if ls != [] {
      RunKeeps(y, ls[..|ls| - 1]);
      StepKeeps(Run(y, ls[..|ls| - 1]), ls[|ls| - 1]);
    }
  }

  /**
   * In every run of the protocol and any number of workers: the event of every committed
   * transaction is in the outbox, tells that transaction, and is processed only after it went
   * out; it went out at most once more than its uncommitted batches and lost acknowledgements;
   * and nothing ever went out but events of committed transactions.
   */
  lemma CommittedEventsPublished(clock: int, ls: seq<Label>)
    ensures var y := Run(Init(clock), ls); var db := y.ledger.db;
      && y.ledger.journal.Keys == db.headers.Keys
      && (forall t :: t in db.headers ==>
            var e := y.ledger.journal[t].eventId;
            && e in y.outbox.rows && e in db.outbox && y.outbox.rows[e].createdAt == db.headers[t].createdAt
              && db.outbox[e] == L.EventFor(db.headers[t], PostingsOf(db.postings, t))
            && (O.Processed(y.outbox, e) ==> O.Count(y.outbox.sent, e) >= 1)
            && O.Count(y.outbox.sent, e) <= 1 + O.Count(y.outbox.abandoned, e) + O.Count(y.outbox.unacked, e))
      && (forall e :: O.Count(y.outbox.sent, e) > 0 ==> e in db.outbox && db.outbox[e].txId in db.headers)
  {
    RunKeeps(Init(clock), ls);
    var y := Run(Init(clock), ls);
    var db := y.ledger.db;
    forall t | t in db.headers
      ensures y.ledger.journal[t].eventId in db.outbox
      ensures db.outbox[y.ledger.journal[t].eventId] == L.EventFor(db.headers[t], PostingsOf(db.postings, t))
    {
      assert LI.TransactionOk(db, y.ledger.journal[t], db.headers[t]);
    }
    forall t | t in db.headers
      ensures y.ledger.journal[t].eventId in y.outbox.rows
      ensures y.outbox.rows[y.ledger.journal[t].eventId].createdAt == db.headers[t].createdAt
    {
      assert Dated(db, y.outbox, y.ledger.journal[t].eventId);
    }
    forall e ensures O.Processed(y.outbox, e) ==> O.Count(y.outbox.sent, e) >= 1
      ensures O.Count(y.outbox.sent, e) <= 1 + O.Count(y.outbox.abandoned, e) + O.Count(y.outbox.unacked, e)
    {
      O.SentBounds(y.outbox, e);
    }
    forall e | O.Count(y.outbox.sent, e) > 0 ensures e in db.outbox && db.outbox[e].txId in db.headers {
      assert e in y.outbox.rows;
      assert LI.OutboxRowOk(db, y.ledger.journal, e);
    }
  }

  /** No step of anyone loses an event or takes back that it was processed. */
  lemma {:induction false} EventsStay(y: System, ls: seq<Label>, e: int)
    requires Inv(y) && e in y.outbox.rows
    ensures e in Run(y, ls).outbox.rows
    ensures O.Processed(y.outbox, e) ==> O.Processed(Run(y, ls).outbox, e)
  {
    if ls != [] {
      var before, l := Run(y, ls[..|ls| - 1]), ls[|ls| - 1];
      EventsStay(y, ls[..|ls| - 1], e);
      RunKeeps(y, ls[..|ls| - 1]);
      var o := if l.Protocol? then Appends(before.ledger, l.l) else Some(l.o);
      if o.Some? && O.CanStep(before.outbox, o.value) {
        O.NoEventLost(before.outbox, o.value, e);
      }
    }
  }
}
