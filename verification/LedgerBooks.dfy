/** The books balance: zero-sum, conservation, reversals and the outbox, in every reachable state. */
module LedgerBooks {
  import opened Finite
  import opened Int64
  import opened Postings
  import opened Ledger
  import opened LedgerInvariant
  import opened LedgerCommit
  import opened LedgerTheorems

  /**
   * Every committed transaction is exactly two postings x and -x over the integers, although
   * the service negates in wrapping 64-bit arithmetic; -2^63 is never posted, so the negation
   * in a reversal is exact; and the transaction is the one its request asked for.
   */
  lemma ExactZeroSum(s: State, t: int)
    requires Reachable(s) && t in s.db.headers
    ensures t in s.journal && Pair(PostingsOf(s.db.postings, t))
    ensures Fulfils(s.db, s.journal[t].req, s.db.headers[t], PostingsOf(s.db.postings, t))
    ensures Sum(s.db.postings, OfTx(t)) == 0
    ensures forall p :: p in s.db.postings && p.txId == t ==> p.amount != -TWO_63 && Negate(p.amount) == 0 - p.amount
  {
    ReachableInv(s);
    assert TransactionOk(s.db, s.journal[t], s.db.headers[t]);
    TransactionNetsZero(s, t);
    var ps := PostingsOf(s.db.postings, t);
    forall p | p in s.db.postings && p.txId == t ensures p.amount != -TWO_63 {
      assert p in ps;
    }
  }

  lemma TransactionNetsZero(s: State, t: int)
    requires Inv(s)
    ensures Sum(s.db.postings, OfTx(t)) == 0
  {
    if t in s.db.headers {
      assert TransactionOk(s.db, s.journal[t], s.db.headers[t]);
      var ps := PostingsOf(s.db.postings, t);
      SumSelect(s.db.postings, OfTx(t), OfTx(t));
      SumSame(s.db.postings, And(OfTx(t), OfTx(t)), OfTx(t));
      assert ps[0] in ps && ps[1] in ps;
      assert ps[1..][1..] == [];
      assert Sum(ps[1..], OfTx(t)) == ps[1].amount;
    } else {
      forall p | p in s.db.postings ensures p.txId != t {
        assert PostingOk(s.db, p);
      }
      SumNone(s.db.postings, OfTx(t));
    }
  }

  /** A create for -2^63 can never commit: its offsetting leg wraps and the trigger refuses it. */
  lemma SmallestAmountNeverCommits(s: State, t: int)
    requires Reachable(s) && t in s.journal && s.journal[t].req.CreateReq?
    ensures s.journal[t].req.amount != -TWO_63
  {
    ReachableInv(s);
    ExactZeroSum(s, t);
    var ps := PostingsOf(s.db.postings, t);
    assert ps[0] in ps;
  }

  // ---------------------------------------------------------------- conservation

  /** Postings on the user's normal accounts held in a currency. */
  function NormalIn(db: Tables, user: int, currency: string): Filter {
    (p: Posting) => p.account in db.accounts && db.accounts[p.account].user == user &&
      !db.accounts[p.account].external && db.accounts[p.account].currency == currency
  }

  /** Postings on the user's external account made by transactions in a currency. */
  function ExternalIn(db: Tables, user: int, currency: string): Filter {
    (p: Posting) => p.account in db.accounts && db.accounts[p.account].user == user &&
      db.accounts[p.account].external && p.txId in db.headers && db.headers[p.txId].currency == currency
  }

  function TxOfUserIn(db: Tables, user: int, currency: string): int -> bool {
    t => t in db.headers && db.headers[t].user == user && db.headers[t].currency == currency
  }

  function OnNormal(db: Tables): Filter {
    (p: Posting) => p.account in db.accounts && !db.accounts[p.account].external
  }

  /**
   * Conservation: for each user and currency the total on normal accounts is minus the total
   * on the external account in that currency, reversals included.
   */
  lemma Conservation(s: State, user: int, currency: string)
    requires Reachable(s)
    ensures Sum(s.db.postings, NormalIn(s.db, user, currency)) == -Sum(s.db.postings, ExternalIn(s.db, user, currency))
  {
    ReachableInv(s);
    var db := s.db;
    var ps := db.postings;
    var g := TxOfUserIn(db, user, currency);
    forall t ensures Sum(ps, OfTx(t)) == 0 {
      TransactionNetsZero(s, t);
    }
    WholeTransactionsNetZero(ps, g);
    SumSplit(ps, TxFilter(g), OnNormal(db));
    forall p | p in ps
      ensures And(TxFilter(g), OnNormal(db))(p) == NormalIn(db, user, currency)(p)
      ensures AndNot(TxFilter(g), OnNormal(db))(p) == ExternalIn(db, user, currency)(p)
    {
      assert PostingOk(db, p);
    }
    SumSame(ps, And(TxFilter(g), OnNormal(db)), NormalIn(db, user, currency));
    SumSame(ps, AndNot(TxFilter(g), OnNormal(db)), ExternalIn(db, user, currency));
  }

  /** Every posting is on an account of its transaction's user, in that account's currency. */
  lemma OwnedPostings(s: State, p: Posting)
    requires Reachable(s) && p in s.db.postings
    ensures p.txId in s.db.headers && p.account in s.db.accounts
    ensures s.db.accounts[p.account].user == s.db.headers[p.txId].user
    ensures !s.db.accounts[p.account].external ==> s.db.accounts[p.account].currency == s.db.headers[p.txId].currency
    ensures p.createdAt == s.db.headers[p.txId].createdAt
  {
    ReachableInv(s);
    assert PostingOk(s.db, p);
  }

  /** At most one external account per user. */
  lemma OneExternalPerUser(s: State, a: int, b: int)
    requires Reachable(s) && a in s.db.accounts && b in s.db.accounts
    requires s.db.accounts[a].external && s.db.accounts[b].external && s.db.accounts[a].user == s.db.accounts[b].user
    ensures a == b
  {
    ReachableInv(s);
    assert AccountRowOk(s.db, a) && AccountRowOk(s.db, b);
  }

  // ---------------------------------------------------------------- reversals

  function EitherTx(t: int, u: int): Filter { (p: Posting) => p.txId == t || p.txId == u }

  /**
   * A reversal points at an original of the same user and currency that is not itself a
   * reversal; no other transaction reverses it; and the pair nets to zero on every account.
   */
  lemma ReversalStructure(s: State, t: int, o: int)
    requires Reachable(s) && t in s.db.headers && s.db.headers[t].reversalOf == Some(o)
    ensures o in s.db.headers && s.db.headers[o].reversalOf.None? && o != t
    ensures s.db.headers[o].user == s.db.headers[t].user && s.db.headers[o].currency == s.db.headers[t].currency
    ensures forall u :: u in s.db.headers && s.db.headers[u].reversalOf == Some(o) ==> u == t
    ensures Opposite(PostingsOf(s.db.postings, t), PostingsOf(s.db.postings, o))
    ensures forall a :: Sum(s.db.postings, And(EitherTx(t, o), OnAccount(a))) == 0
  {
    ReachableInv(s);
    assert TransactionOk(s.db, s.journal[t], s.db.headers[t]);
    forall u | u in s.db.headers && s.db.headers[u].reversalOf == Some(o) ensures u == t {
      assert TransactionOk(s.db, s.journal[u], s.db.headers[u]);
    }
    var ps, qs := PostingsOf(s.db.postings, t), PostingsOf(s.db.postings, o);
    forall a ensures Sum(s.db.postings, And(EitherTx(t, o), OnAccount(a))) == 0 {
      SumEither(s.db.postings, t, o, a);
      OppositeNets(ps, qs, a);
    }
  }

  lemma SumEither(ps: seq<Posting>, t: int, o: int, a: int)
    requires t != o
    ensures Sum(ps, And(EitherTx(t, o), OnAccount(a))) == Sum(PostingsOf(ps, t), OnAccount(a))
      + Sum(PostingsOf(ps, o), OnAccount(a))
  {
    var f := And(EitherTx(t, o), OnAccount(a));
    SumSplit(ps, f, OfTx(t));
    SumSame(ps, And(f, OfTx(t)), And(OfTx(t), OnAccount(a)));
    SumSame(ps, AndNot(f, OfTx(t)), And(OfTx(o), OnAccount(a)));
    SumSelect(ps, OfTx(t), OnAccount(a));
    SumSelect(ps, OfTx(o), OnAccount(a));
  }

  lemma {:induction false} OppositeNets(ps: seq<Posting>, qs: seq<Posting>, a: int)
    requires Opposite(ps, qs)
    ensures Sum(ps, OnAccount(a)) + Sum(qs, OnAccount(a)) == 0
  {
    if ps != [] {
      OppositeNets(ps[1..], qs[1..], a);
    }
  }

  // ---------------------------------------------------------------- ledger and outbox

  /**
   * Transactions and outbox events are in one-to-one correspondence: `eventOf` maps each
   * transaction to its event, its inverse is the event's transaction id, and the event tells
   * the stored transaction; reversals, and only they, are announced as reversed.
   */
  lemma LedgerAndOutboxAgree(s: State)
    requires Reachable(s)
    ensures s.journal.Keys == s.db.headers.Keys
    ensures forall t :: t in s.db.headers ==>
      && s.journal[t].eventId in s.db.outbox
      && s.db.outbox[s.journal[t].eventId] == EventFor(s.db.headers[t], PostingsOf(s.db.postings, t))
    ensures forall e :: e in s.db.outbox ==>
      && s.db.outbox[e].txId in s.db.headers && s.journal[s.db.outbox[e].txId].eventId == e
      && (s.db.outbox[e].eventType == TransactionReversed <==> s.db.headers[s.db.outbox[e].txId].reversalOf.Some?)
    ensures |s.db.headers| == |s.db.outbox|
  {
    ReachableInv(s);
    forall t | t in s.db.headers
      ensures s.journal[t].eventId in s.db.outbox
      ensures s.db.outbox[s.journal[t].eventId] == EventFor(s.db.headers[t], PostingsOf(s.db.postings, t))
    {
      assert TransactionOk(s.db, s.journal[t], s.db.headers[t]);
    }
    forall e | e in s.db.outbox ensures s.db.outbox[e].txId in s.db.headers
      && s.journal[s.db.outbox[e].txId].eventId == e {
      assert OutboxRowOk(s.db, s.journal, e);
    }
    OneEventEach(s.db, s.journal);
  }

  lemma OneEventEach(db: Tables, journal: map<int, JournalEntry>)
    requires journal.Keys == db.headers.Keys
    requires forall t :: t in db.headers ==> journal[t].eventId in db.outbox && db.outbox[journal[t].eventId].txId == t
    requires forall e :: e in db.outbox ==> db.outbox[e].txId in db.headers && journal[db.outbox[e].txId].eventId == e
    ensures |db.headers| == |db.outbox|
  {
    var eventOf := map t | t in db.headers :: journal[t].eventId;
    var txOf := map e | e in db.outbox :: db.outbox[e].txId;
    assert eventOf.Keys == db.headers.Keys && txOf.Keys == db.outbox.Keys;
    InverseMapsSameSize(eventOf, txOf);
  }
}
