/**
 * Monthly summaries and the monthly export, as views of the committed tables. `month` is
 * date_trunc('month', ...) in the database session's zone, as any function of the instant.
 */
module Summary {
  import opened Int64
  import opened Postings
  import opened Ledger
  import opened LedgerInvariant
  import opened LedgerCommit
  import opened LedgerBooks
  import Balance

  type Months = int -> int

  datatype MonthlySummary = MonthlySummary(inflow: int, outflow: int, net: int)

  /** JOIN transactions, WHERE account and month match. */
  function InMonth(headers: map<int, Header>, month: Months, a: int, m: int): Filter {
    (p: Posting) => p.account == a && p.txId in headers && month(headers[p.txId].occurredAt) == m
  }

  /** SUM(CASE WHEN amount > 0 THEN amount ELSE 0 END). */
  function Inflow(ps: seq<Posting>, f: Filter): nat {
    if ps == [] then 0 else (if f(ps[0]) && ps[0].amount > 0 then ps[0].amount else 0) + Inflow(ps[1..], f)
  }

  /** SUM(CASE WHEN amount < 0 THEN -amount ELSE 0 END). */
  function Outflow(ps: seq<Posting>, f: Filter): nat {
    if ps == [] then 0 else (if f(ps[0]) && ps[0].amount < 0 then 0 - ps[0].amount else 0) + Outflow(ps[1..], f)
  }

  function Tally(ps: seq<Posting>, f: Filter): MonthlySummary {
    MonthlySummary(Inflow(ps, f), Outflow(ps, f), Sum(ps, f))
  }

  /** The query's exact result; the casts to bigint fail outside 64 bits. */
  function Summarise(db: Tables, month: Months, a: int, m: int): MonthlySummary {
    Tally(db.postings, InMonth(db.headers, month, a, m))
  }

  lemma {:induction false} NetIsDifference(ps: seq<Posting>, f: Filter)
    ensures Sum(ps, f) == Inflow(ps, f) - Outflow(ps, f)
  {
    if ps != [] {
      NetIsDifference(ps[1..], f);
    }
  }

  function Incoming(): Filter { (p: Posting) => p.amount > 0 }

  function Outgoing(): Filter { (p: Posting) => p.amount < 0 }

  /** What a summary of some rows is: all that came in, all that went out, and the sum. */
  ghost predicate IsSummary(ps: seq<Posting>, f: Filter, v: MonthlySummary) {
    v.inflow == Sum(ps, And(f, Incoming())) && v.outflow == -Sum(ps, And(f, Outgoing())) && v.net == Sum(ps, f)
  }

  lemma {:induction false} TallyIsSummary(ps: seq<Posting>, f: Filter)
    ensures IsSummary(ps, f, Tally(ps, f))
  {
    if ps != [] {
      TallyIsSummary(ps[1..], f);
    }
  }

  /** The postings of account `a` whose transaction occurred in month `m`, and no others. */
  ghost predicate IsMonthOf(db: Tables, month: Months, a: int, m: int, f: Filter) {
    forall p :: p in db.postings ==>
      (f(p) <==> p.account == a && p.txId in db.headers && month(db.headers[p.txId].occurredAt) == m)
  }

  /**
   * The summary of an account and month: inflow is the sum of its positive postings, outflow
   * minus the sum of its negative ones, and net the sum of all.
   */
  lemma SummaryExact(db: Tables, month: Months, a: int, m: int, f: Filter)
    requires IsMonthOf(db, month, a, m, f)
    ensures IsSummary(db.postings, f, Summarise(db, month, a, m))
  {
    var g := InMonth(db.headers, month, a, m);
    TallyIsSummary(db.postings, g);
    SumSame(db.postings, And(f, Incoming()), And(g, Incoming()));
    SumSame(db.postings, And(f, Outgoing()), And(g, Outgoing()));
    SumSame(db.postings, f, g);
  }

  lemma {:induction false} TallyConcat(a: seq<Posting>, b: seq<Posting>, f: Filter)
    ensures Inflow(a + b, f) == Inflow(a, f) + Inflow(b, f)
    ensures Outflow(a + b, f) == Outflow(a, f) + Outflow(b, f)
    ensures Sum(a + b, f) == Sum(a, f) + Sum(b, f)
  {
    if a == [] {
      assert a + b == b;
    } else {
      assert (a + b)[1..] == a[1..] + b;
      TallyConcat(a[1..], b, f);
    }
  }

  lemma {:induction false} TallySame(ps: seq<Posting>, f: Filter, g: Filter)
    requires forall p :: p in ps ==> f(p) == g(p)
    ensures Tally(ps, f) == Tally(ps, g)
  {
    if ps != [] {
      assert ps[0] in ps;
      TallySame(ps[1..], f, g);
    }
  }

  // ---------------------------------------------------------------- two partitions, one total

  /** The nets of some months, added up. */
  function NetOver(db: Tables, month: Months, a: int, ms: seq<int>): int {
    if ms == [] then 0 else NetOver(db, month, a, ms[..|ms| - 1]) + Summarise(db, month, a, ms[|ms| - 1]).net
  }

  /** Postings of the account in any of some months. */
  function InMonths(headers: map<int, Header>, month: Months, a: int, ms: seq<int>): Filter {
    (p: Posting) => p.account == a && p.txId in headers && month(headers[p.txId].occurredAt) in ms
  }

  predicate Distinct(ms: seq<int>) { forall i, j :: 0 <= i < j < |ms| ==> ms[i] != ms[j] }

  lemma {:induction false} NetOverMonths(db: Tables, month: Months, a: int, ms: seq<int>)
    requires Distinct(ms)
    ensures NetOver(db, month, a, ms) == Sum(db.postings, InMonths(db.headers, month, a, ms))
  {
    var all := InMonths(db.headers, month, a, ms);
    if ms == [] {
      SumNone(db.postings, all);
    } else {
      var n := |ms| - 1;
      var one := InMonth(db.headers, month, a, ms[n]);
      NetOverMonths(db, month, a, ms[..n]);
      assert ms == ms[..n] + [ms[n]];
      SumSplit(db.postings, all, one);
      SumSame(db.postings, And(all, one), one);
      SumSame(db.postings, AndNot(all, one), InMonths(db.headers, month, a, ms[..n]));
    }
  }

  /**
   * In every reachable state, cutting an account's history by month of occurrence and cutting
   * it at any creation time give one total: the nets of all months add up to the balance. In
   * each month the net is inflow minus outflow.
   */
  lemma TwoPartitionsOneTotal(s: State, month: Months, a: int, ms: seq<int>, cutoff: int)
    requires Reachable(s) && Distinct(ms)
    requires forall t :: t in s.db.headers ==> month(s.db.headers[t].occurredAt) in ms
    ensures NetOver(s.db, month, a, ms) == Sum(s.db.postings, OnAccount(a))
    ensures NetOver(s.db, month, a, ms) == Sum(s.db.postings, Balance.UpTo(a, cutoff))
      + Sum(s.db.postings, Balance.Since(a, cutoff))
    ensures forall m ::
      Summarise(s.db, month, a, m).net == Summarise(s.db, month, a, m).inflow - Summarise(s.db, month, a, m).outflow
    ensures forall m :: IsSummary(s.db.postings, InMonth(s.db.headers, month, a, m), Summarise(s.db, month, a, m))
  {
    forall m ensures IsSummary(s.db.postings, InMonth(s.db.headers, month, a, m), Summarise(s.db, month, a, m)) {
      SummaryExact(s.db, month, a, m, InMonth(s.db.headers, month, a, m));
    }
    ReachableInv(s);
    NetOverMonths(s.db, month, a, ms);
    forall p | p in s.db.postings ensures InMonths(s.db.headers, month, a, ms)(p) == OnAccount(a)(p) {
      assert PostingOk(s.db, p);
    }
    SumSame(s.db.postings, InMonths(s.db.headers, month, a, ms), OnAccount(a));
    Balance.SplitAtCutoff(s.db.postings, a, cutoff);
    forall m ensures Summarise(s.db, month, a, m).net ==
      Summarise(s.db, month, a, m).inflow - Summarise(s.db, month, a, m).outflow {
      NetIsDifference(s.db.postings, InMonth(s.db.headers, month, a, m));
    }
  }

  // ---------------------------------------------------------------- the export

  /** WHERE t.user_id = user AND a.kind = 'normal' AND the month matches. */
  function Exported(db: Tables, month: Months, user: int, m: int): Filter {
    (p: Posting) => p.txId in db.headers && p.account in db.accounts && db.headers[p.txId].user == user &&
      !db.accounts[p.account].external && month(db.headers[p.txId].occurredAt) == m
  }

  predicate RowBefore(db: Tables, p: Posting, q: Posting) {
    p.txId in db.headers && q.txId in db.headers &&
    (db.headers[p.txId].occurredAt < db.headers[q.txId].occurredAt ||
     (db.headers[p.txId].occurredAt == db.headers[q.txId].occurredAt && p.id <= q.id))
  }

  /** The exported rows: the selection, ordered by occurrence and posting id. */
  ghost predicate IsExport(db: Tables, month: Months, user: int, m: int, rows: seq<Posting>) {
    && multiset(rows) == multiset(Select(db.postings, Exported(db, month, user, m)))
    && forall i, j :: 0 <= i < j < |rows| ==> RowBefore(db, rows[i], rows[j])
  }

  function InsertRow(db: Tables, p: Posting, rows: seq<Posting>): (r: seq<Posting>)
    ensures multiset(r) == multiset(rows) + multiset{p}
  {
    if rows == [] || RowBefore(db, p, rows[0]) then [p] + rows
    else
      assert rows == [rows[0]] + rows[1..];
      [rows[0]] + InsertRow(db, p, rows[1..])
  }

  /** ListPostingsForMonth. */
  function Export(db: Tables, rows: seq<Posting>): (r: seq<Posting>)
    ensures multiset(r) == multiset(rows)
  {
    if rows == [] then []
    else
      assert rows == [rows[0]] + rows[1..];
      InsertRow(db, rows[0], Export(db, rows[1..]))
  }

  ghost predicate Sorted(db: Tables, rows: seq<Posting>) {
    forall i, j :: 0 <= i < j < |rows| ==> RowBefore(db, rows[i], rows[j])
  }

  lemma {:induction false} InsertRowSorted(db: Tables, p: Posting, rows: seq<Posting>)
    requires Sorted(db, rows) && p.txId in db.headers && forall q :: q in rows ==> q.txId in db.headers
    ensures Sorted(db, InsertRow(db, p, rows))
  {
    if rows != [] && !RowBefore(db, p, rows[0]) {
      var rest := InsertRow(db, p, rows[1..]);
      InsertRowSorted(db, p, rows[1..]);
      assert rows[0] in rows;
      forall j | 0 <= j < |rest| ensures RowBefore(db, rows[0], rest[j]) {
        assert rest[j] in multiset(rest);
        if rest[j] != p {
          assert rest[j] in rows[1..];
          var k :| 0 <= k < |rows[1..]| && rows[1..][k] == rest[j];
          assert rows[k + 1] == rest[j];
        }
      }
    }
  }

  lemma {:induction false} ExportSorted(db: Tables, rows: seq<Posting>)
    requires forall q :: q in rows ==> q.txId in db.headers
    ensures Sorted(db, Export(db, rows))
  {
    if rows != [] {
      ExportSorted(db, rows[1..]);
      forall q | q in Export(db, rows[1..]) ensures q.txId in db.headers {
        assert q in multiset(Export(db, rows[1..]));
        assert q in rows[1..];
      }
      InsertRowSorted(db, rows[0], Export(db, rows[1..]));
    }
  }

  /** There is always an export to speak of. */
  lemma ExportExists(db: Tables, month: Months, user: int, m: int)
    ensures IsExport(db, month, user, m, Export(db, Select(db.postings, Exported(db, month, user, m))))
  {
    ExportSorted(db, Select(db.postings, Exported(db, month, user, m)));
  }

  /** Rows come in the order of their transactions' time, then of their ids. */
  lemma ExportOrder(db: Tables, month: Months, user: int, m: int, rows: seq<Posting>, i: nat, j: nat)
    requires IsExport(db, month, user, m, rows) && i < j < |rows|
    ensures rows[i].txId in db.headers && rows[j].txId in db.headers
    ensures var a, b := db.headers[rows[i].txId].occurredAt, db.headers[rows[j].txId].occurredAt;
      a < b || (a == b && rows[i].id <= rows[j].id)
  {
    assert RowBefore(db, rows[i], rows[j]);
  }

  lemma ExportTotal(db: Tables, month: Months, user: int, m: int, rows: seq<Posting>, f: Filter)
    requires IsExport(db, month, user, m, rows)
    ensures Sum(rows, f) == Sum(db.postings, And(Exported(db, month, user, m), f))
  {
    SumPermutation(rows, Select(db.postings, Exported(db, month, user, m)), f);
    SumSelect(db.postings, Exported(db, month, user, m), f);
  }

  /** The user's own normal account? */
  predicate NormalOf(db: Tables, user: int, a: int) {
    a in db.accounts && db.accounts[a].user == user && !db.accounts[a].external
  }

  /** Rows of one account add up to that account's net for the month; other accounts have no rows. */
  lemma ExportAgreesByAccount(s: State, month: Months, user: int, m: int, rows: seq<Posting>, a: int)
    requires Reachable(s) && IsExport(s.db, month, user, m, rows)
    ensures Sum(rows, OnAccount(a)) == if NormalOf(s.db, user, a) then Summarise(s.db, month, a, m).net else 0
    ensures !NormalOf(s.db, user, a) ==> forall p :: p in rows ==> p.account != a
  {
    ReachableInv(s);
    var db := s.db;
    var both := And(Exported(db, month, user, m), OnAccount(a));
    ExportTotal(db, month, user, m, rows, OnAccount(a));
    forall p | p in db.postings
      ensures both(p) == (NormalOf(db, user, a) && InMonth(db.headers, month, a, m)(p))
    {
      assert PostingOk(db, p);
    }
    if NormalOf(db, user, a) {
      SumSame(db.postings, both, InMonth(db.headers, month, a, m));
    } else {
      SumNone(db.postings, both);
      forall p | p in rows ensures p.account != a {
        assert p in multiset(rows);
        assert p in Select(db.postings, Exported(db, month, user, m));
      }
    }
  }

  function RowCurrency(db: Tables, currency: string): Filter {
    (p: Posting) => p.txId in db.headers && db.headers[p.txId].currency == currency
  }

  function TxInMonth(db: Tables, month: Months, user: int, currency: string, m: int): int -> bool {
    t => t in db.headers && db.headers[t].user == user && db.headers[t].currency == currency
      && month(db.headers[t].occurredAt) == m
  }

  /** Postings on the user's external account in a currency and month. */
  function ExternalInMonth(db: Tables, month: Months, user: int, currency: string, m: int): Filter {
    (p: Posting) => ExternalIn(db, user, currency)(p) && p.txId in db.headers
      && month(db.headers[p.txId].occurredAt) == m
  }

  /** In a transaction of the user, currency and month a posting is exported or is on the external account. */
  lemma ExportedOrExternal(db: Tables, month: Months, user: int, m: int, currency: string, p: Posting)
    requires PostingOk(db, p)
    ensures var g := TxFilter(TxInMonth(db, month, user, currency, m));
      && And(g, OnNormal(db))(p) == And(Exported(db, month, user, m), RowCurrency(db, currency))(p)
      && AndNot(g, OnNormal(db))(p) == ExternalInMonth(db, month, user, currency, m)(p)
  {
  }

  lemma ExportCurrencyTotal(db: Tables, month: Months, user: int, m: int, rows: seq<Posting>, currency: string)
    requires PostingsOk(db) && (forall t :: Sum(db.postings, OfTx(t)) == 0) && IsExport(db, month, user, m, rows)
    ensures Sum(rows, RowCurrency(db, currency)) == -Sum(db.postings, ExternalInMonth(db, month, user, currency, m))
  {
    var ps := db.postings;
    var g := TxInMonth(db, month, user, currency, m);
    var exported := And(Exported(db, month, user, m), RowCurrency(db, currency));
    var external := ExternalInMonth(db, month, user, currency, m);
    ExportTotal(db, month, user, m, rows, RowCurrency(db, currency));
    WholeTransactionsNetZero(ps, g);
    SumSplit(ps, TxFilter(g), OnNormal(db));
    forall p | p in ps
      ensures And(TxFilter(g), OnNormal(db))(p) == exported(p)
      ensures AndNot(TxFilter(g), OnNormal(db))(p) == external(p)
    {
      assert PostingOk(db, p);
      ExportedOrExternal(db, month, user, m, currency, p);
    }
    SumSame(ps, And(TxFilter(g), OnNormal(db)), exported);
    SumSame(ps, AndNot(TxFilter(g), OnNormal(db)), external);
  }

  /** Per currency the export is minus what the external account took in that month. */
  lemma ExportAgreesByCurrency(s: State, month: Months, user: int, m: int, rows: seq<Posting>, currency: string)
    requires Reachable(s) && IsExport(s.db, month, user, m, rows)
    ensures Sum(rows, RowCurrency(s.db, currency)) ==
      -Sum(s.db.postings, ExternalInMonth(s.db, month, user, currency, m))
  {
    ReachableInv(s);
    forall t ensures Sum(s.db.postings, OfTx(t)) == 0 {
      TransactionNetsZero(s, t);
    }
    ExportCurrencyTotal(s.db, month, user, m, rows, currency);
  }
}
