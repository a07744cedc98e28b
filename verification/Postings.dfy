/** Ledger lines, and exact (SQL `SUM`) totals over the lines a filter selects. */
module Postings {
  import opened Int64

  datatype Option<+T> = None | Some(value: T)

  /** A row of `postings`; `createdAt` defaults to the start of the inserting DB transaction. */
  datatype Posting = Posting(id: int, txId: int, account: int, amount: I64, createdAt: int)

  type Filter = Posting -> bool

  /** SELECT COALESCE(SUM(amount_minor), 0) ... WHERE f. SQL sums are exact. */
  function Sum(ps: seq<Posting>, f: Filter): int {
    if ps == [] then 0 else (if f(ps[0]) then ps[0].amount else 0) + Sum(ps[1..], f)
  }

  /** SELECT ... WHERE f, in insertion order. */
  function Select(ps: seq<Posting>, f: Filter): (r: seq<Posting>)
    ensures |r| <= |ps|
    ensures forall p :: p in r <==> p in ps && f(p)
  {
    if ps == [] then []
    else
      assert ps == [ps[0]] + ps[1..];
      (if f(ps[0]) then [ps[0]] else []) + Select(ps[1..], f)
  }

  function OfTx(t: int): Filter { (p: Posting) => p.txId == t }

  function OnAccount(a: int): Filter { (p: Posting) => p.account == a }

  function And(f: Filter, g: Filter): Filter { (p: Posting) => f(p) && g(p) }

  function AndNot(f: Filter, g: Filter): Filter { (p: Posting) => f(p) && !g(p) }

  function PostingsOf(ps: seq<Posting>, t: int): seq<Posting> { Select(ps, OfTx(t)) }

  lemma {:induction false} SumConcat(a: seq<Posting>, b: seq<Posting>, f: Filter)
    ensures Sum(a + b, f) == Sum(a, f) + Sum(b, f)
  {
    if a == [] {
      assert a + b == b;
    } else {
      assert (a + b)[1..] == a[1..] + b;
      SumConcat(a[1..], b, f);
    }
  }

  lemma {:induction false} SelectConcat(a: seq<Posting>, b: seq<Posting>, f: Filter)
    ensures Select(a + b, f) == Select(a, f) + Select(b, f)
  {
    if a == [] {
      assert a + b == b;
    } else {
      assert (a + b)[1..] == a[1..] + b;
      SelectConcat(a[1..], b, f);
    }
  }

  lemma {:induction false} SelectAll(ps: seq<Posting>, f: Filter)
    requires forall p :: p in ps ==> f(p)
    ensures Select(ps, f) == ps
  {
    if ps != [] {
      SelectAll(ps[1..], f);
    }
  }

  lemma SelectNone(ps: seq<Posting>, f: Filter)
    requires forall p :: p in ps ==> !f(p)
    ensures Select(ps, f) == []
  {
    assert forall p :: p !in Select(ps, f);
  }

  /** Filters that agree on the rows give the same total. */
  lemma {:induction false} SumSame(ps: seq<Posting>, f: Filter, g: Filter)
    requires forall p :: p in ps ==> f(p) == g(p)
    ensures Sum(ps, f) == Sum(ps, g)
  {
    if ps != [] {
      assert ps[0] in ps;
      SumSame(ps[1..], f, g);
    }
  }

  lemma {:induction false} SumNone(ps: seq<Posting>, f: Filter)
    requires forall p :: p in ps ==> !f(p)
    ensures Sum(ps, f) == 0
  {
    if ps != [] {
      assert ps[0] in ps;
      SumNone(ps[1..], f);
    }
  }

  /** Splitting a selection in two splits its total. */
  lemma {:induction false} SumSplit(ps: seq<Posting>, f: Filter, g: Filter)
    ensures Sum(ps, f) == Sum(ps, And(f, g)) + Sum(ps, AndNot(f, g))
  {
    if ps != [] {
      SumSplit(ps[1..], f, g);
    }
  }

  /** Totalling a selection is totalling with both conditions. */
  lemma {:induction false} SumSelect(ps: seq<Posting>, f: Filter, g: Filter)
    ensures Sum(Select(ps, f), g) == Sum(ps, And(f, g))
  {
    if ps != [] {
      SumSelect(ps[1..], f, g);
      SumConcat(if f(ps[0]) then [ps[0]] else [], Select(ps[1..], f), g);
      assert Select(ps, f) == (if f(ps[0]) then [ps[0]] else []) + Select(ps[1..], f);
    }
  }

  function TxFilter(g: int -> bool): Filter { (p: Posting) => g(p.txId) }

  /**
   * If every transaction nets to zero then so does every union of whole transactions:
   * a total over a condition on the transaction alone is zero.
   */
  lemma {:induction false} WholeTransactionsNetZero(ps: seq<Posting>, g: int -> bool)
    requires forall t :: Sum(ps, OfTx(t)) == 0
    ensures Sum(ps, TxFilter(g)) == 0
    decreases |ps|
  {
    if ps != [] {
      var t0 := ps[0].txId;
      var others: Filter := (p: Posting) => p.txId != t0;
      var rest := Select(ps, others);
      assert |rest| < |ps| by {
        assert rest == Select(ps[1..], others);
      }
      forall t ensures Sum(rest, OfTx(t)) == 0 {
        SumSelect(ps, others, OfTx(t));
        if t == t0 {
          SumNone(ps, And(others, OfTx(t)));
        } else {
          SumSame(ps, And(others, OfTx(t)), OfTx(t));
        }
      }
      WholeTransactionsNetZero(rest, g);
      SumSelect(ps, others, TxFilter(g));
      SumSplit(ps, TxFilter(g), others);
      SumSame(ps, And(TxFilter(g), others), And(others, TxFilter(g)));
      if g(t0) {
        SumSame(ps, AndNot(TxFilter(g), others), OfTx(t0));
      } else {
        SumNone(ps, AndNot(TxFilter(g), others));
      }
    }
  }

  lemma SumRemove(ps: seq<Posting>, k: nat, f: Filter)
    requires k < |ps|
    ensures Sum(ps, f) == Sum([ps[k]], f) + Sum(ps[..k] + ps[k + 1..], f)
  {
    assert ps == ps[..k] + ([ps[k]] + ps[k + 1..]);
    SumConcat(ps[..k], [ps[k]] + ps[k + 1..], f);
    SumConcat([ps[k]], ps[k + 1..], f);
    SumConcat(ps[..k], ps[k + 1..], f);
  }

  lemma RemoveMultiset(ps: seq<Posting>, k: nat)
    requires k < |ps|
    ensures multiset(ps[..k] + ps[k + 1..]) == multiset(ps) - multiset{ps[k]}
  {
    assert ps == ps[..k] + ([ps[k]] + ps[k + 1..]);
    assert multiset(ps) == multiset(ps[..k]) + multiset{ps[k]} + multiset(ps[k + 1..]);
  }

  /** A total does not depend on the order of the rows. */
  lemma {:induction false} SumPermutation(a: seq<Posting>, b: seq<Posting>, f: Filter)
    requires multiset(a) == multiset(b)
    ensures Sum(a, f) == Sum(b, f)
    decreases |a|
  {
    if a == [] {
      assert |multiset(b)| == 0;
    } else {
      assert a[0] in multiset(b);
      var k :| 0 <= k < |b| && b[k] == a[0];
      RemoveMultiset(a, 0);
      RemoveMultiset(b, k);
      SumRemove(a, 0, f);
      SumRemove(b, k, f);
      SumPermutation(a[..0] + a[1..], b[..k] + b[k + 1..], f);
    }
  }
}
