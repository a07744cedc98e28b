/**
 * Keyset pagination on keys alone: a page holds the newest entries below a bound, and the next
 * one continues below its last key while the table grows.
 */
module Keyset {
  import opened Int64

  /** Entries are ordered by the instant they occurred at, then by posting id. */
  datatype Key = Key(at: int, id: I64)

  predicate Less(a: Key, b: Key) { a.at < b.at || (a.at == b.at && a.id < b.id) }

  /** A posting joined with its transaction; a missing note is empty. */
  datatype Entry = Entry(postingId: I64, txId: int, account: int, amount: I64, currency: string, occurredAt: int,
    note: string)

  function KeyOf(e: Entry): Key { Key(e.occurredAt, e.postingId) }

  predicate Newer(a: Entry, b: Entry) { Less(KeyOf(b), KeyOf(a)) }

  /** The primary key of `postings`. */
  ghost predicate UniqueIds(table: seq<Entry>) {
    forall i, j :: 0 <= i < j < |table| ==> table[i].postingId != table[j].postingId
  }

  ghost predicate Descending(es: seq<Entry>) { forall i, j :: 0 <= i < j < |es| ==> Newer(es[i], es[j]) }

  // ---------------------------------------------------------------- the query

  function Insert(e: Entry, es: seq<Entry>): (r: seq<Entry>)
    ensures |r| == |es| + 1 && forall x :: x in r <==> x == e || x in es
  {
    if es == [] then [e]
    else if Newer(e, es[0]) then [e] + es
    else
      assert es == [es[0]] + es[1..];
      [es[0]] + Insert(e, es[1..])
  }

  /** The entries before the cursor, newest first. */
  function Listing(table: seq<Entry>, cursor: Key): (r: seq<Entry>)
    ensures |r| <= |table|
    ensures forall e :: e in r <==> e in table && Less(KeyOf(e), cursor)
  {
    if table == [] then []
    else
      assert table == [table[0]] + table[1..];
      var rest := Listing(table[1..], cursor);
      if Less(KeyOf(table[0]), cursor) then Insert(table[0], rest) else rest
  }

  /** WHERE (occurred_at, id) < cursor ORDER BY both DESC LIMIT limit. */
  function Query(table: seq<Entry>, cursor: Key, limit: nat): seq<Entry> {
    var all := Listing(table, cursor);
    if limit < |all| then all[..limit] else all
  }

  lemma {:induction false} InsertDescending(e: Entry, es: seq<Entry>)
    requires Descending(es) && forall x :: x in es ==> x.postingId != e.postingId
    ensures Descending(Insert(e, es))
  {
    if es != [] {
      if !Newer(e, es[0]) {
        assert es[0] in es;
        InsertDescending(e, es[1..]);
        var r := Insert(e, es[1..]);
        forall j | 0 <= j < |r| ensures Newer(es[0], r[j]) {
          assert r[j] in r;
          if r[j] != e {
            var k :| 0 <= k < |es[1..]| && es[1..][k] == r[j];
            assert es[k + 1] == r[j];
          }
        }
      }
    }
  }

  lemma {:induction false} ListingDescending(table: seq<Entry>, cursor: Key)
    requires UniqueIds(table)
    ensures Descending(Listing(table, cursor))
  {
    if table != [] {
      var rest := Listing(table[1..], cursor);
      ListingDescending(table[1..], cursor);
      forall x | x in rest ensures x.postingId != table[0].postingId {
        var k :| 0 <= k < |table[1..]| && table[1..][k] == x;
        assert table[k + 1] == x;
      }
      if Less(KeyOf(table[0]), cursor) {
        InsertDescending(table[0], rest);
      }
    }
  }

  /** What a page of at most `limit` rows is, without saying how it is computed. */
  ghost predicate IsPage(table: seq<Entry>, cursor: Key, limit: nat, rows: seq<Entry>) {
    && Descending(rows) && |rows| <= limit
    && (forall e :: e in rows ==> e in table && Less(KeyOf(e), cursor))
    && (forall e :: e in table && Less(KeyOf(e), cursor) && e !in rows ==>
          |rows| == limit && forall x :: x in rows ==> Newer(x, e))
  }

  /** `all` is the sorted listing, said without computing it. */
  ghost predicate IsListing(table: seq<Entry>, top: Key, all: seq<Entry>) {
    Descending(all) && forall e :: e in all <==> e in table && Less(KeyOf(e), top)
  }

  lemma ListingIs(table: seq<Entry>, top: Key)
    requires UniqueIds(table)
    ensures IsListing(table, top, Listing(table, top))
  {
    ListingDescending(table, top);
  }

  lemma PrefixIsPage(table: seq<Entry>, cursor: Key, limit: nat, all: seq<Entry>, n: nat)
    requires IsListing(table, cursor, all) && n <= limit && n <= |all| && (n == limit || n == |all|)
    ensures IsPage(table, cursor, limit, all[..n])
  {
    var rows, rest := all[..n], all[n..];
    assert all == rows + rest;
    forall e | e in rows ensures e in all {
    }
    forall e | e in all && e !in rows ensures n == limit && forall x :: x in rows ==> Newer(x, e) {
      var k :| 0 <= k < |rest| && rest[k] == e;
      forall x | x in rows ensures Newer(x, e) {
        var i :| 0 <= i < n && rows[i] == x;
        assert all[i] == x && all[n + k] == e;
      }
    }
  }

  /** The query returns the newest `limit` entries before the cursor. */
  lemma QueryIsPage(table: seq<Entry>, cursor: Key, limit: nat)
    requires UniqueIds(table)
    ensures IsPage(table, cursor, limit, Query(table, cursor, limit))
  {
    var all := Listing(table, cursor);
    ListingIs(table, cursor);
    PrefixIsPage(table, cursor, limit, all, if limit < |all| then limit else |all|);
    assert all[..|all|] == all;
  }

  // ---------------------------------------------------------------- pages one after the other

  /** One page: the table as it then is, the limit, and the rows returned. */
  datatype Hop = Hop(table: seq<Entry>, limit: nat, rows: seq<Entry>)

  /** The key page k continues below: `top` at first, then the last key of the page before. */
  function Bound(top: Key, w: seq<Hop>, k: nat): Key
    requires k <= |w|
  {
    if k == 0 || w[k - 1].rows == [] then top else KeyOf(w[k - 1].rows[|w[k - 1].rows| - 1])
  }

  predicate Contains(big: seq<Entry>, small: seq<Entry>) { forall e :: e in small ==> e in big }

  ghost predicate HopOk(top: Key, w: seq<Hop>, k: nat)
    requires k < |w|
  {
    && IsPage(w[k].table, Bound(top, w, k), w[k].limit, w[k].rows)
    && w[k].limit >= 1 && (k + 1 < |w| ==> |w[k].rows| == w[k].limit)
  }

  /** Pages that follow each other while entries are only added. */
  ghost predicate IsChain(top: Key, w: seq<Hop>) {
    && (forall k {:trigger HopOk(top, w, k)} :: 0 <= k < |w| ==> HopOk(top, w, k))
    && (forall j, k {:trigger Contains(w[k].table, w[j].table)} :: 0 <= j <= k < |w| ==>
          Contains(w[k].table, w[j].table))
  }

  /** The rows of the first k pages, in the order they came. */
  function Rows(w: seq<Hop>, k: nat): seq<Entry>
    requires k <= |w|
  {
    if k == 0 then [] else Rows(w, k - 1) + w[k - 1].rows
  }

  lemma ConcatDescending(a: seq<Entry>, b: seq<Entry>, bound: Key)
    requires Descending(a) && Descending(b)
    requires forall e :: e in a ==> !Less(KeyOf(e), bound)
    requires forall e :: e in b ==> Less(KeyOf(e), bound)
    ensures Descending(a + b)
  {
    var c := a + b;
    forall i, j | 0 <= i < j < |c| ensures Newer(c[i], c[j]) {
      if i < |a| <= j {
        assert c[i] in a && c[j] in b;
      }
    }
  }

  /** The bound only moves down. */
  lemma {:induction false} BoundFalls(top: Key, w: seq<Hop>, k: nat)
    requires k <= |w| && IsChain(top, w)
    ensures Bound(top, w, k) == top || Less(Bound(top, w, k), top)
    ensures k > 0 && w[k - 1].rows != [] ==> Less(Bound(top, w, k), Bound(top, w, k - 1))
  {
    if k > 0 && w[k - 1].rows != [] {
      BoundFalls(top, w, k - 1);
      assert HopOk(top, w, k - 1);
      assert w[k - 1].rows[|w[k - 1].rows| - 1] in w[k - 1].rows;
    }
  }

  /** A page that is not the last holds an entry. */
  lemma NotLast(top: Key, w: seq<Hop>, k: nat)
    requires k + 1 < |w| && IsChain(top, w)
    ensures w[k].rows != []
  {
    assert HopOk(top, w, k);
  }

  ghost predicate Ordered(top: Key, w: seq<Hop>, k: nat)
    requires k <= |w|
  {
    && Descending(Rows(w, k))
    && (forall e :: e in Rows(w, k) ==> Less(KeyOf(e), top))
    && (k < |w| ==> forall e :: e in Rows(w, k) ==> !Less(KeyOf(e), Bound(top, w, k)))
  }

  lemma LastIsLeast(a: seq<Entry>, b: seq<Entry>)
    requires Descending(a + b) && b != []
    ensures forall e :: e in a + b ==> !Less(KeyOf(e), KeyOf(b[|b| - 1]))
  {
    assert (a + b)[|a + b| - 1] == b[|b| - 1];
  }

  lemma {:induction false} ChainOrdered(top: Key, w: seq<Hop>, k: nat)
    requires k <= |w| && IsChain(top, w)
    ensures Ordered(top, w, k)
  {
    if k > 0 {
      var rows := w[k - 1].rows;
      ChainOrdered(top, w, k - 1);
      BoundFalls(top, w, k - 1);
      assert HopOk(top, w, k - 1);
      ConcatDescending(Rows(w, k - 1), rows, Bound(top, w, k - 1));
      if k < |w| {
        NotLast(top, w, k - 1);
        LastIsLeast(Rows(w, k - 1), rows);
      }
    }
  }

  lemma {:induction false} RowsFromTables(top: Key, w: seq<Hop>, k: nat, e: Entry)
    requires k <= |w| && IsChain(top, w) && e in Rows(w, k)
    ensures k > 0 && e in w[k - 1].table
  {
    if e in w[k - 1].rows {
      assert HopOk(top, w, k - 1);
    } else {
      RowsFromTables(top, w, k - 1, e);
      assert Contains(w[k - 1].table, w[k - 2].table);
    }
  }

  /** Nothing between the pages: an entry of the first table was returned, or is still to come. */
  lemma {:induction false} ChainCovers(top: Key, w: seq<Hop>, k: nat, e: Entry)
    requires k <= |w| && IsChain(top, w) && |w| > 0 && e in w[0].table && Less(KeyOf(e), top)
    ensures e in Rows(w, k) || Less(KeyOf(e), Bound(top, w, k))
    ensures k > 0 && |w[k - 1].rows| < w[k - 1].limit ==> e in Rows(w, k)
  {
    if k > 0 {
      ChainCovers(top, w, k - 1, e);
      assert HopOk(top, w, k - 1);
      assert Contains(w[k - 1].table, w[0].table);
    }
  }

  /**
   * Rows come in strictly descending order, so none twice; each is in the table and below
   * `top`; and after a short page an entry of the first table has been returned exactly when
   * it is below `top`.
   */
  lemma ChainComplete(top: Key, w: seq<Hop>)
    requires IsChain(top, w) && w != []
    ensures Descending(Rows(w, |w|))
    ensures forall e :: e in Rows(w, |w|) ==> e in w[|w| - 1].table && Less(KeyOf(e), top)
    ensures |w[|w| - 1].rows| < w[|w| - 1].limit ==>
      forall e :: e in w[0].table ==> (e in Rows(w, |w|) <==> Less(KeyOf(e), top))
  {
    ChainOrdered(top, w, |w|);
    forall e | e in Rows(w, |w|) ensures e in w[|w| - 1].table {
      RowsFromTables(top, w, |w|, e);
    }
    if |w[|w| - 1].rows| < w[|w| - 1].limit {
      forall e | e in w[0].table && Less(KeyOf(e), top) ensures e in Rows(w, |w|) {
        ChainCovers(top, w, |w|, e);
      }
    }
  }

  // ---------------------------------------------------------------- a table that does not change

  lemma TailMember(a: seq<Entry>, e: Entry)
    requires a != [] && Descending(a)
    ensures e in a[1..] <==> e in a && e != a[0]
  {
    assert a == [a[0]] + a[1..];
    if e in a[1..] {
      var k :| 0 <= k < |a[1..]| && a[1..][k] == e;
      assert Newer(a[0], a[k + 1]);
    }
  }

  lemma {:induction false} DescendingFits(a: seq<Entry>, b: seq<Entry>)
    requires Descending(a) && Descending(b) && forall e :: e in a ==> e in b
    ensures |a| <= |b|
  {
    if a != [] {
      var n := |a| - 1;
      assert a[n] in b;
      var k :| 0 <= k < |b| && b[k] == a[n];
      forall e | e in a[..n] ensures e in b[..k] {
        var i :| 0 <= i < n && a[i] == e;
        assert a[i] in b;
        var j :| 0 <= j < |b| && b[j] == e;
        assert Newer(a[i], a[n]);
      }
      DescendingFits(a[..n], b[..k]);
    }
  }

  lemma {:induction false} DescendingUnique(a: seq<Entry>, b: seq<Entry>)
    requires Descending(a) && Descending(b) && forall e :: e in a <==> e in b
    ensures a == b
  {
    if a == [] {
      DescendingFits(b, a);
    } else {
      assert a[0] in b;
      assert b[0] in a;
      assert a[0] == b[0];
      forall e ensures e in a[1..] <==> e in b[1..] {
        TailMember(a, e);
        TailMember(b, e);
      }
      DescendingUnique(a[1..], b[1..]);
      assert a == [a[0]] + a[1..];
    }
  }

  ghost predicate Fixed(w: seq<Hop>, table: seq<Entry>) { forall k :: 0 <= k < |w| ==> w[k].table == table }

  /** The pages are, in order, exactly the sorted listing. */
  lemma FixedListing(top: Key, w: seq<Hop>, table: seq<Entry>)
    requires IsChain(top, w) && w != [] && |w[|w| - 1].rows| < w[|w| - 1].limit && Fixed(w, table) && UniqueIds(table)
    ensures Rows(w, |w|) == Listing(table, top)
  {
    ChainComplete(top, w);
    assert w[0].table == table && w[|w| - 1].table == table;
    ListingDescending(table, top);
    DescendingUnique(Rows(w, |w|), Listing(table, top));
  }

  lemma {:induction false} EveryPageReturns(top: Key, w: seq<Hop>, k: nat)
    requires IsChain(top, w) && k < |w|
    ensures |Rows(w, k)| >= k
  {
    if k > 0 {
      EveryPageReturns(top, w, k - 1);
      NotLast(top, w, k - 1);
    }
  }

  /** ... and there are at most as many pages as entries, and one more. */
  lemma FixedEnds(top: Key, w: seq<Hop>, table: seq<Entry>)
    requires IsChain(top, w) && UniqueIds(table) && Fixed(w, table)
    ensures |w| <= |Listing(table, top)| + 1
  {
    if w != [] {
      var k := |w| - 1;
      ChainOrdered(top, w, k);
      EveryPageReturns(top, w, k);
      ListingDescending(table, top);
      forall e | e in Rows(w, k) ensures e in Listing(table, top) {
        RowsFromTables(top, w, k, e);
        assert w[k - 1].table == table;
      }
      DescendingFits(Rows(w, k), Listing(table, top));
    }
  }

  // ---------------------------------------------------------------- which entries end the pages

  lemma SameFirst(a: seq<Entry>, b: seq<Entry>)
    requires a != [] && b != [] && Descending(a) && Descending(b) && a[0] in b
    requires b[0] in a || Newer(a[0], b[0])
    ensures a[0] == b[0]
  {
    var j :| 0 <= j < |b| && b[j] == a[0];
    assert j > 0 ==> Newer(b[0], b[j]);
    if b[0] in a {
      var i :| 0 <= i < |a| && a[i] == b[0];
      assert i > 0 ==> Newer(a[0], a[i]);
    }
  }

  /** Newest entries of `b` that are closed upwards are a prefix of it. */
  lemma {:induction false} PrefixUnique(a: seq<Entry>, b: seq<Entry>)
    requires Descending(a) && Descending(b) && (forall e :: e in a ==> e in b)
    requires forall e :: e in b && e !in a ==> forall x :: x in a ==> Newer(x, e)
    ensures |a| <= |b| && a == b[..|a|]
  {
    DescendingFits(a, b);
    if a != [] {
      SameFirst(a, b);
      forall e ensures (e in a[1..] ==> e in b[1..])
        && (e in b[1..] && e !in a[1..] ==> forall x :: x in a[1..] ==> Newer(x, e)) {
        TailMember(a, e);
        TailMember(b, e);
      }
      PrefixUnique(a[1..], b[1..]);
      assert a == [a[0]] + a[1..];
    }
  }

  lemma RowsAbove(top: Key, w: seq<Hop>, k: nat, x: Entry)
    requires IsChain(top, w) && 0 < k <= |w| && w[k - 1].rows != [] && x in Rows(w, k)
    ensures !Less(KeyOf(x), Bound(top, w, k))
  {
    ChainOrdered(top, w, k);
    LastIsLeast(Rows(w, k - 1), w[k - 1].rows);
  }

  /** On a table that does not change the first k pages are a prefix of the listing. */
  lemma FixedPrefix(top: Key, w: seq<Hop>, table: seq<Entry>, all: seq<Entry>, k: nat)
    requires IsChain(top, w) && Fixed(w, table) && IsListing(table, top, all) && k <= |w|
    ensures |Rows(w, k)| <= |all| && Rows(w, k) == all[..|Rows(w, k)|]
  {
    ChainOrdered(top, w, k);
    forall e | e in Rows(w, k) ensures e in all {
      RowsFromTables(top, w, k, e);
      assert w[k - 1].table == table;
    }
    forall e, x | e in all && e !in Rows(w, k) && x in Rows(w, k) ensures Newer(x, e) {
      assert w[0].table == table && HopOk(top, w, k - 1);
      ChainCovers(top, w, k, e);
      RowsAbove(top, w, k, x);
    }
    PrefixUnique(Rows(w, k), all);
  }

  /** The last row so far is the entry of the listing that the rows so far reach. */
  lemma LastReached(top: Key, w: seq<Hop>, table: seq<Entry>, all: seq<Entry>)
    requires IsChain(top, w) && Fixed(w, table) && IsListing(table, top, all) && w != [] && w[|w| - 1].rows != []
    ensures var n := |Rows(w, |w|)|; var rows := w[|w| - 1].rows;
      1 <= n <= |all| && rows[|rows| - 1] == all[n - 1] && Less(KeyOf(rows[|rows| - 1]), top)
  {
    FixedPrefix(top, w, table, all, |w|);
    var so := Rows(w, |w|);
    assert so[|so| - 1] == all[..|so|][|so| - 1];
    assert all[|so| - 1] in all;
  }

  /** Pages that are not the last are full. */
  lemma {:induction false} FullCount(top: Key, w: seq<Hop>, m: nat, k: nat)
    requires IsChain(top, w) && k < |w| && forall i :: 0 <= i < |w| ==> w[i].limit == m
    ensures |Rows(w, k)| == k * m
  {
    if k > 0 {
      FullCount(top, w, m, k - 1);
      assert HopOk(top, w, k - 1);
      assert k * m == (k - 1) * m + m;
    }
  }
}
