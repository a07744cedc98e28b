/** Listing an account's entries: the request handler, and walks that follow its cursors. */
module Paging {
  import opened Int64
  import opened Text
  import opened Calendar
  import opened Cursor
  import opened Keyset

  // ---------------------------------------------------------------- the handler

  /** How cursors are written and read; `CursorCodec` is the handler's own. */
  datatype Codec = Codec(encode: Key -> string, decode: string -> Parse<Key>)

  function CursorCodec(): Codec { Codec(Cursor.Encode, Cursor.Decode) }

  /** A cursor that is not refused stands for the key it was made from; the empty one means `top`. */
  ghost predicate Lawful(c: Codec, top: Key) {
    && c.decode("") == Got(top)
    && forall k {:trigger c.encode(k)} ::
         c.encode(k) != "" && (c.decode(c.encode(k)) == Got(k) || c.decode(c.encode(k)) == Bad)
  }

  lemma CursorLawful()
    ensures Lawful(CursorCodec(), Sentinel())
  {
    var c := CursorCodec();
    forall k ensures c.encode(k) != "" && (c.decode(c.encode(k)) == Got(k) || c.decode(c.encode(k)) == Bad) {
      DecodeEncode(k);
      RoundTrip(k);
    }
  }

  datatype Response = BadCursor | Panics | Page(entries: seq<Entry>, next: string)

  const DEFAULT_LIMIT: nat := 20
  const MAX_LIMIT: nat := 100

  /** The limit parameter: absent, malformed or negative means 20; at most 100. Zero stays zero. */
  function Limit(param: string): (n: nat)
    ensures n <= 100
    ensures n == 0 <==> ParseInt(param) == Got(0)
    ensures ParseInt(param).Bad? || ParseInt(param).value < 0 ==> n == 20
    ensures ParseInt(param).Got? && 0 <= ParseInt(param).value <= 100 ==> n == ParseInt(param).value
    ensures ParseInt(param).Got? && ParseInt(param).value > 100 ==> n == 100
  {
    var parsed := ParseInt(param);
    var n := if param == "" || parsed.Bad? || parsed.value < 0 then DEFAULT_LIMIT else parsed.value;
    if n > MAX_LIMIT then MAX_LIMIT else n
  }

  /** The answer for the rows of a page; an empty page that is "full" makes the handler index -1. */
  function Answer(c: Codec, rows: seq<Entry>, limit: nat): Response {
    if |rows| != limit then Page(rows, "")
    else if rows == [] then Panics
    else Page(rows, c.encode(KeyOf(rows[|rows| - 1])))
  }

  /** What the handler answers. */
  function Serve(c: Codec, table: seq<Entry>, limitParam: string, cursor: string): Response {
    var k := c.decode(cursor);
    if k.Bad? then BadCursor else Answer(c, Query(table, k.value, Limit(limitParam)), Limit(limitParam))
  }

  lemma ServeOutcome(c: Codec, table: seq<Entry>, limit: string, cursor: string)
    ensures Serve(c, table, limit, cursor) == BadCursor <==> c.decode(cursor) == Bad
    ensures Serve(c, table, limit, cursor) == Panics <==> c.decode(cursor).Got? && ParseInt(limit) == Got(0)
  {
  }

  /** A page that answers the request that continues below `b`. */
  ghost predicate Answers(c: Codec, table: seq<Entry>, limit: nat, b: Key, p: Response) {
    && p.Page? && IsPage(table, b, limit, p.entries) && limit >= 1
    && (p.next == "" <==> |p.entries| < limit)
    && (p.next != "" ==> p.entries != [] && p.next == c.encode(KeyOf(p.entries[|p.entries| - 1])))
  }

  lemma PageShape(c: Codec, top: Key, table: seq<Entry>, limit: string, cursor: string)
    requires Lawful(c, top) && UniqueIds(table) && c.decode(cursor).Got? && ParseInt(limit) != Got(0)
    ensures Answers(c, table, Limit(limit), c.decode(cursor).value, Serve(c, table, limit, cursor))
  {
    QueryIsPage(table, c.decode(cursor).value, Limit(limit));
  }

  /** Every entry of the table that is of a year before 9999 is among `es`. */
  ghost predicate HasYears(table: seq<Entry>, es: seq<Entry>) {
    forall e :: e in table && Year(e.occurredAt) < 9999 ==> e in es
  }

  lemma BelowHasYears(table: seq<Entry>, es: seq<Entry>)
    requires forall e :: e in table && Less(KeyOf(e), Sentinel()) ==> e in es
    ensures HasYears(table, es)
  {
    forall e | e in table && Year(e.occurredAt) < 9999 ensures e in es {
      BelowSentinelIff(KeyOf(e));
    }
  }

  lemma OnePageHasYears(table: seq<Entry>, limit: nat, p: Response)
    requires Answers(CursorCodec(), table, limit, Sentinel(), p) && p.next == ""
    ensures HasYears(table, p.entries)
  {
    BelowHasYears(table, p.entries);
  }

  method Render(c: Codec, rows: seq<Entry>, limit: nat) returns (r: Response)
    ensures r == Answer(c, rows, limit)
  {
    var entries: seq<Entry> := [];
    for i := 0 to |rows|
      invariant entries == rows[..i]
    {
      entries := entries + [rows[i]];
    }
    assert entries == rows;
    var next := "";
    if |rows| == limit {
      if |rows| == 0 {
        return Panics;
      }
      var last := rows[|rows| - 1];
      next := c.encode(KeyOf(last));
    }
    r := Page(entries, next);
  }

  method HandleList(table: seq<Entry>, limitParam: string, cursor: string) returns (r: Response)
    ensures r == Serve(CursorCodec(), table, limitParam, cursor)
  {
    var limit := Limit(limitParam);
    var key := Cursor.Decode(cursor);
    if key.Bad? {
      return BadCursor;
    }
    var rows := Query(table, key.value, limit);
    r := Render(CursorCodec(), rows, limit);
  }

  /**
   * The handler. A malformed cursor is refused, a limit of zero panics, and otherwise the
   * answer is the newest entries before the cursor, with a next cursor exactly when the page
   * is full.
   */
  method ListAccountEntries(table: seq<Entry>, limitParam: string, cursor: string) returns (r: Response)
    requires UniqueIds(table)
    ensures r == Serve(CursorCodec(), table, limitParam, cursor)
    ensures r == BadCursor <==> CursorCodec().decode(cursor) == Bad
    ensures r == Panics <==> CursorCodec().decode(cursor).Got? && ParseInt(limitParam) == Got(0)
    ensures r.Page? ==>
      && CursorCodec().decode(cursor).Got?
      && Answers(CursorCodec(), table, Limit(limitParam), CursorCodec().decode(cursor).value, r)
    ensures r.Page? && cursor == "" && r.next == "" ==> HasYears(table, r.entries)
  {
    r := HandleList(table, limitParam, cursor);
    ghost var c := CursorCodec();
    ServeOutcome(c, table, limitParam, cursor);
    if r.Page? {
      CursorLawful();
      PageShape(c, Sentinel(), table, limitParam, cursor);
      if cursor == "" && r.next == "" {
        OnePageHasYears(table, Limit(limitParam), r);
      }
    }
  }

  // ---------------------------------------------------------------- walks

  /** One request of a walk: the table as it then is, and the limit parameter. */
  datatype Visit = Visit(table: seq<Entry>, limit: string, page: Response)

  /** The cursor of request k: empty at first, then the one the page before gave. */
  function CursorOf(w: seq<Visit>, k: nat): string
    requires k <= |w|
  {
    if k > 0 && w[k - 1].page.Page? then w[k - 1].page.next else ""
  }

  /** Pages answered one after the other, each from the cursor of the one before, while entries are added. */
  ghost predicate IsWalk(c: Codec, w: seq<Visit>) {
    && VisitsOk(c, w)
    && (forall j, k {:trigger Contains(w[k].table, w[j].table)} :: 0 <= j <= k < |w| ==>
          Contains(w[k].table, w[j].table))
  }

  ghost predicate VisitsOk(c: Codec, w: seq<Visit>) {
    forall k {:trigger VisitOk(c, w, k)} :: 0 <= k < |w| ==> VisitOk(c, w, k)
  }

  ghost predicate VisitOk(c: Codec, w: seq<Visit>, k: nat)
    requires k < |w|
  {
    && UniqueIds(w[k].table) && w[k].page.Page? && w[k].page == Serve(c, w[k].table, w[k].limit, CursorOf(w, k))
    && (k + 1 < |w| ==> w[k].page.next != "")
  }

  function Entries(p: Response): seq<Entry> { if p.Page? then p.entries else [] }

  /** The walk without the text of its cursors. */
  function Hops(w: seq<Visit>): seq<Hop> {
    seq(|w|, k requires 0 <= k < |w| => Hop(w[k].table, Limit(w[k].limit), Entries(w[k].page)))
  }

  /** All entries of the walk, in the order they came. */
  function Walked(w: seq<Visit>): seq<Entry> { Rows(Hops(w), |w|) }

  predicate Ended(w: seq<Visit>) { w != [] && w[|w| - 1].page.Page? && w[|w| - 1].page.next == "" }

  /** The served page, whatever cursor led to it, answers the request below the key the cursor stands for. */
  lemma ServedAnswers(c: Codec, top: Key, v: Visit, cursor: string, b: Key)
    requires Lawful(c, top) && UniqueIds(v.table) && v.page.Page? && v.page == Serve(c, v.table, v.limit, cursor)
    requires (cursor == "" && b == top) || cursor == c.encode(b)
    ensures Answers(c, v.table, Limit(v.limit), b, v.page)
  {
    ServeOutcome(c, v.table, v.limit, cursor);
    assert c.encode(b) != "";
    PageShape(c, top, v.table, v.limit, cursor);
  }

  /** The key request k continues below. */
  function BoundOf(top: Key, w: seq<Visit>, k: nat): Key
    requires k <= |w|
  {
    if k == 0 || Entries(w[k - 1].page) == [] then top
    else KeyOf(Entries(w[k - 1].page)[|Entries(w[k - 1].page)| - 1])
  }

  lemma BoundSame(top: Key, w: seq<Visit>, k: nat)
    requires k <= |w|
    ensures |Hops(w)| == |w| && Bound(top, Hops(w), k) == BoundOf(top, w, k)
  {
  }

  /** A page's next cursor, if any, is that of its last entry. */
  ghost predicate Linked(c: Codec, p: Response) {
    p.Page? && p.next != "" ==> p.entries != [] && p.next == c.encode(KeyOf(p.entries[|p.entries| - 1]))
  }

  lemma AnswerLinks(c: Codec, rows: seq<Entry>, limit: nat)
    ensures Linked(c, Answer(c, rows, limit))
  {
  }

  lemma ServeLinks(c: Codec, table: seq<Entry>, limit: string, cursor: string)
    ensures Linked(c, Serve(c, table, limit, cursor))
  {
    if c.decode(cursor).Got? {
      AnswerLinks(c, Query(table, c.decode(cursor).value, Limit(limit)), Limit(limit));
    }
  }

  lemma CursorIsBound(c: Codec, top: Key, w: seq<Visit>, k: nat)
    requires 0 < k <= |w| && w[k - 1].page.Page? && Linked(c, w[k - 1].page) && w[k - 1].page.next != ""
    ensures CursorOf(w, k) == c.encode(BoundOf(top, w, k))
  {
  }

  lemma VisitAnswers(c: Codec, top: Key, w: seq<Visit>, k: nat)
    requires Lawful(c, top) && VisitsOk(c, w) && k < |w|
    ensures Answers(c, w[k].table, Limit(w[k].limit), BoundOf(top, w, k), w[k].page)
  {
    assert VisitOk(c, w, k);
    if k > 0 {
      assert VisitOk(c, w, k - 1);
      ServeLinks(c, w[k - 1].table, w[k - 1].limit, CursorOf(w, k - 1));
      CursorIsBound(c, top, w, k);
    }
    ServedAnswers(c, top, w[k], CursorOf(w, k), BoundOf(top, w, k));
  }

  lemma VisitIsHop(c: Codec, top: Key, w: seq<Visit>, k: nat)
    requires Lawful(c, top) && VisitsOk(c, w) && k < |w|
    ensures |Hops(w)| == |w| && HopOk(top, Hops(w), k)
  {
    VisitAnswers(c, top, w, k);
    assert VisitOk(c, w, k);
    BoundSame(top, w, k);
    assert Hops(w)[k] == Hop(w[k].table, Limit(w[k].limit), w[k].page.entries);
  }

  lemma WalkIsChain(c: Codec, top: Key, w: seq<Visit>)
    requires Lawful(c, top) && IsWalk(c, w)
    ensures IsChain(top, Hops(w))
    ensures Ended(w) ==> |Hops(w)[|w| - 1].rows| < Hops(w)[|w| - 1].limit
  {
    var h := Hops(w);
    forall k | 0 <= k < |h| ensures HopOk(top, h, k) {
      VisitIsHop(c, top, w, k);
    }
    forall j, k | 0 <= j <= k < |h| ensures Contains(h[k].table, h[j].table) {
      assert Contains(w[k].table, w[j].table);
    }
    if Ended(w) {
      VisitAnswers(c, top, w, |w| - 1);
    }
  }

  /** The walk theorem for any lawful codec. */
  lemma LawfulWalk(c: Codec, top: Key, w: seq<Visit>)
    requires Lawful(c, top) && IsWalk(c, w) && w != []
    ensures Descending(Walked(w))
    ensures forall e :: e in Walked(w) ==> e in w[|w| - 1].table && Less(KeyOf(e), top)
    ensures Ended(w) ==> forall e :: e in w[0].table ==> (e in Walked(w) <==> Less(KeyOf(e), top))
  {
    WalkIsChain(c, top, w);
    ChainComplete(top, Hops(w));
    assert Hops(w)[0].table == w[0].table && Hops(w)[|w| - 1].table == w[|w| - 1].table;
  }

  lemma LawfulFixed(c: Codec, top: Key, w: seq<Visit>, table: seq<Entry>)
    requires Lawful(c, top) && IsWalk(c, w) && UniqueIds(table) && forall k :: 0 <= k < |w| ==> w[k].table == table
    ensures |w| <= |Listing(table, top)| + 1
    ensures Ended(w) ==> Walked(w) == Listing(table, top)
  {
    WalkIsChain(c, top, w);
    FixedEnds(top, Hops(w), table);
    if Ended(w) {
      FixedListing(top, Hops(w), table);
    }
  }

  /**
   * Following the handler's cursors over a growing ledger: entries come in strictly descending
   * order, so none twice; every one is in the ledger and below the first-page sentinel; and
   * once a page gives no cursor, an entry that was there at the first page has been returned
   * exactly when it is below the sentinel, whatever was inserted in between; all entries of
   * years before 9999 are.
   */
  lemma WalkComplete(w: seq<Visit>)
    requires IsWalk(CursorCodec(), w) && w != []
    ensures Descending(Walked(w))
    ensures forall e :: e in Walked(w) ==> e in w[|w| - 1].table && Less(KeyOf(e), Sentinel())
    ensures Ended(w) ==> forall e :: e in w[0].table ==> (e in Walked(w) <==> Less(KeyOf(e), Sentinel()))
    ensures Ended(w) ==> HasYears(w[0].table, Walked(w))
  {
    CursorLawful();
    LawfulWalk(CursorCodec(), Sentinel(), w);
    if Ended(w) {
      BelowHasYears(w[0].table, Walked(w));
    }
  }

  /** On a ledger that does not change an ended walk is the sorted listing, in at most one page more than entries. */
  lemma FixedLedger(w: seq<Visit>, table: seq<Entry>)
    requires IsWalk(CursorCodec(), w) && UniqueIds(table) && forall k :: 0 <= k < |w| ==> w[k].table == table
    ensures |w| <= |Listing(table, Sentinel())| + 1
    ensures Ended(w) ==> Walked(w) == Listing(table, Sentinel())
  {
    CursorLawful();
    LawfulFixed(CursorCodec(), Sentinel(), w, table);
  }

  lemma RequestBelow(b: Key, table: seq<Entry>, limit: string)
    requires Less(b, Sentinel())
    ensures Serve(CursorCodec(), table, limit, Cursor.Encode(b)) == BadCursor <==> Year(b.at) < 0
    ensures Serve(CursorCodec(), table, limit, Cursor.Encode(b)) == Panics <==>
      Year(b.at) >= 0 && ParseInt(limit) == Got(0)
  {
    RoundTrip(b);
    BeforeSentinel(b);
    ServeOutcome(CursorCodec(), table, limit, Cursor.Encode(b));
  }

  lemma LastOfPage(c: Codec, v: Visit, top: Key, b: Key)
    requires Answers(c, v.table, Limit(v.limit), b, v.page) && v.page.next != "" && (b == top || Less(b, top))
    ensures var es := v.page.entries;
      es != [] && v.page.next == c.encode(KeyOf(es[|es| - 1])) && Less(KeyOf(es[|es| - 1]), top)
  {
    var es := v.page.entries;
    assert es[|es| - 1] in es;
  }

  lemma LastBelow(c: Codec, top: Key, w: seq<Visit>)
    requires Lawful(c, top) && IsWalk(c, w) && w != [] && CursorOf(w, |w|) != ""
    ensures var es := Entries(w[|w| - 1].page);
      es != [] && CursorOf(w, |w|) == c.encode(KeyOf(es[|es| - 1])) && Less(KeyOf(es[|es| - 1]), top)
  {
    var k := |w| - 1;
    WalkIsChain(c, top, w);
    VisitAnswers(c, top, w, k);
    BoundFalls(top, Hops(w), k);
    BoundSame(top, w, k);
    LastOfPage(c, w[k], top, BoundOf(top, w, k));
  }

  /** When the next request of a walk fails: on a last entry before year 0, or on a limit of zero. */
  lemma NextRequest(w: seq<Visit>, last: Entry, table: seq<Entry>, limit: string)
    requires IsWalk(CursorCodec(), w) && w != [] && CursorOf(w, |w|) != ""
    requires Entries(w[|w| - 1].page) != [] && last == Entries(w[|w| - 1].page)[|Entries(w[|w| - 1].page)| - 1]
    ensures Serve(CursorCodec(), table, limit, CursorOf(w, |w|)) == BadCursor <==> Year(last.occurredAt) < 0
    ensures Serve(CursorCodec(), table, limit, CursorOf(w, |w|)) == Panics <==>
      Year(last.occurredAt) >= 0 && ParseInt(limit) == Got(0)
  {
    CursorLawful();
    LastBelow(CursorCodec(), Sentinel(), w);
    RequestBelow(KeyOf(last), table, limit);
  }

  // ---------------------------------------------------------------- the walk ends

  /** Requests with one limit on a ledger that does not change. */
  ghost predicate Steady(w: seq<Visit>, table: seq<Entry>, limit: string) {
    forall k :: 0 <= k < |w| ==> w[k].table == table && w[k].limit == limit
  }

  /** The pages of a steady walk, and the cursor its last page gives, on keys alone. */
  ghost predicate Pages(c: Codec, top: Key, h: seq<Hop>, table: seq<Entry>, m: nat, cursor: string) {
    && IsChain(top, h) && Fixed(h, table) && m >= 1 && (forall i :: 0 <= i < |h| ==> h[i].limit == m)
    && (h != [] ==> (cursor == "" <==> |h[|h| - 1].rows| < m))
    && (h != [] && cursor != "" ==>
          h[|h| - 1].rows != [] && cursor == c.encode(KeyOf(h[|h| - 1].rows[|h[|h| - 1].rows| - 1])))
  }

  lemma LastCursor(c: Codec, top: Key, w: seq<Visit>)
    requires Lawful(c, top) && VisitsOk(c, w) && w != []
    ensures var es := Entries(w[|w| - 1].page); var cursor := CursorOf(w, |w|);
      && (cursor == "" <==> |es| < Limit(w[|w| - 1].limit))
      && (cursor != "" ==> es != [] && cursor == c.encode(KeyOf(es[|es| - 1])))
  {
    VisitAnswers(c, top, w, |w| - 1);
  }

  lemma SteadyHops(w: seq<Visit>, table: seq<Entry>, limit: string)
    requires Steady(w, table, limit)
    ensures |Hops(w)| == |w| && Fixed(Hops(w), table)
    ensures forall i :: 0 <= i < |w| ==> Hops(w)[i].limit == Limit(limit) && Hops(w)[i].rows == Entries(w[i].page)
  {
  }

  lemma WalkPages(c: Codec, top: Key, w: seq<Visit>, table: seq<Entry>, limit: string)
    requires Lawful(c, top) && IsWalk(c, w) && Steady(w, table, limit) && ParseInt(limit) != Got(0)
    ensures Pages(c, top, Hops(w), table, Limit(limit), CursorOf(w, |w|)) && |Hops(w)| == |w|
  {
    WalkIsChain(c, top, w);
    SteadyHops(w, table, limit);
    if w != [] {
      LastCursor(c, top, w);
    }
  }

  /** The entry that ends the j-th full page can be written into a cursor that is read back. */
  predicate CutReadable(all: seq<Entry>, m: nat, j: nat) {
    1 <= j * m <= |all| ==> Year(all[j * m - 1].occurredAt) >= 0
  }

  ghost predicate CutsReadable(all: seq<Entry>, m: nat) {
    forall j {:trigger CutReadable(all, m, j)} :: CutReadable(all, m, j)
  }

  lemma FullSize(c: Codec, top: Key, h: seq<Hop>, table: seq<Entry>, m: nat, cursor: string)
    requires Pages(c, top, h, table, m, cursor) && h != [] && cursor != ""
    ensures |Rows(h, |h|)| == |h| * m
  {
    FullCount(top, h, m, |h| - 1);
    assert HopOk(top, h, |h| - 1);
    assert |h| * m == (|h| - 1) * m + m;
  }

  /** A full last page ends on the entry n * m of the listing, and the cursor is that entry's. */
  lemma PageEnd(c: Codec, top: Key, h: seq<Hop>, table: seq<Entry>, m: nat, cursor: string,
      all: seq<Entry>) returns (n: nat)
    requires Pages(c, top, h, table, m, cursor) && h != [] && cursor != "" && IsListing(table, top, all)
    ensures n == |h| * m && 1 <= n <= |all| && cursor == c.encode(KeyOf(all[n - 1])) && Less(KeyOf(all[n - 1]), top)
  {
    n := |Rows(h, |h|)|;
    FullSize(c, top, h, table, m, cursor);
    LastReached(top, h, table, all);
  }

  lemma ServedBelow(cursor: string, b: Key, table: seq<Entry>, limit: string)
    requires cursor == CursorCodec().encode(b) && Less(b, Sentinel()) && ParseInt(limit) != Got(0)
    ensures Serve(CursorCodec(), table, limit, cursor).Page? <==> Year(b.at) >= 0
  {
    RequestBelow(b, table, limit);
  }

  lemma CutIs(all: seq<Entry>, m: nat, j: nat, n: nat)
    requires n == j * m && 1 <= n <= |all|
    ensures CutReadable(all, m, j) <==> Year(all[n - 1].occurredAt) >= 0
  {
  }

  /** The next request after page j is served exactly if the entry that ends it is readable. */
  lemma ServedIffReadable(h: seq<Hop>, table: seq<Entry>, limit: string, cursor: string, all: seq<Entry>)
    requires Pages(CursorCodec(), Sentinel(), h, table, Limit(limit), cursor) && h != [] && cursor != ""
    requires IsListing(table, Sentinel(), all) && ParseInt(limit) != Got(0)
    ensures Serve(CursorCodec(), table, limit, cursor).Page? <==> CutReadable(all, Limit(limit), |h|)
  {
    var n := PageEnd(CursorCodec(), Sentinel(), h, table, Limit(limit), cursor, all);
    ServedBelow(cursor, KeyOf(all[n - 1]), table, limit);
    CutIs(all, Limit(limit), |h|, n);
  }

  lemma FirstRequest(table: seq<Entry>, limit: string)
    requires ParseInt(limit) != Got(0)
    ensures Serve(CursorCodec(), table, limit, "").Page?
  {
    CursorLawful();
    ServeOutcome(CursorCodec(), table, limit, "");
  }

  lemma ExtendWalk(c: Codec, w: seq<Visit>, v: Visit, table: seq<Entry>, limit: string)
    requires IsWalk(c, w) && Steady(w, table, limit) && UniqueIds(table) && (w != [] ==> CursorOf(w, |w|) != "")
    requires v == Visit(table, limit, Serve(c, table, limit, CursorOf(w, |w|))) && v.page.Page?
    ensures IsWalk(c, w + [v]) && Steady(w + [v], table, limit)
  {
    var w' := w + [v];
    forall k | 0 <= k < |w'| ensures VisitOk(c, w', k) {
      assert k < |w| ==> VisitOk(c, w, k);
      assert CursorOf(w', k) == CursorOf(w, k);
    }
    forall j, k | 0 <= j <= k < |w'| ensures Contains(w'[k].table, w'[j].table) {
    }
  }

  lemma NotEnded(c: Codec, w: seq<Visit>)
    requires IsWalk(c, w) && !Ended(w) && w != []
    ensures CursorOf(w, |w|) != ""
  {
    assert VisitOk(c, w, |w| - 1);
  }

  lemma NextPage(w: seq<Visit>, table: seq<Entry>, limit: string, all: seq<Entry>) returns (w': seq<Visit>)
    requires UniqueIds(table) && ParseInt(limit) != Got(0) && IsListing(table, Sentinel(), all)
      && CutsReadable(all, Limit(limit))
    requires IsWalk(CursorCodec(), w) && Steady(w, table, limit) && !Ended(w)
    ensures |w'| == |w| + 1 && IsWalk(CursorCodec(), w') && Steady(w', table, limit)
  {
    var c := CursorCodec();
    if w == [] {
      FirstRequest(table, limit);
    } else {
      CursorLawful();
      NotEnded(c, w);
      WalkPages(c, Sentinel(), w, table, limit);
      assert CutReadable(all, Limit(limit), |w|);
      ServedIffReadable(Hops(w), table, limit, CursorOf(w, |w|), all);
    }
    var v := Visit(table, limit, Serve(c, table, limit, CursorOf(w, |w|)));
    ExtendWalk(c, w, v, table, limit);
    w' := w + [v];
  }

  /** A walk that lists everything: it ends, and what it returned is the sorted listing. */
  ghost predicate ListsAll(w: seq<Visit>, table: seq<Entry>, limit: string) {
    IsWalk(CursorCodec(), w) && Steady(w, table, limit) && Ended(w) && Walked(w) == Listing(table, Sentinel())
  }

  lemma WalkEnds(table: seq<Entry>, limit: string) returns (w: seq<Visit>)
    requires UniqueIds(table) && ParseInt(limit) != Got(0) && CutsReadable(Listing(table, Sentinel()), Limit(limit))
    ensures ListsAll(w, table, limit)
  {
    var all := Listing(table, Sentinel());
    ListingIs(table, Sentinel());
    w := [];
    while !Ended(w)
      invariant IsWalk(CursorCodec(), w) && Steady(w, table, limit) && |w| <= |all| + 1
      decreases |all| + 1 - |w|
    {
      w := NextPage(w, table, limit, all);
      FixedLedger(w, table);
    }
    FixedLedger(w, table);
  }

  lemma PrefixWalk(c: Codec, w: seq<Visit>, j: nat)
    requires IsWalk(c, w) && 1 <= j < |w|
    ensures IsWalk(c, w[..j]) && CursorOf(w[..j], j) == CursorOf(w, j) != ""
    ensures w[j].page.Page? && w[j].page == Serve(c, w[j].table, w[j].limit, CursorOf(w, j))
  {
    var u := w[..j];
    forall k | 0 <= k < |u| ensures VisitOk(c, u, k) {
      assert VisitOk(c, w, k);
      assert CursorOf(u, k) == CursorOf(w, k);
    }
    forall i, k | 0 <= i <= k < |u| ensures Contains(u[k].table, u[i].table) {
      assert Contains(w[k].table, w[i].table);
    }
    assert VisitOk(c, w, j - 1) && VisitOk(c, w, j);
  }

  lemma TimesGrows(a: nat, b: nat, m: nat)
    requires a <= b
    ensures a * m <= b * m
  {
  }

  lemma FewerFullPages(pages: nat, m: nat, last: nat, j: nat)
    requires pages >= 1 && last < m && j * m <= (pages - 1) * m + last
    ensures j < pages
  {
    assert pages * m == (pages - 1) * m + m;
    if j >= pages {
      TimesGrows(pages, j, m);
    }
  }

  /** When the pages have ended, every full page has a successor. */
  lemma PageCount(c: Codec, top: Key, h: seq<Hop>, table: seq<Entry>, m: nat, j: nat)
    requires Pages(c, top, h, table, m, "") && h != [] && j * m <= |Rows(h, |h|)|
    ensures j < |h|
  {
    FullCount(top, h, m, |h| - 1);
    FewerFullPages(|h|, m, |h[|h| - 1].rows|, j);
  }

  lemma WalkedCut(w: seq<Visit>, table: seq<Entry>, limit: string, all: seq<Entry>, j: nat)
    requires IsWalk(CursorCodec(), w) && Steady(w, table, limit) && Ended(w) && ParseInt(limit) != Got(0)
    requires IsListing(table, Sentinel(), all) && Walked(w) == all && 1 <= j && j * Limit(limit) <= |all|
    ensures CutReadable(all, Limit(limit), j)
  {
    var c := CursorCodec();
    CursorLawful();
    WalkPages(c, Sentinel(), w, table, limit);
    PageCount(c, Sentinel(), Hops(w), table, Limit(limit), j);
    PrefixWalk(c, w, j);
    WalkPages(c, Sentinel(), w[..j], table, limit);
    ServedIffReadable(Hops(w[..j]), table, limit, CursorOf(w[..j], j), all);
  }

  lemma EndedReadable(w: seq<Visit>, table: seq<Entry>, limit: string, all: seq<Entry>)
    requires IsWalk(CursorCodec(), w) && Steady(w, table, limit) && Ended(w) && ParseInt(limit) != Got(0)
    requires IsListing(table, Sentinel(), all) && Walked(w) == all
    ensures CutsReadable(all, Limit(limit))
  {
    forall j: nat ensures CutReadable(all, Limit(limit), j) {
      if 1 <= j && j * Limit(limit) <= |all| {
        WalkedCut(w, table, limit, all, j);
      }
    }
  }

  /**
   * The walk ends and lists everything if and only if every entry that ends a full page is of
   * year 0 or later, so that its cursor is read back.
   */
  lemma WalkEndsIff(table: seq<Entry>, limit: string)
    requires UniqueIds(table) && ParseInt(limit) != Got(0)
    ensures (exists w: seq<Visit> :: ListsAll(w, table, limit)) <==>
      CutsReadable(Listing(table, Sentinel()), Limit(limit))
  {
    if CutsReadable(Listing(table, Sentinel()), Limit(limit)) {
      var w := WalkEnds(table, limit);
      assert ListsAll(w, table, limit);
    }
    if w: seq<Visit> :| ListsAll(w, table, limit) {
      ListingIs(table, Sentinel());
      EndedReadable(w, table, limit, Listing(table, Sentinel()));
    }
  }

  /** For entries of year 0 and later it always ends. */
  lemma RecentLedgersEnd(table: seq<Entry>, limit: string) returns (w: seq<Visit>)
    requires UniqueIds(table) && ParseInt(limit) != Got(0) && forall e :: e in table ==> Year(e.occurredAt) >= 0
    ensures ListsAll(w, table, limit) && HasYears(table, Walked(w))
  {
    var all := Listing(table, Sentinel());
    forall j: nat ensures CutReadable(all, Limit(limit), j) {
      if 1 <= j * Limit(limit) <= |all| {
        assert all[j * Limit(limit) - 1] in all;
      }
    }
    w := WalkEnds(table, limit);
    BelowHasYears(table, Walked(w));
  }

  // ---------------------------------------------------------------- inputs that fail

  /** GET ...?limit=0 panics, whatever the ledger. */
  lemma LimitZeroPanics(table: seq<Entry>)
    ensures Serve(CursorCodec(), table, "0", "") == Panics
  {
    CursorLawful();
    assert "0"[..0] == "" && Value("0") == 0;
    assert ParseInt("0") == Got(0);
    ServeOutcome(CursorCodec(), table, "0", "");
  }

  lemma YearBeforeZero()
    ensures Year(Midnight(Date(0, 1, 1)) - 3600 * SECOND) == -1
  {
    var jan, dec := Date(0, 1, 1), Date(-1, 12, 31);
    TwelveMonths(-1);
    assert DaysToMonth(-1, 13) == DaysToMonth(-1, 12) + 31;
    assert DaysToYear(-1) == DaysToYear(0) - YearLength(-1);
    assert DayOf(dec) == DayOf(jan) - 1;
    DateOfDay(dec);
    var t := Midnight(jan) - 3600 * SECOND;
    assert t / DAY == DayOf(jan) - 1;
  }

  lemma RefusedBeforeYearZero(k: Key, table: seq<Entry>, limit: string)
    requires Year(k.at) < 0
    ensures Serve(CursorCodec(), table, limit, Cursor.Encode(k)) == BadCursor
  {
    RoundTrip(k);
    ServeOutcome(CursorCodec(), table, limit, Cursor.Encode(k));
  }

  /** 0000-01-01T00:00:00+01:00 is before year 0 in UTC: a page that ends on it gives a cursor that is refused. */
  lemma BeforeYearZeroRefused(k: Key, table: seq<Entry>, limit: string)
    requires k.at == Midnight(Date(0, 1, 1)) - 3600 * SECOND
    ensures Serve(CursorCodec(), table, limit, Cursor.Encode(k)) == BadCursor
  {
    YearBeforeZero();
    RefusedBeforeYearZero(k, table, limit);
  }

  /** An entry one second into year 9999 is on no first page, and the listing ends without it. */
  lemma AfterSentinelUnlisted(e: Entry)
    requires e.occurredAt == Midnight(Date(9999, 1, 1)) + SECOND
    ensures Serve(CursorCodec(), [e], "", "") == Page([], "")
  {
    CursorLawful();
    assert [e][1..] == [];
    assert Listing([e], Sentinel()) == [];
  }
}
