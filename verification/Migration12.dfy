/**
 * Migration 12: single-leg transactions become headers with balanced postings, and back.
 * A column that a schema does not have is None.
 */
module Migration12 {
  import opened Int64
  import opened Postings

  datatype Account = Account(user: int, name: string, currency: string, external: bool)

  datatype Tx = Tx(
    id: int, user: int, currency: string, occurredAt: int, note: string, createdAt: int,
    account: Option<int>, amount: Option<I64>, category: Option<string>)

  datatype Schema = Schema(users: seq<int>, accounts: map<int, Account>, txs: seq<Tx>, postings: seq<Posting>)

  // ---------------------------------------------------------------- what the constraints give

  predicate LegacyRow(accounts: map<int, Account>, users: seq<int>, t: Tx) {
    t.account.Some? && t.account.value in accounts && t.amount.Some? && t.user in users
  }

  ghost predicate UniqueTxIds(txs: seq<Tx>) { forall i, j :: 0 <= i < j < |txs| ==> txs[i].id != txs[j].id }

  /** Primary and foreign keys of the schema before the migration. */
  ghost predicate Legacy(db: Schema) {
    && db.postings == [] && UniqueTxIds(db.txs)
    && (forall i :: 0 <= i < |db.txs| ==> LegacyRow(db.accounts, db.users, db.txs[i]))
    && (forall a :: a in db.accounts ==> !db.accounts[a].external)
    && (forall i, j :: 0 <= i < j < |db.users| ==> db.users[i] != db.users[j])
  }

  /** Ids that the sequence hands out for the new external accounts. */
  ghost predicate Fresh(db: Schema, exts: map<int, int>) {
    && (forall i :: 0 <= i < |db.users| ==> db.users[i] in exts)
    && (forall u, v :: u in exts && v in exts && exts[u] == exts[v] ==> u == v)
    && (forall u :: u in exts ==> exts[u] !in db.accounts)
  }

  // ---------------------------------------------------------------- up

  /** The unique name per user is already taken. */
  predicate NameTaken(accounts: map<int, Account>, user: int) {
    exists a :: a in accounts && accounts[a].user == user && accounts[a].name == "External"
  }

  function WithExternals(db: Schema, exts: map<int, int>, n: nat): map<int, Account>
    requires n <= |db.users| && forall i :: 0 <= i < |db.users| ==> db.users[i] in exts
  {
    if n == 0 then db.accounts
    else WithExternals(db, exts, n - 1)[exts[db.users[n - 1]] := Account(db.users[n - 1], "External", "USD", true)]
  }

  /** The original legs of the first n transactions; zero amounts have none. */
  function Firsts(txs: seq<Tx>, n: nat): seq<Posting>
    requires n <= |txs| && forall i :: 0 <= i < n ==> txs[i].account.Some? && txs[i].amount.Some?
  {
    if n == 0 then []
    else
      var ps, t := Firsts(txs, n - 1), txs[n - 1];
      if t.amount.value == 0 then ps else ps + [Posting(|ps| + 1, t.id, t.account.value, t.amount.value, t.createdAt)]
  }

  /** The offsetting legs; ids go on after `base`. */
  function Seconds(txs: seq<Tx>, exts: map<int, int>, base: int, n: nat): seq<Posting>
    requires n <= |txs| && forall i :: 0 <= i < n ==> txs[i].amount.Some? && txs[i].user in exts
  {
    if n == 0 then []
    else
      var ps, t := Seconds(txs, exts, base, n - 1), txs[n - 1];
      if t.amount.value == 0 then ps
      else ps + [Posting(base + |ps| + 1, t.id, exts[t.user], Negate(t.amount.value), t.createdAt)]
  }

  function Header(t: Tx): Tx { t.(account := None, amount := None, category := None) }

  function Headers(txs: seq<Tx>): seq<Tx> { seq(|txs|, i requires 0 <= i < |txs| => Header(txs[i])) }

  /** The database after the migration. */
  function Upgraded(db: Schema, exts: map<int, int>): Schema
    requires forall i :: 0 <= i < |db.users| ==> db.users[i] in exts
    requires forall i :: 0 <= i < |db.txs| ==> LegacyRow(db.accounts, db.users, db.txs[i])
  {
    assert forall i :: 0 <= i < |db.txs| ==> LegacyRow(db.accounts, db.users, db.txs[i]) && db.txs[i].user in exts;
    var firsts := Firsts(db.txs, |db.txs|);
    Schema(db.users, WithExternals(db, exts, |db.users|), Headers(db.txs),
           firsts + Seconds(db.txs, exts, |firsts|, |db.txs|))
  }

  /** No legacy account has the external account's name, and no amount is -2^63. */
  predicate Migratable(db: Schema) {
    && (forall i :: 0 <= i < |db.users| ==> !NameTaken(db.accounts, db.users[i]))
    && (forall i :: 0 <= i < |db.txs| ==> db.txs[i].amount != Some(-TWO_63))
  }

  // ---------------------------------------------------------------- accounts

  lemma {:induction false} ExternalsAt(db: Schema, exts: map<int, int>, n: nat, a: int)
    requires n <= |db.users| && Fresh(db, exts)
    ensures a in WithExternals(db, exts, n) <==> a in db.accounts || exists i :: 0 <= i < n && exts[db.users[i]] == a
    ensures a in db.accounts ==> WithExternals(db, exts, n)[a] == db.accounts[a]
    ensures a !in db.accounts && a in WithExternals(db, exts, n) ==> WithExternals(db, exts, n)[a].external
  {
    if n > 0 {
      ExternalsAt(db, exts, n - 1, a);
      var u: int := db.users[n - 1];
      assert u in exts && exts[u] !in db.accounts;
    }
  }

  lemma ExternalOfUser(db: Schema, exts: map<int, int>, n: nat, i: nat)
    requires i < n <= |db.users| && Legacy(db) && Fresh(db, exts)
    ensures exts[db.users[i]] in WithExternals(db, exts, n)
    ensures WithExternals(db, exts, n)[exts[db.users[i]]] == Account(db.users[i], "External", "USD", true)
  {
    assert db.users[i] in db.users;
    if i < n - 1 {
      ExternalOfUser(db, exts, n - 1, i);
      assert db.users[n - 1] in db.users;
    }
  }

  /** A later user's name is free exactly when it was free before the migration. */
  lemma NameStillFree(db: Schema, exts: map<int, int>, n: nat)
    requires n < |db.users| && Legacy(db) && Fresh(db, exts)
    ensures NameTaken(WithExternals(db, exts, n), db.users[n]) <==> NameTaken(db.accounts, db.users[n])
  {
    var u := db.users[n];
    var accounts := WithExternals(db, exts, n);
    if NameTaken(db.accounts, u) {
      var a :| a in db.accounts && db.accounts[a].user == u && db.accounts[a].name == "External";
      ExternalsAt(db, exts, n, a);
      assert a in accounts && accounts[a].user == u;
    }
    if NameTaken(accounts, u) {
      var a :| a in accounts && accounts[a].user == u && accounts[a].name == "External";
      ExternalsAt(db, exts, n, a);
      if a !in db.accounts {
        var i :| 0 <= i < n && exts[db.users[i]] == a;
        ExternalOfUser(db, exts, n, i);
      }
    }
  }

  // ---------------------------------------------------------------- sums

  type TxFilterFn = Tx -> bool

  function LegacySum(txs: seq<Tx>, f: TxFilterFn, n: nat): int
    requires n <= |txs|
  {
    if n == 0 then 0
    else LegacySum(txs, f, n - 1) + (if f(txs[n - 1]) && txs[n - 1].amount.Some? then txs[n - 1].amount.value else 0)
  }

  type Period = int -> bool

  /** Legacy rows of an account, and of a user, created in a period. */
  function OfAccount(a: int, when: Period): TxFilterFn { (t: Tx) => t.account == Some(a) && when(t.createdAt) }

  function OfUser(u: int, when: Period): TxFilterFn { (t: Tx) => t.user == u && when(t.createdAt) }

  function During(a: int, when: Period): Filter { (p: Posting) => p.account == a && when(p.createdAt) }

  lemma SumSnoc(ps: seq<Posting>, p: Posting, f: Filter)
    ensures Sum(ps + [p], f) == Sum(ps, f) + (if f(p) then p.amount else 0)
  {
    SumConcat(ps, [p], f);
    assert [p][1..] == [];
  }

  lemma {:induction false} FirstsSum(txs: seq<Tx>, n: nat, a: int, when: Period)
    requires n <= |txs| && forall i :: 0 <= i < n ==> txs[i].account.Some? && txs[i].amount.Some?
    ensures Sum(Firsts(txs, n), During(a, when)) == LegacySum(txs, OfAccount(a, when), n)
  {
    if n > 0 {
      var t, ps := txs[n - 1], Firsts(txs, n - 1);
      FirstsSum(txs, n - 1, a, when);
      SumSnoc(ps, Posting(|ps| + 1, t.id, t.account.value, t.amount.value, t.createdAt), During(a, when));
      assert OfAccount(a, when)(t) <==> t.account.value == a && when(t.createdAt);
    }
  }

  lemma {:induction false} SecondsSum(txs: seq<Tx>, exts: map<int, int>, base: int, n: nat, u: int, when: Period)
    requires n <= |txs| && forall i :: 0 <= i < n ==>
      txs[i].amount.Some? && txs[i].user in exts && txs[i].amount.value != -TWO_63
    requires u in exts && forall v :: v in exts && exts[v] == exts[u] ==> v == u
    ensures Sum(Seconds(txs, exts, base, n), During(exts[u], when)) == -LegacySum(txs, OfUser(u, when), n)
  {
    if n > 0 {
      var t, ps := txs[n - 1], Seconds(txs, exts, base, n - 1);
      SecondsSum(txs, exts, base, n - 1, u, when);
      SumSnoc(ps, Posting(base + |ps| + 1, t.id, exts[t.user], Negate(t.amount.value), t.createdAt),
        During(exts[u], when));
    }
  }

  /** Each transaction's two legs cancel. */
  lemma {:induction false} LegsCancel(txs: seq<Tx>, exts: map<int, int>, base: int, n: nat, t: int)
    requires n <= |txs|
    requires forall i :: 0 <= i < n ==>
      txs[i].account.Some? && txs[i].amount.Some? && txs[i].user in exts && txs[i].amount.value != -TWO_63
    ensures Sum(Firsts(txs, n), OfTx(t)) + Sum(Seconds(txs, exts, base, n), OfTx(t)) == 0
  {
    if n > 0 {
      var x, ps, qs := txs[n - 1], Firsts(txs, n - 1), Seconds(txs, exts, base, n - 1);
      LegsCancel(txs, exts, base, n - 1, t);
      SumSnoc(ps, Posting(|ps| + 1, x.id, x.account.value, x.amount.value, x.createdAt), OfTx(t));
      SumSnoc(qs, Posting(base + |qs| + 1, x.id, exts[x.user], Negate(x.amount.value), x.createdAt), OfTx(t));
    }
  }

  // ---------------------------------------------------------------- which posting comes from which row

  /** `p` is the original leg of row `t`. */
  predicate LegOf(p: Posting, t: Tx) {
    t.account == Some(p.account) && t.amount == Some(p.amount) && p.amount != 0 && p.txId == t.id
      && p.createdAt == t.createdAt
  }

  lemma {:induction false} FirstsRows(txs: seq<Tx>, n: nat, p: Posting) returns (i: nat)
    requires n <= |txs| && forall i :: 0 <= i < n ==> txs[i].account.Some? && txs[i].amount.Some?
    requires p in Firsts(txs, n)
    ensures i < n && LegOf(p, txs[i])
  {
    if p in Firsts(txs, n - 1) {
      i := FirstsRows(txs, n - 1, p);
    } else {
      i := n - 1;
    }
  }

  lemma {:induction false} RowsHaveFirsts(txs: seq<Tx>, n: nat, i: nat) returns (p: Posting)
    requires i < n <= |txs| && forall i :: 0 <= i < n ==> txs[i].account.Some? && txs[i].amount.Some?
    requires txs[i].amount.value != 0
    ensures p in Firsts(txs, n) && LegOf(p, txs[i])
  {
    if i < n - 1 {
      p := RowsHaveFirsts(txs, n - 1, i);
    } else {
      p := Posting(|Firsts(txs, n - 1)| + 1, txs[i].id, txs[i].account.value, txs[i].amount.value, txs[i].createdAt);
    }
  }

  lemma {:induction false} SecondsRows(txs: seq<Tx>, exts: map<int, int>, base: int, n: nat,
      p: Posting) returns (u: int)
    requires n <= |txs| && forall i :: 0 <= i < n ==> txs[i].amount.Some? && txs[i].user in exts
    requires p in Seconds(txs, exts, base, n)
    ensures u in exts && p.account == exts[u]
  {
    if p in Seconds(txs, exts, base, n - 1) {
      u := SecondsRows(txs, exts, base, n - 1, p);
    } else {
      u := txs[n - 1].user;
    }
  }

  // ---------------------------------------------------------------- up preserves meaning

  ghost predicate Migrates(db: Schema, exts: map<int, int>) { Legacy(db) && Fresh(db, exts) && Migratable(db) }

  lemma RowsReady(db: Schema, exts: map<int, int>)
    requires Migrates(db, exts)
    ensures forall i :: 0 <= i < |db.txs| ==>
      db.txs[i].account.Some? && db.txs[i].amount.Some? && db.txs[i].user in exts && db.txs[i].amount.value != -TWO_63
  {
    forall i | 0 <= i < |db.txs|
      ensures db.txs[i].account.Some? && db.txs[i].amount.Some? && db.txs[i].user in exts
        && db.txs[i].amount.value != -TWO_63
    {
      assert LegacyRow(db.accounts, db.users, db.txs[i]);
    }
  }

  /**
   * Every legacy account keeps its sum over every period of creation time; each user's external
   * account holds the negated total of the user's rows; and every transaction nets to zero, so
   * the trigger lets the migration commit.
   */
  lemma UpPreservesSums(db: Schema, exts: map<int, int>, when: Period)
    requires Migrates(db, exts)
    ensures var ps := Upgraded(db, exts).postings;
      && (forall a :: a in db.accounts ==> Sum(ps, During(a, when)) == LegacySum(db.txs, OfAccount(a, when), |db.txs|))
      && (forall u :: u in db.users ==> Sum(ps, During(exts[u], when)) == -LegacySum(db.txs, OfUser(u, when), |db.txs|))
      && (forall t :: Sum(ps, OfTx(t)) == 0)
  {
    RowsReady(db, exts);
    var n := |db.txs|;
    var firsts := Firsts(db.txs, n);
    var seconds := Seconds(db.txs, exts, |firsts|, n);
    forall a | a in db.accounts ensures Sum(firsts + seconds, During(a, when)) ==
      LegacySum(db.txs, OfAccount(a, when), n) {
      SumConcat(firsts, seconds, During(a, when));
      FirstsSum(db.txs, n, a, when);
      forall p | p in seconds ensures p.account != a {
        var u := SecondsRows(db.txs, exts, |firsts|, n, p);
      }
      SumNone(seconds, During(a, when));
    }
    forall u | u in db.users ensures Sum(firsts + seconds, During(exts[u], when)) ==
      -LegacySum(db.txs, OfUser(u, when), n) {
      SumConcat(firsts, seconds, During(exts[u], when));
      SecondsSum(db.txs, exts, |firsts|, n, u, when);
      forall p | p in firsts ensures p.account != exts[u] {
        var i := FirstsRows(db.txs, n, p);
        assert LegacyRow(db.accounts, db.users, db.txs[i]);
      }
      SumNone(firsts, During(exts[u], when));
    }
    forall t ensures Sum(firsts + seconds, OfTx(t)) == 0 {
      SumConcat(firsts, seconds, OfTx(t));
      LegsCancel(db.txs, exts, |firsts|, n, t);
    }
  }

  lemma {:induction false} FirstIds(txs: seq<Tx>, n: nat, k: nat)
    requires n <= |txs| && (forall i :: 0 <= i < n ==> txs[i].account.Some? && txs[i].amount.Some?)
      && k < |Firsts(txs, n)|
    ensures Firsts(txs, n)[k].id == k + 1
  {
    if k < |Firsts(txs, n - 1)| {
      FirstIds(txs, n - 1, k);
    }
  }

  lemma {:induction false} SecondIds(txs: seq<Tx>, exts: map<int, int>, base: int, n: nat, k: nat)
    requires n <= |txs| && (forall i :: 0 <= i < n ==> txs[i].amount.Some? && txs[i].user in exts)
    requires k < |Seconds(txs, exts, base, n)|
    ensures Seconds(txs, exts, base, n)[k].id == base + k + 1
  {
    if k < |Seconds(txs, exts, base, n - 1)| {
      SecondIds(txs, exts, base, n - 1, k);
    }
  }

  /** A transaction becomes a header: it keeps what is not money, and the money columns and the category are gone. */
  lemma UpHeaders(db: Schema, exts: map<int, int>, i: nat)
    requires Migrates(db, exts) && i < |db.txs|
    ensures |Upgraded(db, exts).txs| == |db.txs|
    ensures var t, h := db.txs[i], Upgraded(db, exts).txs[i];
      && h.id == t.id && h.user == t.user && h.currency == t.currency && h.occurredAt == t.occurredAt
      && h.note == t.note && h.createdAt == t.createdAt && h.account == None && h.amount == None && h.category == None
  {
  }

  /** The backfilled postings are numbered from 1 on, without gaps. */
  lemma UpNumbers(db: Schema, exts: map<int, int>, k: nat)
    requires Migrates(db, exts) && k < |Upgraded(db, exts).postings|
    ensures Upgraded(db, exts).postings[k].id == k + 1
  {
    RowsReady(db, exts);
    var firsts := Firsts(db.txs, |db.txs|);
    if k < |firsts| {
      FirstIds(db.txs, |db.txs|, k);
    } else {
      SecondIds(db.txs, exts, |firsts|, |db.txs|, k - |firsts|);
    }
  }

  // ---------------------------------------------------------------- down

  predicate NormalPosting(db: Schema, p: Posting) {
    p in db.postings && p.account in db.accounts && !db.accounts[p.account].external
  }

  /** UPDATE ... FROM takes some normal posting of each transaction that has one. */
  ghost predicate Chosen(db: Schema, choice: map<int, Posting>) {
    && (forall t :: t in choice ==> NormalPosting(db, choice[t]) && choice[t].txId == t)
    && (forall p :: NormalPosting(db, p) ==> p.txId in choice)
  }

  function Restore(t: Tx, choice: map<int, Posting>): seq<Tx> {
    if t.id in choice
    then [t.(account := Some(choice[t.id].account), amount := Some(choice[t.id].amount), category := None)]
    else []
  }

  function Restored(txs: seq<Tx>, choice: map<int, Posting>, n: nat): seq<Tx>
    requires n <= |txs|
  {
    if n == 0 then [] else Restored(txs, choice, n - 1) + Restore(txs[n - 1], choice)
  }

  function Downgraded(db: Schema, choice: map<int, Posting>): Schema {
    Schema(db.users, map a | a in db.accounts && !db.accounts[a].external :: db.accounts[a],
           Restored(db.txs, choice, |db.txs|), [])
  }

  /** The rows with a nonzero amount, without their category. */
  function Nonzero(txs: seq<Tx>, n: nat): seq<Tx>
    requires n <= |txs|
  {
    if n == 0 then []
    else Nonzero(txs, n - 1) + (if txs[n - 1].amount != Some(0) then [txs[n - 1].(category := None)] else [])
  }

  /** After `up` a normal posting of row i is its original leg. */
  lemma NormalIsOriginal(db: Schema, exts: map<int, int>, i: nat, p: Posting)
    requires Migrates(db, exts) && i < |db.txs|
    requires NormalPosting(Upgraded(db, exts), p) && p.txId == db.txs[i].id
    ensures LegOf(p, db.txs[i])
  {
    RowsReady(db, exts);
    var n := |db.txs|;
    var firsts := Firsts(db.txs, n);
    if p in firsts {
      var j := FirstsRows(db.txs, n, p);
    } else {
      var u := SecondsRows(db.txs, exts, |firsts|, n, p);
      ExternalsAt(db, exts, |db.users|, exts[u]);
      assert false;
    }
  }

  lemma RowChosenIff(db: Schema, exts: map<int, int>, choice: map<int, Posting>, i: nat)
    requires Migrates(db, exts) && Chosen(Upgraded(db, exts), choice) && i < |db.txs|
    ensures db.txs[i].id in choice <==> db.txs[i].amount != Some(0)
    ensures db.txs[i].id in choice ==> LegOf(choice[db.txs[i].id], db.txs[i])
  {
    RowsReady(db, exts);
    var n := |db.txs|;
    var t := db.txs[i];
    if t.amount.value != 0 {
      var p := RowsHaveFirsts(db.txs, n, i);
      assert LegacyRow(db.accounts, db.users, t);
      ExternalsAt(db, exts, |db.users|, p.account);
      assert NormalPosting(Upgraded(db, exts), p);
    }
    if t.id in choice {
      NormalIsOriginal(db, exts, i, choice[t.id]);
    }
  }

  lemma {:induction false} RestoredRows(db: Schema, exts: map<int, int>, choice: map<int, Posting>, n: nat)
    requires Migrates(db, exts) && Chosen(Upgraded(db, exts), choice) && n <= |db.txs|
    ensures Restored(Headers(db.txs), choice, n) == Nonzero(db.txs, n)
  {
    if n > 0 {
      RestoredRows(db, exts, choice, n - 1);
      RowChosenIff(db, exts, choice, n - 1);
      assert Headers(db.txs)[n - 1] == Header(db.txs[n - 1]);
    }
  }

  /**
   * Down after up: the accounts are back, and so are account and amount of every nonzero row;
   * exactly the zero-amount rows, and every row's category, are gone.
   */
  lemma DownUndoesUp(db: Schema, exts: map<int, int>, choice: map<int, Posting>)
    requires Migrates(db, exts) && Chosen(Upgraded(db, exts), choice)
    ensures Downgraded(Upgraded(db, exts), choice) == db.(txs := Nonzero(db.txs, |db.txs|))
  {
    RestoredRows(db, exts, choice, |db.txs|);
    var d := Downgraded(Upgraded(db, exts), choice);
    forall a ensures (a in d.accounts <==> a in db.accounts) && (a in db.accounts ==> d.accounts[a] == db.accounts[a]) {
      ExternalsAt(db, exts, |db.users|, a);
    }
    assert d.accounts == db.accounts;
  }

  // ---------------------------------------------------------------- the scripts

  /** The deferred trigger's check at COMMIT. */
  predicate Balanced(db: Schema) {
    forall i :: 0 <= i < |db.postings| ==> Sum(db.postings, OfTx(db.postings[i].txId)) == 0
  }

  class Database {
    var db: Schema

    constructor (db: Schema)
      ensures this.db == db
    {
      this.db := db;
    }

    /** INSERT the external accounts; fails on the unique name. */
    method AddExternals(exts: map<int, int>) returns (ok: bool)
      requires Legacy(db) && Fresh(db, exts)
      modifies this
      ensures ok <==> forall i :: 0 <= i < |db.users| ==> !NameTaken(old(db).accounts, db.users[i])
      ensures ok ==> db == old(db).(accounts := WithExternals(old(db), exts, |old(db).users|))
      ensures db.users == old(db).users
    {
      ghost var db0 := db;
      for n := 0 to |db.users|
        invariant db == db0.(accounts := WithExternals(db0, exts, n))
        invariant forall i :: 0 <= i < n ==> !NameTaken(db0.accounts, db0.users[i])
      {
        NameStillFree(db0, exts, n);
        var u := db.users[n];
        if NameTaken(db.accounts, u) {
          return false;
        }
        db := db.(accounts := db.accounts[exts[u] := Account(u, "External", "USD", true)]);
      }
      ok := true;
    }

    /** The two backfill INSERTs; the negation of -2^63 overflows. */
    method Backfill(exts: map<int, int>) returns (ok: bool)
      requires db.postings == []
      requires forall i :: 0 <= i < |db.txs| ==>
        db.txs[i].account.Some? && db.txs[i].amount.Some? && db.txs[i].user in exts
      modifies this
      ensures ok <==> forall i :: 0 <= i < |db.txs| ==> db.txs[i].amount != Some(-TWO_63)
      ensures db.txs == old(db).txs && db.users == old(db).users && db.accounts == old(db).accounts
      ensures ok ==>
        db.postings == Firsts(db.txs, |db.txs|) + Seconds(db.txs, exts, |Firsts(db.txs, |db.txs|)|, |db.txs|)
    {
      ghost var db0 := db;
      for n := 0 to |db.txs|
        invariant db == db0.(postings := Firsts(db0.txs, n))
      {
        var t := db.txs[n];
        if t.amount.value != 0 {
          db := db.(postings := db.postings + [Posting(|db.postings| + 1, t.id, t.account.value, t.amount.value,
            t.createdAt)]);
        }
      }
      var base := |db.postings|;
      ghost var firsts := db.postings;
      for n := 0 to |db.txs|
        invariant db == db0.(postings := firsts + Seconds(db0.txs, exts, base, n))
        invariant forall i :: 0 <= i < n ==> db0.txs[i].amount != Some(-TWO_63)
      {
        var t := db.txs[n];
        if t.amount.value == -TWO_63 {
          return false;
        }
        if t.amount.value != 0 {
          db := db.(postings := db.postings + [Posting(|db.postings| + 1, t.id, exts[t.user], Negate(t.amount.value),
            t.createdAt)]);
        }
      }
      ok := true;
    }

    /** The up script in one DB transaction: it succeeds exactly on migratable data, and otherwise changes nothing. */
    method Up(exts: map<int, int>) returns (ok: bool)
      requires Legacy(db) && Fresh(db, exts)
      modifies this
      ensures ok <==> Migratable(old(db))
      ensures db == if ok then Upgraded(old(db), exts) else old(db)
    {
      var before := db;
      var named := AddExternals(exts);
      if !named {
        db := before;
        return false;
      }
      forall i | 0 <= i < |before.txs| ensures before.txs[i].account.Some? && before.txs[i].amount.Some?
        && before.txs[i].user in exts {
        assert LegacyRow(before.accounts, before.users, before.txs[i]);
      }
      ok := Backfill(exts);
      if ok {
        UpPreservesSums(before, exts, _ => true);
      }
      ok := ok && Balanced(db);
      if !ok {
        db := before;
        return false;
      }
      db := db.(txs := Headers(db.txs));
    }

    /** The down script. */
    method Down(choice: map<int, Posting>)
      requires Chosen(db, choice)
      modifies this
      ensures db == Downgraded(old(db), choice)
    {
      var kept: seq<Tx> := [];
      for n := 0 to |db.txs|
        invariant db == old(db) && kept == Restored(db.txs, choice, n)
      {
        var t := db.txs[n];
        if t.id in choice {
          kept := kept + [t.(account := Some(choice[t.id].account), amount := Some(choice[t.id].amount), category :=
            None)];
        }
      }
      db := Schema(db.users, map a | a in db.accounts && !db.accounts[a].external :: db.accounts[a], kept, []);
    }
  }
}
