/** Counting facts about finite sets and maps. */
module Finite {

  lemma Pick<T>(s: set<T>) returns (x: T)
    requires s != {}
    ensures x in s
  {
    x :| x in s;
  }

  lemma {:induction false} SubsetSize<T>(a: set<T>, b: set<T>)
    requires a <= b
    ensures |a| <= |b|
    ensures |a| == |b| ==> a == b
  {
    if a != {} {
      var x := Pick(a);
      SubsetSize(a - {x}, b - {x});
      assert a == (a - {x}) + {x};
      assert b == (b - {x}) + {x};
    }
  }

  lemma {:induction false} UpperBound(s: set<nat>) returns (t: nat)
    ensures forall x :: x in s ==> x < t
  {
    if s == {} {
      t := 0;
    } else {
      var x := Pick(s);
      var u := UpperBound(s - {x});
      t := if x < u then u else x + 1;
      assert s == (s - {x}) + {x};
    }
  }

  lemma InverseMapsSameSize(f: map<int, int>, g: map<int, int>)
    requires forall k :: k in f ==> f[k] in g && g[f[k]] == k
    requires forall k :: k in g ==> g[k] in f && f[g[k]] == k
    ensures |f.Keys| == |g.Keys|
  {
    InjectionSize(f.Keys, f);
    var image := set k | k in f.Keys :: f[k];
    forall e | e in g.Keys ensures e in image {
      assert g[e] in f.Keys && f[g[e]] == e;
    }
    assert image == g.Keys;
  }

  lemma {:induction false} InjectionSize(ks: set<int>, f: map<int, int>)
    requires ks <= f.Keys && forall j, k :: j in f && k in f && f[j] == f[k] ==> j == k
    ensures |set k | k in ks :: f[k]| == |ks|
  {
    if ks != {} {
      var k := Pick(ks);
      InjectionSize(ks - {k}, f);
      var rest := set j | j in ks - {k} :: f[j];
      assert (set j | j in ks :: f[j]) == rest + {f[k]};
      assert f[k] !in rest;
    }
  }
}
