/** Counting in finite sets. */
module Sets {
  lemma Member<T>(s: set<T>) returns (x: T)
    requires |s| > 0
    ensures x in s
  {
    x :| x in s;
  }

  /** The elements of a set, listed in some order. */
  lemma {:induction false} Listing<T>(s: set<T>) returns (q: seq<T>)
    ensures |q| == |s| && forall x :: x in q <==> x in s
    ensures forall i, j :: 0 <= i < j < |q| ==> q[i] != q[j]
  {
    q := [];
    if |s| > 0 {
      var x := Member(s);
      var rest := Listing(s - {x});
      q := [x] + rest;
      assert forall y :: y in q <==> y == x || y in rest;
    }
  }

  lemma SubsetSize<T>(a: set<T>, b: set<T>)
    requires a <= b
    ensures |a| <= |b|
    ensures |a| == |b| <==> a == b
    ensures a == b <==> b <= a
  {
    assert b == a + (b - a);
    if |a| == |b| { assert b - a == {}; }
  }

  /** The numbers 1 to n. */
  function Numbers(n: nat): (s: set<int>)
    ensures |s| == n
    ensures forall k :: k in s <==> 1 <= k <= n
  {
    if n == 0 then {} else Numbers(n - 1) + {n}
  }

  function Image(s: set<int>, f: map<int, int>): set<int>
    requires s <= f.Keys
  {
    set x | x in s :: f[x]
  }

  lemma {:induction false} ImageSize(s: set<int>, f: map<int, int>)
    requires s <= f.Keys && forall x, y :: x in s && y in s && f[x] == f[y] ==> x == y
    ensures |Image(s, f)| == |s|
  {
    if |s| > 0 {
      var x := Member(s);
      ImageSize(s - {x}, f);
      assert Image(s, f) == Image(s - {x}, f) + {f[x]};
    } else {
      assert Image(s, f) == {};
    }
  }

  /** n distinct numbers between 1 and n are all of them. */
  lemma Pigeonhole(s: set<int>, f: map<int, int>, n: nat)
    requires s <= f.Keys && |s| == n
    requires forall x, y :: x in s && y in s && f[x] == f[y] ==> x == y
    requires forall x :: x in s ==> 1 <= f[x] <= n
    ensures Image(s, f) == Numbers(n)
  {
    ImageSize(s, f);
    SubsetSize(Image(s, f), Numbers(n));
  }
}
