/** `order by (time, created_at, id) limit k`, the selection made by the claim procedures. */
module TopK {
  import opened Sets

  /** Sort columns of the selected rows, by row id. */
  datatype Rank = Rank(time: int, createdAt: int)

  predicate Before(ranks: map<int, Rank>, x: int, y: int)
    requires x in ranks && y in ranks
  {
    var a, b := ranks[x], ranks[y];
    || a.time < b.time
    || (a.time == b.time && (a.createdAt < b.createdAt || (a.createdAt == b.createdAt && x < y)))
  }

  predicate IsFirst(ranks: map<int, Rank>, s: set<int>, m: int)
    requires s <= ranks.Keys
  {
    m in s && forall x :: x in s && x != m ==> Before(ranks, m, x)
  }

  /** Ids make the order total, so a non-empty set has exactly one first row. */
  lemma {:induction false} FirstExists(ranks: map<int, Rank>, s: set<int>) returns (m: int)
    requires |s| > 0 && s <= ranks.Keys
    ensures IsFirst(ranks, s, m)
  {
    var x := Member(s);
    var others := s - {x};
    m := x;
    if |others| > 0 {
      m := FirstExists(ranks, others);
      if Before(ranks, x, m) { m := x; }
    }
    assert s == others + {x};
  }

  lemma FirstIsUnique(ranks: map<int, Rank>, s: set<int>, m: int, n: int)
    requires s <= ranks.Keys && IsFirst(ranks, s, m) && IsFirst(ranks, s, n)
    ensures m == n
  {
  }

  function First(ranks: map<int, Rank>, s: set<int>): (m: int)
    requires |s| > 0 && s <= ranks.Keys
    ensures IsFirst(ranks, s, m)
  {
    assert exists m :: m in s && IsFirst(ranks, s, m) by { var m := FirstExists(ranks, s); }
    assert forall m, n :: IsFirst(ranks, s, m) && IsFirst(ranks, s, n) ==> m == n by {
      forall m, n | IsFirst(ranks, s, m) && IsFirst(ranks, s, n) ensures m == n { FirstIsUnique(ranks, s, m, n); }
    }
    var m :| m in s && IsFirst(ranks, s, m);
    m
  }

  /** Every row of `t` comes before every other row of `s`. */
  predicate Leads(ranks: map<int, Rank>, s: set<int>, t: set<int>)
    requires t <= s <= ranks.Keys
  {
    forall x, y :: x in t && y in s && y !in t ==> Before(ranks, x, y)
  }

  function FirstK(ranks: map<int, Rank>, s: set<int>, k: nat): set<int>
    requires s <= ranks.Keys
  {
    if k == 0 || |s| == 0 then {} else
      var first := First(ranks, s);
      {first} + FirstK(ranks, s - {first}, k - 1)
  }

  /** The batch is exactly the top k: as many rows as there are, up to k; and a row left
      out comes after every chosen one, of which there then are k. */
  lemma {:induction false} FirstKIsTopK(ranks: map<int, Rank>, s: set<int>, k: nat)
    requires s <= ranks.Keys
    ensures FirstK(ranks, s, k) <= s
    ensures |FirstK(ranks, s, k)| == if |s| < k then |s| else k
    ensures Leads(ranks, s, FirstK(ranks, s, k))
  {
    if k > 0 && |s| > 0 {
      var first := First(ranks, s);
      FirstKIsTopK(ranks, s - {first}, k - 1);
      assert |s - {first}| == |s| - 1;
    }
  }

  /** These properties determine the batch. */
  lemma TopKIsUnique(ranks: map<int, Rank>, s: set<int>, k: nat, t: set<int>)
    requires s <= ranks.Keys && t <= s
    requires |t| == if |s| < k then |s| else k
    requires Leads(ranks, s, t)
    ensures t == FirstK(ranks, s, k)
  {
    FirstKIsTopK(ranks, s, k);
    var f := FirstK(ranks, s, k);
    if t <= f {
      SubsetSize(t, f);
    } else if f <= t {
      SubsetSize(f, t);
    } else {
      var x := Member(t - f);
      var y := Member(f - t);
    }
  }
}
