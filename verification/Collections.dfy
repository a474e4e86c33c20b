/** Facts about the finite collections the tables are made of: sums and counts over maps,
    the ascending order of a set of indices, and cardinality under an injection. */
module Collections {

  datatype Option<+T> = None | Some(value: T)

  function Max(a: int, b: int): (m: int)
    ensures m >= a && m >= b && (m == a || m == b)
  {
    if a >= b then a else b
  }

  function Min(a: int, b: int): (m: int)
    ensures m <= a && m <= b && (m == a || m == b)
  {
    if a <= b then a else b
  }

  // ---------- Sums over maps (SELECT SUM) ----------

  /** The sum of a map's values, in whatever order the keys are taken. */
  ghost function Sum<K>(m: map<K, nat>): nat {
    if m == map[] then 0
    else
      var k :| k in m;
      m[k] + Sum(m - {k})
  }

  /** Any key may be taken out first: the sum does not depend on the order. */
  lemma {:induction false} SumTakeOut<K>(m: map<K, nat>, k: K)
    requires k in m
    ensures Sum(m) == m[k] + Sum(m - {k})
    decreases |m|
  {
    var j :| j in m && Sum(m) == m[j] + Sum(m - {j});
    if j != k {
      SumTakeOut(m - {j}, k);
      SumTakeOut(m - {k}, j);
      assert m - {j} - {k} == m - {k} - {j};
    }
  }

  /** Adding a fresh key adds its value. */
  lemma SumPut<K>(m: map<K, nat>, k: K, v: nat)
    requires k !in m
    ensures Sum(m[k := v]) == Sum(m) + v
  {
    SumTakeOut(m[k := v], k);
    assert m[k := v] - {k} == m;
  }

  /** A sub-map with pointwise smaller values has a smaller sum. */
  lemma {:induction false} SumMonotone<K>(m: map<K, nat>, n: map<K, nat>)
    requires m.Keys <= n.Keys
    requires forall k :: k in m ==> m[k] <= n[k]
    ensures Sum(m) <= Sum(n)
    decreases |m|
  {
    if m == map[] {
    } else {
      var k :| k in m && Sum(m) == m[k] + Sum(m - {k});
      SumTakeOut(n, k);
      SumMonotone(m - {k}, n - {k});
    }
  }

  // ---------- Ascending order of a set of indices (ORDER BY ... ASC) ----------

  lemma {:induction false} LeastExists(s: set<nat>, x: nat)
    requires x in s
    ensures exists m :: m in s && forall y :: y in s ==> m <= y
    decreases x
  {
    if y :| y in s && y < x {
      LeastExists(s, y);
    }
  }

  function Least(s: set<nat>): (m: nat)
    requires s != {}
    ensures m in s && forall x :: x in s ==> m <= x
  {
    assert exists m :: m in s && forall x :: x in s ==> m <= x by {
      var x :| x in s;
      LeastExists(s, x);
    }
    var m :| m in s && forall x :: x in s ==> m <= x;
    m
  }

  /** The members of a finite set of indices, smallest first. */
  function Ascending(s: set<nat>): (r: seq<nat>)
    ensures forall i :: i in r <==> i in s
    ensures forall i, j :: 0 <= i < j < |r| ==> r[i] < r[j]
    ensures |r| == |s|
    decreases |s|
  {
    if s == {} then [] else
      var m := Least(s);
      [m] + Ascending(s - {m})
  }

  // ---------- Cardinality ----------

  /** An injective image has as many elements as its source. */
  lemma {:induction false} ImageCard<A, B>(s: set<A>, t: set<B>, f: A -> B)
    requires forall a, b :: a in s && b in s && f(a) == f(b) ==> a == b
    requires t == set a | a in s :: f(a)
    ensures |t| == |s|
    decreases |s|
  {
    if s == {} {
    } else {
      var a :| a in s;
      var s', t' := s - {a}, t - {f(a)};
      assert t' == set x | x in s' :: f(x);
      ImageCard(s', t', f);
    }
  }

  lemma SubsetCard<A>(s: set<A>, t: set<A>)
    requires s <= t
    ensures |s| <= |t|
  {
    assert t == s + (t - s);
  }

  /** The size of a set made of two parts. */
  lemma TwoParts<A(!new)>(all: set<A>, s: set<A>, t: set<A>)
    requires forall a :: a in all <==> a in s || a in t
    requires forall a :: !(a in s && a in t)
    ensures |all| == |s| + |t|
  {
    assert all == s + t && s !! t;
  }

  /** The distinct members of a sequence. */
  function Distinct<T(==, !new)>(xs: seq<T>): (s: set<T>)
    ensures forall x :: x in s <==> x in xs
  {
    set x | x in xs
  }

  lemma {:induction false} DistinctCard<T(!new)>(xs: seq<T>)
    ensures |Distinct(xs)| <= |xs|
    decreases |xs|
  {
    if xs != [] {
      var n := |xs| - 1;
      DistinctCard(xs[..n]);
      assert xs == xs[..n] + [xs[n]];
      assert Distinct(xs) == Distinct(xs[..n]) + {xs[n]};
    } else {
      assert Distinct(xs) == {};
    }
  }
}
