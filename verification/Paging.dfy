/** Reading a log in stamp order, one bounded page at a time: the over-fetch-by-one query behind
    `listRows` and `listIntents`. A log is seen here as a map from keys to stamps. */
module Paging {

  /** `SELECT ... ORDER BY stamp ASC LIMIT n` over the candidates `c`. */
  ghost predicate IsSelection<K(!new)>(c: map<K, nat>, n: nat, ks: seq<K>) {
    && |ks| <= n
    && (forall i :: 0 <= i < |ks| ==> ks[i] in c)
    && (forall i, j :: 0 <= i < j < |ks| ==> ks[i] != ks[j])
    && (forall i, j :: 0 <= i < j < |ks| ==> c[ks[i]] <= c[ks[j]])
    && (forall k, i :: k in c && k !in ks && 0 <= i < |ks| ==> c[ks[i]] <= c[k])
    && (|ks| < n ==> forall k :: k in c ==> k in ks)
  }

  /** A page of at most `limit` keys in order, and whether candidates remain past it. */
  ghost predicate IsPage<K(!new)>(c: map<K, nat>, limit: nat, page: seq<K>, more: bool) {
    && |page| <= limit
    && (forall i :: 0 <= i < |page| ==> page[i] in c)
    && (forall i, j :: 0 <= i < j < |page| ==> page[i] != page[j])
    && (forall i, j :: 0 <= i < j < |page| ==> c[page[i]] <= c[page[j]])
    && (forall k, i :: k in c && k !in page && 0 <= i < |page| ==> c[page[i]] <= c[k])
    && (more <==> exists k :: k in c && k !in page)
    && (more ==> |page| == limit)
  }

  ghost predicate DistinctStamps<K(!new)>(c: map<K, nat>) {
    forall k, l :: k in c && l in c && c[k] == c[l] ==> k == l
  }

  /** Where a reader that was at `since` stands after a page: at its last stamp. */
  function Cursor<K>(c: map<K, nat>, since: nat, page: seq<K>): nat
    requires forall i :: 0 <= i < |page| ==> page[i] in c
  {
    if page == [] then since else c[page[|page| - 1]]
  }

  /** The database's ordered, limited selection. */
  method SelectOrdered<K(==, !new)>(c: map<K, nat>, n: nat) returns (ks: seq<K>)
    ensures IsSelection(c, n, ks)
  {
    ks := [];
    var rest := c.Keys;
    while rest != {} && |ks| < n
      invariant |ks| <= n
      invariant rest <= c.Keys
      invariant forall k :: k in c ==> (k in rest <==> k !in ks)
      invariant forall i :: 0 <= i < |ks| ==> ks[i] in c
      invariant forall i, j :: 0 <= i < j < |ks| ==> ks[i] != ks[j]
      invariant forall i, j :: 0 <= i < j < |ks| ==> c[ks[i]] <= c[ks[j]]
      invariant forall k, i :: k in rest && 0 <= i < |ks| ==> c[ks[i]] <= c[k]
      decreases |rest|
    {
      var best :| best in rest;
      var left := rest - {best};
      while left != {}
        invariant best in rest && left <= rest
        invariant forall k :: k in rest && k !in left ==> c[best] <= c[k]
        decreases |left|
      {
        var k :| k in left;
        if c[k] < c[best] { best := k; }
        left := left - {k};
      }
      ks := ks + [best];
      rest := rest - {best};
    }
  }

  /** Fetching one key more than the limit and trimming it decides `hasMore` without a count. */
  lemma OverFetch<K(!new)>(c: map<K, nat>, limit: nat, ks: seq<K>)
    requires IsSelection(c, limit + 1, ks)
    ensures IsPage(c, limit, if |ks| > limit then ks[..limit] else ks, |ks| > limit)
  {
    if |ks| > limit {
      var page := ks[..limit];
      assert ks[limit] in c && ks[limit] !in page;
      forall k, i | k in c && k !in page && 0 <= i < |page| ensures c[page[i]] <= c[k] {
        if k in ks {
          assert k == ks[limit];
        }
      }
    }
  }

  /** After a page the reader holds exactly the candidates at or below its new cursor, and has
      moved on whenever more remain. */
  lemma PageReaches<K(!new)>(c: map<K, nat>, since: nat, limit: nat, page: seq<K>, more: bool)
    requires DistinctStamps(c) && limit >= 1
    requires forall k :: k in c ==> c[k] > since
    requires IsPage(c, limit, page, more)
    ensures forall k :: k in c ==> (k in page <==> c[k] <= Cursor(c, since, page))
    ensures more ==> Cursor(c, since, page) > since
    ensures !more ==> forall k :: k in c ==> k in page
    ensures Cursor(c, since, page) >= since
  {
    if page != [] {
      var last := page[|page| - 1];
      forall k | k in c ensures k in page <==> c[k] <= c[last] {
        if k in page {
          var i :| 0 <= i < |page| && page[i] == k;
          assert i < |page| - 1 ==> c[page[i]] <= c[last];
        } else {
          assert c[last] <= c[k] && k != last;
        }
      }
    }
  }

  /** A page is in strict order, above the old cursor and up to the new one. */
  lemma PageAscends<K(!new)>(c: map<K, nat>, since: nat, limit: nat, page: seq<K>, more: bool)
    requires DistinctStamps(c)
    requires forall k :: k in c ==> c[k] > since
    requires IsPage(c, limit, page, more)
    ensures forall i, j :: 0 <= i < j < |page| ==> c[page[i]] < c[page[j]]
    ensures forall i :: 0 <= i < |page| ==> since < c[page[i]] <= Cursor(c, since, page)
  {
    forall i, j | 0 <= i < j < |page| ensures c[page[i]] < c[page[j]] {
      assert c[page[i]] <= c[page[j]] && page[i] != page[j];
    }
  }

  /** The page is determined: two answers to the same query are the same answer. */
  lemma PageUnique<K(!new)>(c: map<K, nat>, limit: nat, p: seq<K>, pMore: bool, q: seq<K>, qMore: bool)
    requires DistinctStamps(c)
    requires IsPage(c, limit, p, pMore) && IsPage(c, limit, q, qMore)
    ensures p == q && pMore == qMore
  {
    if |p| <= |q| {
      SamePrefix(c, limit, p, pMore, q, qMore, |p|);
      SameLength(c, limit, p, pMore, q, qMore);
    } else {
      SamePrefix(c, limit, q, qMore, p, pMore, |q|);
      SameLength(c, limit, q, qMore, p, pMore);
    }
  }

  lemma SameLength<K(!new)>(c: map<K, nat>, limit: nat, p: seq<K>, pMore: bool, q: seq<K>, qMore: bool)
    requires IsPage(c, limit, p, pMore) && IsPage(c, limit, q, qMore)
    requires |p| <= |q| && q[..|p|] == p
    ensures p == q
  {
    assert forall i :: 0 <= i < |p| ==> p[i] == q[..|p|][i];
    if q != [] {
      var i := if |p| < |q| then |p| else |q| - 1;
      var k := q[i];
      assert i == |p| ==> k in c && k !in p;
    }
    assert |p| == |q|;
    assert q[..|p|] == q;
  }

  lemma {:induction false} SamePrefix<K(!new)>(c: map<K, nat>, limit: nat, p: seq<K>, pMore: bool, q: seq<K>,
                                        qMore: bool, n: nat)
    requires DistinctStamps(c)
    requires IsPage(c, limit, p, pMore) && IsPage(c, limit, q, qMore)
    requires n <= |p| && n <= |q|
    ensures p[..n] == q[..n]
  {
    if n == 0 {
    } else {
      SamePrefix(c, limit, p, pMore, q, qMore, n - 1);
      Earlier(c, limit, p, q, qMore, n - 1);
      Earlier(c, limit, q, p, pMore, n - 1);
      assert p[..n] == p[..n - 1] + [p[n - 1]];
      assert q[..n] == q[..n - 1] + [q[n - 1]];
    }
  }

  lemma Earlier<K(!new)>(c: map<K, nat>, limit: nat, p: seq<K>, q: seq<K>, qMore: bool, i: nat)
    requires IsPage(c, limit, q, qMore)
    requires i < |p| && i < |q| && p[..i] == q[..i]
    requires p[i] in c && forall j :: 0 <= j < i ==> p[j] != p[i]
    ensures c[q[i]] <= c[p[i]]
  {
    assert forall j :: 0 <= j < i ==> q[j] == q[..i][j] == p[..i][j] == p[j];
    if p[i] in q {
      var j :| 0 <= j < |q| && q[j] == p[i];
      assert i <= j;
    }
  }
}
