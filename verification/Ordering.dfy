/**
 The key order of the ordered containers (`Compare`, and the operators `<`, `>`, `>=` the scans use), and the lists
 that show the contents of a shard.
 */
module Ordering {
  ghost predicate StrictTotalOrder<K(!new)>(less: (K, K) -> bool) {
    && (forall a :: !less(a, a))
    && (forall a, b, c :: less(a, b) && less(b, c) ==> less(a, c))
    && (forall a, b :: a != b ==> less(a, b) || less(b, a))
  }

  /** lo <= k <= hi, with the operators the scans use. */
  predicate InRange<K>(less: (K, K) -> bool, k: K, lo: K, hi: K) {
    !less(k, lo) && !less(hi, k)
  }

  ghost predicate DistinctKeys<K, V>(xs: seq<(K, V)>) {
    forall i, j :: 0 <= i < j < |xs| ==> xs[i].0 != xs[j].0
  }

  ghost predicate SortedKeys<K, V>(less: (K, K) -> bool, xs: seq<(K, V)>) {
    forall i, j :: 0 <= i < j < |xs| ==> less(xs[i].0, xs[j].0)
  }

  ghost predicate HasKey<K, V>(xs: seq<(K, V)>, k: K) {
    exists i :: 0 <= i < |xs| && xs[i].0 == k
  }

  /** `xs` shows every entry of `m` once, and nothing else. */
  ghost predicate Listing<K(!new), V>(xs: seq<(K, V)>, m: map<K, V>) {
    && DistinctKeys(xs)
    && (forall i :: 0 <= i < |xs| ==> xs[i].0 in m && m[xs[i].0] == xs[i].1)
    && (forall k :: k in m ==> HasKey(xs, k))
  }

  ghost predicate SortedListing<K(!new), V>(less: (K, K) -> bool, xs: seq<(K, V)>, m: map<K, V>) {
    Listing(xs, m) && SortedKeys(less, xs)
  }

  /** A listing is a permutation of the entries of the map, and every permutation is a listing. */
  lemma ListingIsPermutation<K(!new), V(!new)>(xs: seq<(K, V)>, m: map<K, V>)
    ensures Listing(xs, m) <==> multiset(xs) == multiset(m.Items)
  {
    if Listing(xs, m) {
      forall x ensures multiset(xs)[x] == multiset(m.Items)[x] {
        if x in m.Items {
          assert HasKey(xs, x.0);
        }
        if i :| 0 <= i < |xs| && xs[i] == x {
          CountOnce(xs, i);
          assert x in m.Items;
        }
      }
    }
    if multiset(xs) == multiset(m.Items) {
      assert forall x :: x in xs <==> x in multiset(xs);
      assert forall x :: x in xs ==> x in m.Items;
      forall i, j | 0 <= i < j < |xs| ensures xs[i].0 != xs[j].0 {
        assert xs[i] in xs && xs[j] in xs;
        assert multiset(m.Items)[xs[i]] == 1;
        if xs[i] == xs[j] {
          CountTwice(xs, i, j);
        }
      }
      forall i | 0 <= i < |xs| ensures xs[i].0 in m && m[xs[i].0] == xs[i].1 {
        assert xs[i] in xs;
      }
      forall k | k in m ensures HasKey(xs, k) {
        assert (k, m[k]) in m.Items;
        assert (k, m[k]) in xs;
      }
    }
  }

  lemma CountOnce<K, V>(xs: seq<(K, V)>, i: nat)
    requires DistinctKeys(xs) && i < |xs|
    ensures multiset(xs)[xs[i]] == 1
  {
    assert xs == xs[..i] + [xs[i]] + xs[i + 1..];
    assert xs[i] !in xs[..i] && xs[i] !in xs[i + 1..];
  }

  lemma CountTwice<A>(xs: seq<A>, i: nat, j: nat)
    requires i < j < |xs| && xs[i] == xs[j]
    ensures multiset(xs)[xs[i]] >= 2
  {
    assert xs == xs[..j] + [xs[j]] + xs[j + 1..];
    assert xs[..j][i] == xs[i];
    assert xs[i] in multiset(xs[..j]);
  }

  // ---------- listings exist ----------

  ghost predicate IsLeast<K>(less: (K, K) -> bool, k: K, s: set<K>) {
    k in s && forall x :: x in s && x != k ==> less(k, x)
  }

  lemma {:induction false} LeastExists<K(!new)>(less: (K, K) -> bool, s: set<K>) returns (k: K)
    requires StrictTotalOrder(less) && s != {}
    ensures IsLeast(less, k, s)
    decreases |s|
  {
    k :| k in s;
    var rest := s - {k};
    assert forall x :: x in s && x != k ==> x in rest;
    if rest != {} {
      var l := LeastExists(less, rest);
      if less(l, k) { k := l; }
    }
  }

  lemma PrependListing<K(!new), V>(k: K, ys: seq<(K, V)>, m: map<K, V>)
    requires k in m && Listing(ys, m - {k})
    ensures Listing([(k, m[k])] + ys, m)
  {
    var xs := [(k, m[k])] + ys;
    assert xs[0].0 == k;
    forall j | j in m ensures HasKey(xs, j) {
      if j != k {
        assert j in m - {k};
        assert HasKey(ys, j);
        var i :| 0 <= i < |ys| && ys[i].0 == j;
        assert xs[i + 1].0 == j;
      }
    }
  }

  lemma {:induction false} SortedListingExists<K(!new), V>(less: (K, K) -> bool, m: map<K, V>) returns (xs: seq<(K, V)>)
    requires StrictTotalOrder(less)
    ensures SortedListing(less, xs, m)
    decreases |m|
  {
    if m == map[] {
      xs := [];
    } else {
      var k := LeastExists(less, m.Keys);
      SmallerWithout(m, k);
      var ys := SortedListingExists(less, m - {k});
      PrependListing(k, ys, m);
      PrependSorted(less, k, ys, m);
      xs := [(k, m[k])] + ys;
    }
  }

  lemma PrependSorted<K(!new), V>(less: (K, K) -> bool, k: K, ys: seq<(K, V)>, m: map<K, V>)
    requires IsLeast(less, k, m.Keys) && SortedListing(less, ys, m - {k})
    ensures SortedKeys(less, [(k, m[k])] + ys)
  {
    forall i | 0 <= i < |ys| ensures less(k, ys[i].0) {
      assert ys[i].0 in m - {k};
      assert ys[i].0 in m.Keys;
    }
  }

  lemma SmallerWithout<K, V>(m: map<K, V>, k: K)
    requires k in m
    ensures |m - {k}| < |m|
  {
    assert (m - {k}).Keys == m.Keys - {k};
    assert |m - {k}| == |(m - {k}).Keys| && |m| == |m.Keys|;
  }

  lemma {:induction false} ListingExists<K(!new), V>(m: map<K, V>) returns (xs: seq<(K, V)>)
    ensures Listing(xs, m)
    decreases |m|
  {
    if m == map[] {
      xs := [];
    } else {
      var k :| k in m;
      SmallerWithout(m, k);
      var ys := ListingExists(m - {k});
      PrependListing(k, ys, m);
      xs := [(k, m[k])] + ys;
    }
  }

  /** A map has one sorted listing only: what an ordered shard shows is determined by its contents. */
  lemma {:induction false} SortedListingIsUnique<K(!new), V>(less: (K, K) -> bool, xs: seq<(K, V)>, ys: seq<(K, V)>,
                                                             m: map<K, V>)
    requires StrictTotalOrder(less)
    requires SortedListing(less, xs, m) && SortedListing(less, ys, m)
    ensures xs == ys
    decreases |xs|
  {
    SameStart(less, xs, ys, m);
    if xs != [] {
      var rest := m - {xs[0].0};
      TailListing(less, xs, m);
      TailListing(less, ys, m);
      SortedListingIsUnique(less, xs[1..], ys[1..], rest);
      assert xs == [xs[0]] + xs[1..] && ys == [ys[0]] + ys[1..];
    }
  }

  lemma SameStart<K(!new), V>(less: (K, K) -> bool, xs: seq<(K, V)>, ys: seq<(K, V)>, m: map<K, V>)
    requires StrictTotalOrder(less)
    requires SortedListing(less, xs, m) && SortedListing(less, ys, m)
    ensures xs == [] <==> ys == []
    ensures xs != [] ==> xs[0] == ys[0]
  {
    if xs != [] { assert xs[0].0 in m && HasKey(ys, xs[0].0); }
    if ys != [] { assert ys[0].0 in m && HasKey(xs, ys[0].0); }
  }

  lemma TailListing<K(!new), V>(less: (K, K) -> bool, xs: seq<(K, V)>, m: map<K, V>)
    requires SortedListing(less, xs, m) && xs != []
    ensures SortedListing(less, xs[1..], m - {xs[0].0})
  {
    forall k | k in m - {xs[0].0} ensures HasKey(xs[1..], k) {
      assert HasKey(xs, k);
      var i :| 0 <= i < |xs| && xs[i].0 == k;
      assert xs[1..][i - 1].0 == k;
    }
  }
}
