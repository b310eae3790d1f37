/**
 The shard of basket::map, and with unit values that of basket::set: what the Local* functions do to the
 container in the shared segment.  The segment's tree is a sequence sorted by key, an iterator an index into it.  Each
 method is proved to take the step that MapService.Body describes for the RPC machine.
 */
module OrderedShard {
  import opened Ordering
  import opened MapService

  // ---------- sorted sequences ----------

  /** The entries of a list of distinct keys. */
  ghost function ToMap<K(!new), V>(xs: seq<(K, V)>): (m: map<K, V>)
    requires DistinctKeys(xs)
    ensures Listing(xs, m)
  {
    var m := map i | 0 <= i < |xs| :: xs[i].0 := xs[i].1;
    assert forall i :: 0 <= i < |xs| ==> xs[i].0 in m;
    m
  }

  lemma SortedIsDistinct<K(!new), V>(less: (K, K) -> bool, xs: seq<(K, V)>)
    requires StrictTotalOrder(less) && SortedKeys(less, xs)
    ensures DistinctKeys(xs)
  {
  }

  /** The lower bound is the only position that parts the smaller keys from the others. */
  lemma LowerBoundIs<K(!new), V>(less: (K, K) -> bool, xs: seq<(K, V)>, key: K, i: nat)
    requires i <= |xs|
    requires forall j :: 0 <= j < i ==> less(xs[j].0, key)
    requires i < |xs| ==> !less(xs[i].0, key)
    ensures i == LowerBound(less, xs, key)
  {
    var lb := LowerBound(less, xs, key);
  }

  /** From the lower bound on, no key is smaller. */
  lemma FromLowerBound<K(!new), V>(less: (K, K) -> bool, xs: seq<(K, V)>, key: K)
    requires StrictTotalOrder(less) && SortedKeys(less, xs)
    ensures forall j :: LowerBound(less, xs, key) <= j < |xs| ==> !less(xs[j].0, key)
  {
    var lb := LowerBound(less, xs, key);
    forall j | lb <= j < |xs| ensures !less(xs[j].0, key) {
      if lb < j { assert less(xs[lb].0, xs[j].0); }
    }
  }

  /** A key is present exactly when it stands at its lower bound. */
  lemma KeyAtLowerBound<K(!new), V>(less: (K, K) -> bool, xs: seq<(K, V)>, key: K)
    requires StrictTotalOrder(less) && SortedKeys(less, xs) && DistinctKeys(xs)
    ensures var lb := LowerBound(less, xs, key);
            key in ToMap(xs) <==> lb < |xs| && xs[lb].0 == key
  {
    FromLowerBound(less, xs, key);
    if key in ToMap(xs) {
      assert HasKey(xs, key);
      var i :| 0 <= i < |xs| && xs[i].0 == key;
      LowerBoundIs(less, xs, key, i);
    }
  }

  /** An absent key is smaller than everything from its lower bound on. */
  lemma AbsentKeyParts<K(!new), V>(less: (K, K) -> bool, xs: seq<(K, V)>, key: K)
    requires StrictTotalOrder(less) && SortedKeys(less, xs)
    requires var lb := LowerBound(less, xs, key); lb == |xs| || xs[lb].0 != key
    ensures forall j :: LowerBound(less, xs, key) <= j < |xs| ==> less(key, xs[j].0)
  {
    var lb := LowerBound(less, xs, key);
    forall j | lb <= j < |xs| ensures less(key, xs[j].0) {
      assert less(key, xs[lb].0);
      if lb < j { assert less(xs[lb].0, xs[j].0); }
    }
  }

  lemma InsertedSorted<K, V>(less: (K, K) -> bool, xs: seq<(K, V)>, lb: nat, key: K, data: V)
    requires SortedKeys(less, xs) && lb <= |xs|
    requires forall j :: 0 <= j < lb ==> less(xs[j].0, key)
    requires forall j :: lb <= j < |xs| ==> less(key, xs[j].0)
    ensures SortedKeys(less, xs[..lb] + [(key, data)] + xs[lb..])
  {
    var ys := xs[..lb] + [(key, data)] + xs[lb..];
    forall i, j | 0 <= i < j < |ys| ensures less(ys[i].0, ys[j].0) {
      if i != lb { assert ys[i] == xs[if i < lb then i else i - 1]; }
      if j != lb { assert ys[j] == xs[if j < lb then j else j - 1]; }
    }
  }

  lemma InsertedMap<K(!new), V>(less: (K, K) -> bool, xs: seq<(K, V)>, key: K, data: V)
    requires StrictTotalOrder(less) && SortedKeys(less, xs) && DistinctKeys(xs)
    requires var lb := LowerBound(less, xs, key); lb == |xs| || xs[lb].0 != key
    ensures var ys := xs[..LowerBound(less, xs, key)] + [(key, data)] + xs[LowerBound(less, xs, key)..];
            SortedKeys(less, ys) && DistinctKeys(ys) && ToMap(ys) == ToMap(xs)[key := data]
  {
    var lb := LowerBound(less, xs, key);
    AbsentKeyParts(less, xs, key);
    InsertedSorted(less, xs, lb, key, data);
    SortedIsDistinct(less, xs[..lb] + [(key, data)] + xs[lb..]);
    KeyAtLowerBound(less, xs, key);
    InsertedEntries(xs, lb, key, data);
  }

  lemma InsertedEntries<K(!new), V>(xs: seq<(K, V)>, lb: nat, key: K, data: V)
    requires lb <= |xs| && DistinctKeys(xs) && key !in ToMap(xs) && DistinctKeys(xs[..lb] + [(key, data)] + xs[lb..])
    ensures ToMap(xs[..lb] + [(key, data)] + xs[lb..]) == ToMap(xs)[key := data]
  {
    SameEntries(xs, lb, (key, data), xs[..lb] + [(key, data)] + xs[lb..]);
  }

  lemma SameEntries<K(!new), V>(xs: seq<(K, V)>, lb: nat, x: (K, V), ys: seq<(K, V)>)
    requires lb <= |xs| && |ys| == |xs| + 1 && ys[lb] == x
    requires forall i :: 0 <= i < lb ==> ys[i] == xs[i]
    requires forall i :: lb <= i < |xs| ==> ys[i + 1] == xs[i]
    requires DistinctKeys(ys) && DistinctKeys(xs) && x.0 !in ToMap(xs)
    ensures ToMap(ys) == ToMap(xs)[x.0 := x.1]
  {
    var m := ToMap(xs)[x.0 := x.1];
    forall k | k in m ensures HasKey(ys, k) {
      if k == x.0 {
        assert ys[lb].0 == k;
      } else {
        assert HasKey(xs, k);
        var i :| 0 <= i < |xs| && xs[i].0 == k;
        assert ys[if i < lb then i else i + 1].0 == k;
      }
    }
    forall i | 0 <= i < |ys| ensures ys[i].0 in m && m[ys[i].0] == ys[i].1 {
      if i > lb {
        assert ys[i] == xs[i - 1];
      }
    }
    ListedMap(ys, m);
  }

  /** A list shows one map only. */
  lemma ListedMap<K(!new), V>(xs: seq<(K, V)>, m: map<K, V>)
    requires Listing(xs, m)
    ensures ToMap(xs) == m
  {
    forall k ensures k in ToMap(xs) <==> k in m {
      if k in ToMap(xs) || k in m { assert HasKey(xs, k); }
    }
    forall k | k in m ensures ToMap(xs)[k] == m[k] {
      assert HasKey(xs, k);
    }
  }

  lemma ReplacedMap<K(!new), V>(xs: seq<(K, V)>, i: nat, data: V)
    requires DistinctKeys(xs) && i < |xs|
    ensures DistinctKeys(xs[i := (xs[i].0, data)])
    ensures ToMap(xs[i := (xs[i].0, data)]) == ToMap(xs)[xs[i].0 := data]
  {
    var ys := xs[i := (xs[i].0, data)];
    assert forall j :: 0 <= j < |ys| ==> ys[j].0 == xs[j].0;
    var m := ToMap(xs)[xs[i].0 := data];
    forall k | k in m ensures HasKey(ys, k) {
      if k == xs[i].0 {
        assert ys[i].0 == k;
      } else {
        assert HasKey(xs, k);
        var j :| 0 <= j < |xs| && xs[j].0 == k;
        assert ys[j].0 == k;
      }
    }
    ListedMap(ys, m);
  }

  /** `ys` is `xs` without its entry `i`. */
  predicate Without<K(==), V(==)>(xs: seq<(K, V)>, i: nat, ys: seq<(K, V)>) {
    i < |xs| && |ys| == |xs| - 1 && forall j :: 0 <= j < |ys| ==> ys[j] == xs[if j < i then j else j + 1]
  }

  lemma RemovedDistinct<K(!new), V(!new)>(xs: seq<(K, V)>, i: nat, ys: seq<(K, V)>)
    requires DistinctKeys(xs) && Without(xs, i, ys)
    ensures DistinctKeys(ys) && !HasKey(ys, xs[i].0)
  {
  }

  lemma RemovedMap<K(!new), V(!new)>(xs: seq<(K, V)>, i: nat, ys: seq<(K, V)>)
    requires DistinctKeys(xs) && Without(xs, i, ys)
    ensures DistinctKeys(ys) && ToMap(ys) == ToMap(xs) - {xs[i].0}
  {
    RemovedDistinct(xs, i, ys);
    var gone := xs[i].0;
    forall k ensures HasKey(ys, k) <==> HasKey(xs, k) && k != gone {
      if HasKey(xs, k) && k != gone {
        var j :| 0 <= j < |xs| && xs[j].0 == k;
        assert ys[if j < i then j else j - 1].0 == k;
      }
    }
    forall j | 0 <= j < |ys| ensures ToMap(xs)[ys[j].0] == ys[j].1 {
      assert ys[j] == xs[if j < i then j else j + 1];
    }
    ListedMap(ys, ToMap(xs) - {gone});
  }

  lemma RemovedSorted<K, V>(less: (K, K) -> bool, xs: seq<(K, V)>, i: nat, ys: seq<(K, V)>)
    requires SortedKeys(less, xs) && Without(xs, i, ys)
    ensures SortedKeys(less, ys)
  {
  }

  /** `erase(iterator)` keeps the order and the other entries. */
  lemma RemovedEntry<K(!new), V(!new)>(less: (K, K) -> bool, xs: seq<(K, V)>, i: nat)
    requires SortedKeys(less, xs) && DistinctKeys(xs) && i < |xs|
    ensures var ys := xs[..i] + xs[i + 1..];
            SortedKeys(less, ys) && DistinctKeys(ys) && ToMap(ys) == ToMap(xs) - {xs[i].0}
  {
    var ys := xs[..i] + xs[i + 1..];
    assert Without(xs, i, ys);
    RemovedMap(xs, i, ys);
    RemovedSorted(less, xs, i, ys);
  }

  /** Two positions part the range from the rest. */
  lemma RangeIsSlice<K(!new), V>(less: (K, K) -> bool, xs: seq<(K, V)>, a: nat, b: nat, lo: K, hi: K)
    requires StrictTotalOrder(less) && SortedKeys(less, xs)
    requires a == LowerBound(less, xs, lo) <= b <= |xs|
    requires forall j :: a <= j < b ==> !less(hi, xs[j].0)
    requires b < |xs| ==> less(hi, xs[b].0)
    ensures forall j :: 0 <= j < |xs| ==> (a <= j < b <==> InRange(less, xs[j].0, lo, hi))
  {
    FromLowerBound(less, xs, lo);
    forall j | b <= j < |xs| ensures less(hi, xs[j].0) {
      if b < j { assert less(xs[b].0, xs[j].0); }
    }
  }

  /** The slice between two positions that part `m` from the other entries lists `m`. */
  lemma SliceListing<K(!new), V>(xs: seq<(K, V)>, a: nat, b: nat, m: map<K, V>)
    requires DistinctKeys(xs) && a <= b <= |xs|
    requires forall k :: k in m ==> k in ToMap(xs) && m[k] == ToMap(xs)[k]
    requires forall j :: 0 <= j < |xs| ==> (a <= j < b <==> xs[j].0 in m)
    ensures Listing(xs[a..b], m)
  {
    forall k | k in m ensures HasKey(xs[a..b], k) {
      assert HasKey(xs, k);
      var j :| 0 <= j < |xs| && xs[j].0 == k;
      assert xs[a..b][j - a].0 == k;
    }
    forall i | 0 <= i < |xs[a..b]| ensures xs[a..b][i].0 in m && m[xs[a..b][i].0] == xs[a..b][i].1 {
      assert xs[a..b][i] == xs[a + i];
    }
  }

  lemma SliceIsRange<K(!new), V>(less: (K, K) -> bool, xs: seq<(K, V)>, a: nat, b: nat, lo: K, hi: K)
    requires StrictTotalOrder(less) && SortedKeys(less, xs) && DistinctKeys(xs)
    requires a == LowerBound(less, xs, lo) <= b <= |xs|
    requires forall j :: a <= j < b ==> !less(hi, xs[j].0)
    requires b < |xs| ==> less(hi, xs[b].0)
    ensures SortedListing(less, xs[a..b], RangePart(less, ToMap(xs), lo, hi))
  {
    RangeIsSlice(less, xs, a, b, lo, hi);
    RangeSliceListing(less, xs, a, b, lo, hi);
  }

  lemma RangeSliceListing<K(!new), V>(less: (K, K) -> bool, xs: seq<(K, V)>, a: nat, b: nat, lo: K, hi: K)
    requires SortedKeys(less, xs) && DistinctKeys(xs) && a <= b <= |xs|
    requires forall j :: 0 <= j < |xs| ==> (a <= j < b <==> InRange(less, xs[j].0, lo, hi))
    ensures SortedListing(less, xs[a..b], RangePart(less, ToMap(xs), lo, hi))
  {
    var m := RangePart(less, ToMap(xs), lo, hi);
    forall j | 0 <= j < |xs| ensures a <= j < b <==> xs[j].0 in m {
      assert xs[j].0 in ToMap(xs);
    }
    SliceListing(xs, a, b, m);
    SliceSorted(less, xs, a, b);
  }

  lemma SliceSorted<K, V>(less: (K, K) -> bool, xs: seq<(K, V)>, a: nat, b: nat)
    requires SortedKeys(less, xs) && a <= b <= |xs|
    ensures SortedKeys(less, xs[a..b])
  {
    var ys := xs[a..b];
    assert forall i :: 0 <= i < |ys| ==> ys[i] == xs[a + i];
  }

  lemma WithoutFirst<K(!new), V(!new)>(less: (K, K) -> bool, xs: seq<(K, V)>)
    requires SortedKeys(less, xs) && DistinctKeys(xs) && xs != []
    ensures SortedKeys(less, xs[1..]) && DistinctKeys(xs[1..]) && ToMap(xs[1..]) == ToMap(xs) - {xs[0].0}
  {
    assert Without(xs, 0, xs[1..]);
    RemovedMap(xs, 0, xs[1..]);
    RemovedSorted(less, xs, 0, xs[1..]);
  }

  lemma SizeOfMap<K(!new), V(!new)>(xs: seq<(K, V)>)
    requires DistinctKeys(xs)
    ensures |ToMap(xs)| == |xs|
  {
    var m := ToMap(xs);
    ListingIsPermutation(xs, m);
    assert |multiset(xs)| == |xs| && |multiset(m.Items)| == |m.Items|;
  }

  /** `lower_bound(key)` */
  method FindLowerBound<K(!new), V>(less: (K, K) -> bool, xs: seq<(K, V)>, key: K) returns (i: nat)
    requires StrictTotalOrder(less) && SortedKeys(less, xs)
    ensures i == LowerBound(less, xs, key)
  {
    var lo, hi := 0, |xs|;
    while lo < hi
      invariant 0 <= lo <= hi <= |xs|
      invariant forall j :: 0 <= j < lo ==> less(xs[j].0, key)
      invariant forall j :: hi <= j < |xs| ==> !less(xs[j].0, key)
    {
      var mid := (lo + hi) / 2;
      if less(xs[mid].0, key) {
        forall j | 0 <= j < mid ensures less(xs[j].0, key) {
          assert less(xs[j].0, xs[mid].0);
        }
        lo := mid + 1;
      } else {
        forall j | mid < j < |xs| ensures !less(xs[j].0, key) {
          assert less(xs[mid].0, xs[j].0);
        }
        hi := mid;
      }
    }
    i := lo;
    LowerBoundIs(less, xs, key, i);
  }

  /** `insert_or_assign(key, data)` */
  method InsertOrAssign<K(==, !new), V>(less: (K, K) -> bool, xs: seq<(K, V)>, key: K, data: V)
    returns (ys: seq<(K, V)>)
    requires StrictTotalOrder(less) && SortedKeys(less, xs) && DistinctKeys(xs)
    ensures SortedKeys(less, ys) && DistinctKeys(ys) && ToMap(ys) == ToMap(xs)[key := data]
  {
    var i := FindLowerBound(less, xs, key);
    if i < |xs| && xs[i].0 == key {
      ReplacedMap(xs, i, data);
      ys := xs[i := (xs[i].0, data)];
    } else {
      InsertedMap(less, xs, key, data);
      ys := xs[..i] + [(key, data)] + xs[i..];
    }
  }

  /** `erase(key)`: how many entries it removed, and what is left. */
  method EraseKey<K(==, !new), V(!new)>(less: (K, K) -> bool, xs: seq<(K, V)>, key: K)
    returns (removed: nat, ys: seq<(K, V)>)
    requires StrictTotalOrder(less) && SortedKeys(less, xs) && DistinctKeys(xs)
    ensures SortedKeys(less, ys) && DistinctKeys(ys) && ToMap(ys) == ToMap(xs) - {key}
    ensures removed == if key in ToMap(xs) then 1 else 0
  {
    var i := FindLowerBound(less, xs, key);
    KeyAtLowerBound(less, xs, key);
    removed, ys := 0, xs;
    if i < |xs| && xs[i].0 == key {
      RemovedEntry(less, xs, i);
      removed, ys := 1, xs[..i] + xs[i + 1..];
    }
  }

  // ---------- the shard ----------

  class Shard<K(==, !new), V(!new)> {
    const kind: Kind<K>
    const noKey: K
    const noValue: V
    var mymap: seq<(K, V)>

    ghost predicate Valid()
      reads this
    {
      (kind.OrderedMap? || kind.OrderedSet?) && StrictTotalOrder(kind.less) && SortedKeys(kind.less, mymap) &&
        DistinctKeys(mymap)
    }

    ghost function Contents(): map<K, V>
      requires Valid()
      reads this
    {
      ToMap(mymap)
    }

    ghost predicate Step(o: Op<K, V>, pre: map<K, V>, post: map<K, V>, r: Reply<K, V>) {
      Body(kind, noKey, noValue, o, pre, post, r)
    }

    constructor (kind: Kind<K>, noKey: K, noValue: V)
      requires (kind.OrderedMap? || kind.OrderedSet?) && StrictTotalOrder(kind.less)
      ensures Valid() && this.kind == kind && this.noKey == noKey && this.noValue == noValue
      ensures Contents() == map[]
    {
      this.kind, this.noKey, this.noValue := kind, noKey, noValue;
      mymap := [];
    }

    method LocalPut(key: K, data: V) returns (ok: bool)
      requires Valid()
      modifies this
      ensures Valid() && Step(Put(key, data), old(Contents()), Contents(), Flag(ok))
    {
      mymap := InsertOrAssign(kind.less, mymap, key, data);
      ok := true;
    }

    method LocalGet(key: K) returns (found: bool, value: V)
      requires Valid()
      ensures Step(Get(key), Contents(), Contents(), Pair(found, value))
    {
      var i := FindLowerBound(kind.less, mymap, key);
      KeyAtLowerBound(kind.less, mymap, key);
      if i < |mymap| && mymap[i].0 == key {
        assert mymap[i].0 in ToMap(mymap);
        found, value := true, mymap[i].1;
      } else {
        found, value := false, noValue;
      }
    }

    method LocalErase(key: K) returns (found: bool, value: V)
      requires Valid()
      modifies this
      ensures Valid() && Step(Erase(key), old(Contents()), Contents(), Pair(found, value))
    {
      var removed;
      removed, mymap := EraseKey(kind.less, mymap, key);
      found, value := removed > 0, noValue;
    }

    method LocalGetAllDataInServer() returns (finalValues: seq<(K, V)>)
      requires Valid()
      ensures Step(GetAllData, Contents(), Contents(), Listed(finalValues))
    {
      finalValues := [];
      var it := 0;
      while it != |mymap|
        invariant 0 <= it <= |mymap| && finalValues == mymap[..it]
        decreases |mymap| - it
      {
        finalValues := finalValues + [mymap[it]];
        it := it + 1;
      }
      assert finalValues == mymap;
    }

    /** The range scan: a single entry is only compared with `keyStart`. */
    method LocalContainsInServer(keyStart: K, keyEnd: K) returns (finalValues: seq<(K, V)>)
      requires Valid()
      ensures Step(Contains(keyStart, keyEnd), Contents(), Contents(), Listed(finalValues))
      ensures |mymap| != 1 ==> SortedListing(kind.less, finalValues, RangePart(kind.less, Contents(), keyStart, keyEnd))
    {
      finalValues := [];
      SizeOfMap(mymap);
      var size := |mymap|;
      if size == 0 {
      } else if size == 1 {
        if if kind.OrderedSet? then !kind.less(mymap[0].0, keyStart) else kind.less(keyStart, mymap[0].0) {
          finalValues := finalValues + [mymap[0]];
        }
        SingleAnswer(keyStart, keyEnd, finalValues);
      } else {
        finalValues := ScanRange(keyStart, keyEnd);
      }
    }

    /** Several entries: from the lower bound, one step back, and on until a key exceeds `keyEnd`. */
    method ScanRange(keyStart: K, keyEnd: K) returns (finalValues: seq<(K, V)>)
      requires Valid()
      ensures SortedListing(kind.less, finalValues, RangePart(kind.less, Contents(), keyStart, keyEnd))
    {
      finalValues := [];
      var it := FindLowerBound(kind.less, mymap, keyStart);
      ghost var start := it;
      if it == |mymap| {
        SliceIsRange(kind.less, mymap, it, it, keyStart, keyEnd);
        return;
      }
      if it != 0 {
        it := it - 1;
        if kind.less(mymap[it].0, keyStart) { it := it + 1; }
      }
      assert it == start;   // the step back always returns
      while it != |mymap|
        invariant start <= it <= |mymap| && finalValues == mymap[start..it]
        invariant forall j :: start <= j < it ==> !kind.less(keyEnd, mymap[j].0)
        decreases |mymap| - it
      {
        if kind.less(keyEnd, mymap[it].0) { break; }
        finalValues := finalValues + [mymap[it]];
        it := it + 1;
      }
      SliceIsRange(kind.less, mymap, start, it, keyStart, keyEnd);
    }

    lemma SingleAnswer(lo: K, hi: K, xs: seq<(K, V)>)
      requires Valid() && |mymap| == 1
      requires xs == if Shortcut(kind, mymap[0].0, lo) then [mymap[0]] else []
      ensures Step(Contains(lo, hi), Contents(), Contents(), Listed(xs))
    {
      SizeOfMap(mymap);
      var answer := RangeAnswer(kind, Contents(), lo, hi);
      forall k | k in answer ensures HasKey(xs, k) {
        assert HasKey(mymap, k);
        assert xs[0].0 == k;
      }
      assert mymap[0].0 in Contents();
    }

    // ---------- set only ----------

    method LocalSeekFirst() returns (found: bool, key: K)
      requires Valid() && kind.OrderedSet?
      ensures forall server :: Step(SeekFirst(server), Contents(), Contents(), First(found, key))
    {
      if |mymap| > 0 {
        found, key := true, mymap[0].0;
        FirstIsLeast();
      } else {
        found, key := false, noKey;
      }
    }

    method LocalPopFirst() returns (found: bool, key: K)
      requires Valid() && kind.OrderedSet?
      modifies this
      ensures Valid()
      ensures forall server :: Step(PopFirst(server), old(Contents()), Contents(), First(found, key))
      ensures (found, key, mymap) == Popped(noKey, old(mymap))
    {
      if |mymap| > 0 {
        found, key := true, mymap[0].0;
        FirstIsLeast();
        WithoutFirst(kind.less, mymap);
        mymap := mymap[1..];
      } else {
        found, key := false, noKey;
      }
    }

    lemma FirstIsLeast()
      requires Valid() && mymap != []
      ensures IsLeast(kind.less, mymap[0].0, Contents().Keys)
    {
      assert mymap[0].0 in Contents();
      forall k | k in Contents().Keys && k != mymap[0].0 ensures kind.less(mymap[0].0, k) {
        assert HasKey(mymap, k);
      }
    }

    method LocalSeekFirstN(n: nat) returns (found: bool, keys: seq<K>)
      requires Valid() && kind.OrderedSet?
      ensures keys == Keys(mymap[..Least(n, |mymap|)]) && found == (keys != [])
      ensures LeastKeys(kind.less, keys, n, Contents())
    {
      keys := [];
      var it := 0;
      var i := 0;
      while it != |mymap| && i < n
        invariant 0 <= it == i <= |mymap| && i <= n && keys == Keys(mymap[..i])
        decreases |mymap| - it
      {
        assert mymap[..i + 1] == mymap[..i] + [mymap[i]];
        keys := keys + [mymap[it].0];
        i := i + 1;
        it := it + 1;
      }
      found := i > 0;
      FirstKeysAreLeast(kind.less, mymap, n);
    }

    /** `mymap->size()`, read without the mutex. */
    method LocalSize() returns (size: nat)
      requires Valid() && kind.OrderedSet?
      ensures forall server :: Step(Size(server), Contents(), Contents(), Count(size))
    {
      SizeOfMap(mymap);
      size := |mymap|;
    }

    /** n calls of LocalPopFirst by one client, as long as they succeed. */
    method PopFirstTimes(n: nat) returns (keys: seq<K>)
      requires Valid() && kind.OrderedSet?
      modifies this
      ensures Valid() && keys == Keys(old(mymap)[..Least(n, |old(mymap)|)]) &&
              mymap == old(mymap)[Least(n, |old(mymap)|)..]
    {
      keys := [];
      var i := 0;
      while i < n
        invariant Valid() && i <= n
        invariant keys == Keys(old(mymap)[..Least(i, |old(mymap)|)]) && mymap == old(mymap)[Least(i, |old(mymap)|)..]
      {
        ghost var before := old(mymap);
        assert i < |before| ==> before[..i + 1] == before[..i] + [before[i]];
        var found, key := LocalPopFirst();
        if found { keys := keys + [key]; }
        i := i + 1;
      }
    }
  }

  function Least(a: nat, b: nat): nat { if a < b then a else b }

  /** `keys` are the n least keys of `m`, ascending; all of them, when there are fewer. */
  ghost predicate LeastKeys<K(!new), V>(less: (K, K) -> bool, keys: seq<K>, n: nat, m: map<K, V>) {
    && |keys| == (if n < |m| then n else |m|)
    && (forall i :: 0 <= i < |keys| ==> keys[i] in m)
    && (forall i, j :: 0 <= i < j < |keys| ==> less(keys[i], keys[j]))
    && (forall k, i :: k in m && k !in keys && 0 <= i < |keys| ==> less(keys[i], k))
  }

  /** The first keys of a sorted list are the least ones. */
  lemma FirstKeysAreLeast<K(!new), V(!new)>(less: (K, K) -> bool, xs: seq<(K, V)>, n: nat)
    requires SortedKeys(less, xs) && DistinctKeys(xs)
    ensures LeastKeys(less, Keys(xs[..Least(n, |xs|)]), n, ToMap(xs))
  {
    var keys := Keys(xs[..Least(n, |xs|)]);
    SizeOfMap(xs);
    forall i | 0 <= i < |keys| ensures keys[i] == xs[i].0 && keys[i] in ToMap(xs) && keys[i] in keys {
    }
    forall k, i | k in ToMap(xs) && k !in keys && 0 <= i < |keys| ensures less(keys[i], k) {
      assert HasKey(xs, k);
      var j :| 0 <= j < |xs| && xs[j].0 == k;
    }
  }

  function Keys<K, V>(xs: seq<(K, V)>): (keys: seq<K>)
    ensures |keys| == |xs| && forall i :: 0 <= i < |xs| ==> keys[i] == xs[i].0
  {
    seq(|xs|, i requires 0 <= i < |xs| => xs[i].0)
  }

  /** What PopFirst does to the sorted entries. */
  function Popped<K, V>(noKey: K, xs: seq<(K, V)>): (bool, K, seq<(K, V)>) {
    if xs == [] then (false, noKey, []) else (true, xs[0].0, xs[1..])
  }
}
