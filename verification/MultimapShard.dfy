/**
 The shard of basket::multimap.  Its tree would admit several entries with one key, but LocalPut erases the entry it
 finds before it inserts, so that no shard ever holds two: the class invariant says so.
 */
module MultimapShard {
  import opened Ordering
  import opened MapService
  import opened OrderedShard

  /** No longer run of matching entries begins at `from`. */
  lemma {:induction false} RunLengthIs<K, V>(covers: (K, K) -> bool, xs: seq<(K, V)>, key: K, from: nat, to: nat)
    requires from <= to <= |xs|
    requires forall j :: from <= j < to ==> Matches(covers, key, xs[j].0)
    requires to < |xs| ==> !Matches(covers, key, xs[to].0)
    ensures to == from + RunLength(covers, xs, key, from)
    decreases |xs| - from
  {
    if from < to { RunLengthIs(covers, xs, key, from + 1, to); }
  }

  /** Returning a single entry unseen is what the scan would do exactly when its key is not below the wanted one
      and matches it. */
  lemma SingleEntryScanIff<K, V>(less: (K, K) -> bool, covers: (K, K) -> bool, xs: seq<(K, V)>, key: K)
    requires |xs| == 1
    ensures MultiScan(less, covers, xs, key) == MatchingRun(less, covers, xs, key) <==>
            !less(xs[0].0, key) && Matches(covers, key, xs[0].0)
  {
    assert LowerBound(less, xs, key) == if less(xs[0].0, key) then 1 else 0;
    var i := StartOfRun(less, covers, xs, key);
    var n := RunLength(covers, xs, key, i);
    assert xs[i..i + n] == xs <==> i == 0 && n == 1;
  }

  // ---------- which entries the scan returns ----------

  /** The scan begins at this key although it is below the wanted one: the wanted key contains it, nothing lies in
      between, and the scan does not end at once. */
  ghost predicate SteppedTo<K(!new), V>(less: (K, K) -> bool, covers: (K, K) -> bool, m: map<K, V>, key: K, k: K) {
    && k in m && less(k, key) && covers(key, k)
    && (forall x :: x in m && less(k, x) ==> !less(x, key))
    && exists x :: x in m && !less(x, key)
  }

  ghost predicate FromStart<K(!new), V>(less: (K, K) -> bool, covers: (K, K) -> bool, m: map<K, V>, key: K, k: K) {
    !less(k, key) || SteppedTo(less, covers, m, key, k)
  }

  /** The keys that the scan comes to, as long as they match. */
  ghost function Ahead<K(!new), V>(less: (K, K) -> bool, covers: (K, K) -> bool, m: map<K, V>, key: K): set<K> {
    set k | k in m && FromStart(less, covers, m, key, k)
  }

  /** The key is ahead, and it and everything before it there match. */
  ghost predicate Reached<K(!new)>(less: (K, K) -> bool, covers: (K, K) -> bool, ahead: set<K>, key: K, k: K) {
    k in ahead && Matches(covers, key, k) && forall x :: x in ahead && less(x, k) ==> Matches(covers, key, x)
  }

  ghost predicate InRun<K(!new), V>(less: (K, K) -> bool, covers: (K, K) -> bool, m: map<K, V>, key: K, k: K) {
    Reached(less, covers, Ahead(less, covers, m, key), key, k)
  }

  ghost function RunPart<K(!new), V>(less: (K, K) -> bool, covers: (K, K) -> bool, m: map<K, V>, key: K): map<K, V> {
    map k | k in m && InRun(less, covers, m, key, k) :: m[k]
  }

  /** All matching entries. */
  function FilterPart<K, V>(covers: (K, K) -> bool, m: map<K, V>, key: K): map<K, V> {
    map k | k in m && Matches(covers, key, k) :: m[k]
  }

  lemma FromStartIs<K(!new), V>(less: (K, K) -> bool, covers: (K, K) -> bool, xs: seq<(K, V)>, m: map<K, V>, key: K,
                                j: nat)
    requires StrictTotalOrder(less) && SortedListing(less, xs, m) && j < |xs|
    ensures FromStart(less, covers, m, key, xs[j].0) <==> StartOfRun(less, covers, xs, key) <= j
  {
    var lb := LowerBound(less, xs, key);
    FromLowerBound(less, xs, key);
    if j < lb {
      SteppedToIs(less, covers, xs, m, key, j);
    }
  }

  lemma SmallerIsBefore<K(!new), V>(less: (K, K) -> bool, xs: seq<(K, V)>, a: nat, b: nat)
    requires StrictTotalOrder(less) && SortedKeys(less, xs) && a < |xs| && b < |xs|
    ensures less(xs[a].0, xs[b].0) <==> a < b
  {
  }

  lemma SteppedToIs<K(!new), V>(less: (K, K) -> bool, covers: (K, K) -> bool, xs: seq<(K, V)>, m: map<K, V>, key: K,
                                j: nat)
    requires StrictTotalOrder(less) && SortedListing(less, xs, m) && j < LowerBound(less, xs, key)
    ensures SteppedTo(less, covers, m, key, xs[j].0) <==>
            j == LowerBound(less, xs, key) - 1 && j + 1 < |xs| && covers(key, xs[j].0)
  {
    var lb := LowerBound(less, xs, key);
    FromLowerBound(less, xs, key);
    if SteppedTo(less, covers, m, key, xs[j].0) {
      assert j < lb - 1 ==> less(xs[j].0, xs[lb - 1].0);
      var x :| x in m && !less(x, key);
      assert HasKey(xs, x);
    }
    if j == lb - 1 && j + 1 < |xs| && covers(key, xs[j].0) {
      forall x | x in m && less(xs[j].0, x) ensures !less(x, key) {
        assert HasKey(xs, x);
        var y :| 0 <= y < |xs| && xs[y].0 == x;
        SmallerIsBefore(less, xs, j, y);
      }
      assert xs[lb].0 in m && !less(xs[lb].0, key);
    }
  }

  /** The scan of several entries returns just the keys in the run. */
  lemma MatchingRunIs<K(!new), V>(less: (K, K) -> bool, covers: (K, K) -> bool, xs: seq<(K, V)>, m: map<K, V>, key: K)
    requires StrictTotalOrder(less) && SortedListing(less, xs, m)
    ensures SortedListing(less, MatchingRun(less, covers, xs, key), RunPart(less, covers, m, key))
  {
    AheadIsRest(less, covers, xs, m, key);
    ByPosition(less, xs);
    RunIsListed(less, covers, xs, m, key);
  }

  lemma RunIsListed<K(!new), V>(less: (K, K) -> bool, covers: (K, K) -> bool, xs: seq<(K, V)>, m: map<K, V>, key: K)
    requires SortedListing(less, xs, m) && Positioned(less, xs)
    requires IsRest(xs, Ahead(less, covers, m, key), StartOfRun(less, covers, xs, key))
    ensures SortedListing(less, MatchingRun(less, covers, xs, key), RunPart(less, covers, m, key))
  {
    var i := StartOfRun(less, covers, xs, key);
    RunIsSlice(less, covers, xs, m, key, i);
    SliceListsRun(less, xs, m, RunPart(less, covers, m, key), i, i + RunLength(covers, xs, key, i));
  }

  /** The keys of the entries stand in their order. */
  ghost predicate Positioned<K, V>(less: (K, K) -> bool, xs: seq<(K, V)>) {
    forall a, b :: 0 <= a < |xs| && 0 <= b < |xs| ==> (less(xs[a].0, xs[b].0) <==> a < b)
  }

  lemma ByPosition<K(!new), V>(less: (K, K) -> bool, xs: seq<(K, V)>)
    requires StrictTotalOrder(less) && SortedKeys(less, xs)
    ensures Positioned(less, xs)
  {
    forall a, b | 0 <= a < |xs| && 0 <= b < |xs| ensures less(xs[a].0, xs[b].0) <==> a < b {
      SmallerIsBefore(less, xs, a, b);
    }
  }

  /** `ahead` are the keys from position `i` on. */
  ghost predicate IsRest<K, V>(xs: seq<(K, V)>, ahead: set<K>, i: nat) {
    && (forall j :: 0 <= j < |xs| ==> (xs[j].0 in ahead <==> i <= j))
    && (forall x :: x in ahead ==> HasKey(xs, x))
  }

  lemma AheadIsRest<K(!new), V>(less: (K, K) -> bool, covers: (K, K) -> bool, xs: seq<(K, V)>, m: map<K, V>, key: K)
    requires StrictTotalOrder(less) && SortedListing(less, xs, m)
    ensures IsRest(xs, Ahead(less, covers, m, key), StartOfRun(less, covers, xs, key))
  {
    forall j: nat | j < |xs|
      ensures xs[j].0 in Ahead(less, covers, m, key) <==> StartOfRun(less, covers, xs, key) <= j
    {
      FromStartIs(less, covers, xs, m, key, j);
    }
  }

  /** The positions from `a` to `b` hold the keys of `part`. */
  ghost predicate IsSlice<K, V>(xs: seq<(K, V)>, part: map<K, V>, a: nat, b: nat) {
    a <= b <= |xs| && forall j :: 0 <= j < |xs| ==> (a <= j < b <==> xs[j].0 in part)
  }

  lemma RunIsSlice<K(!new), V>(less: (K, K) -> bool, covers: (K, K) -> bool, xs: seq<(K, V)>, m: map<K, V>, key: K,
                               i: nat)
    requires Listing(xs, m) && Positioned(less, xs) && i <= |xs|
    requires IsRest(xs, Ahead(less, covers, m, key), i)
    ensures IsSlice(xs, RunPart(less, covers, m, key), i, i + RunLength(covers, xs, key, i))
  {
    var b := i + RunLength(covers, xs, key, i);
    forall j: nat | j < |xs| ensures i <= j < b <==> xs[j].0 in RunPart(less, covers, m, key) {
      ReachedIs(less, covers, xs, Ahead(less, covers, m, key), key, i, j);
      assert xs[j].0 in m;
    }
  }

  lemma SliceListsRun<K(!new), V>(less: (K, K) -> bool, xs: seq<(K, V)>, m: map<K, V>, part: map<K, V>, a: nat, b: nat)
    requires SortedListing(less, xs, m) && IsSlice(xs, part, a, b)
    requires forall k :: k in part ==> k in m && part[k] == m[k]
    ensures SortedListing(less, xs[a..b], part)
  {
    ListedMap(xs, m);
    SliceListing(xs, a, b, part);
    SliceSorted(less, xs, a, b);
  }

  lemma ReachedIs<K(!new), V>(less: (K, K) -> bool, covers: (K, K) -> bool, xs: seq<(K, V)>, ahead: set<K>, key: K,
                              i: nat, j: nat)
    requires Positioned(less, xs) && IsRest(xs, ahead, i) && i <= |xs| && j < |xs|
    ensures Reached(less, covers, ahead, key, xs[j].0) <==> i <= j < i + RunLength(covers, xs, key, i)
  {
    var b := i + RunLength(covers, xs, key, i);
    if i <= j < b {
      forall x | x in ahead && less(x, xs[j].0) ensures Matches(covers, key, x) {
        var y :| 0 <= y < |xs| && xs[y].0 == x;
        assert y < j;
      }
    }
    if b <= j {
      assert xs[b].0 in ahead && !Matches(covers, key, xs[b].0);
      assert b < j ==> less(xs[b].0, xs[j].0);
    }
  }

  /** When the run of several entries misses no match: the scan steps back to every match below the wanted key, so that
      there is at most one, the key's predecessor, and the matches from the wanted key on have no gap. */
  ghost predicate RunComplete<K(!new), V>(less: (K, K) -> bool, covers: (K, K) -> bool, m: map<K, V>, key: K) {
    && (forall k :: k in m && less(k, key) && Matches(covers, key, k) ==> SteppedTo(less, covers, m, key, k))
    && (forall x, k :: x in m && k in m && !less(x, key) && less(x, k) && Matches(covers, key, k) ==>
          Matches(covers, key, x))
  }

  lemma RunIsFilterIff<K(!new), V>(less: (K, K) -> bool, covers: (K, K) -> bool, m: map<K, V>, key: K)
    requires StrictTotalOrder(less)
    ensures (forall k :: k in m ==> (InRun(less, covers, m, key, k) <==> Matches(covers, key, k)))
            <==> RunComplete(less, covers, m, key)
  {
    if RunComplete(less, covers, m, key) {
      forall k | k in m && Matches(covers, key, k) ensures InRun(less, covers, m, key, k) {
      }
    }
    if forall k :: k in m ==> (InRun(less, covers, m, key, k) <==> Matches(covers, key, k)) {
      forall k | k in m && less(k, key) && Matches(covers, key, k) ensures SteppedTo(less, covers, m, key, k) {
        assert InRun(less, covers, m, key, k);
      }
      forall x, k | x in m && k in m && !less(x, key) && less(x, k) && Matches(covers, key, k)
        ensures Matches(covers, key, x)
      {
        assert InRun(less, covers, m, key, k);
        assert FromStart(less, covers, m, key, x);
      }
    }
  }

  /** The scan of several entries returns all the matching ones exactly when its run misses none. */
  lemma MatchingRunIsFilterIff<K(!new), V>(less: (K, K) -> bool, covers: (K, K) -> bool, xs: seq<(K, V)>, m: map<K, V>,
                                           key: K)
    requires StrictTotalOrder(less) && SortedListing(less, xs, m)
    ensures SortedListing(less, MatchingRun(less, covers, xs, key), FilterPart(covers, m, key))
            <==> RunComplete(less, covers, m, key)
  {
    MatchingRunIs(less, covers, xs, m, key);
    RunIsFilterIff(less, covers, m, key);
    var run := MatchingRun(less, covers, xs, key);
    ListedMap(run, RunPart(less, covers, m, key));
    if Listing(run, FilterPart(covers, m, key)) {
      ListedMap(run, FilterPart(covers, m, key));
      forall k | k in m ensures InRun(less, covers, m, key, k) <==> Matches(covers, key, k) {
        assert k in RunPart(less, covers, m, key) <==> k in FilterPart(covers, m, key);
      }
    }
    if RunComplete(less, covers, m, key) {
      assert RunPart(less, covers, m, key) == FilterPart(covers, m, key);
    }
  }

  /** The same for the scan as the code does it, with its shortcut for a single entry. */
  ghost predicate ScanComplete<K(!new), V>(less: (K, K) -> bool, covers: (K, K) -> bool, m: map<K, V>, key: K) {
    if |m| == 1 then forall k :: k in m ==> Matches(covers, key, k) else RunComplete(less, covers, m, key)
  }

  /** What the scan returns of a shard with these contents. */
  ghost function ScanPart<K(!new), V>(less: (K, K) -> bool, covers: (K, K) -> bool, m: map<K, V>, key: K): map<K, V> {
    if |m| == 1 then m else RunPart(less, covers, m, key)
  }

  lemma MultiScanIs<K(!new), V(!new)>(less: (K, K) -> bool, covers: (K, K) -> bool, xs: seq<(K, V)>, m: map<K, V>,
                                      key: K)
    requires StrictTotalOrder(less) && SortedListing(less, xs, m)
    ensures SortedListing(less, MultiScan(less, covers, xs, key), ScanPart(less, covers, m, key))
  {
    ListedMap(xs, m);
    SizeOfMap(xs);
    MatchingRunIs(less, covers, xs, m, key);
  }

  lemma ScanIsFilterIff<K(!new), V>(less: (K, K) -> bool, covers: (K, K) -> bool, m: map<K, V>, key: K)
    requires StrictTotalOrder(less)
    ensures (forall k :: k in m ==> (k in ScanPart(less, covers, m, key) <==> Matches(covers, key, k)))
            <==> ScanComplete(less, covers, m, key)
  {
    if |m| != 1 {
      RunIsFilterIff(less, covers, m, key);
      forall k | k in m ensures k in ScanPart(less, covers, m, key) <==> InRun(less, covers, m, key, k) {
      }
    }
  }

  // ---------- an example: intervals ----------

  type Interval = (int, int)

  /** Ordered by their beginnings, then by their ends. */
  function Earlier(): (Interval, Interval) -> bool {
    (a: Interval, b: Interval) => a.0 < b.0 || (a.0 == b.0 && a.1 < b.1)
  }

  function Encloses(): (Interval, Interval) -> bool {
    (a: Interval, b: Interval) => a.0 <= b.0 && b.1 <= a.1
  }

  /** Of three intervals the second one contains the wanted one, but it begins before it, and the scan does not
      step back to it. */
  lemma EnclosingIntervalMissed<V(!new)>(v: V)
    ensures StrictTotalOrder(Earlier())
    ensures var xs := [((0, 10), v), ((20, 30), v), ((40, 50), v)];
            && SortedKeys(Earlier(), xs) && DistinctKeys(xs)
            && Matches(Encloses(), (25, 26), xs[1].0) && MatchingRun(Earlier(), Encloses(), xs, (25, 26)) == []
  {
    var xs: seq<(Interval, V)> := [((0, 10), v), ((20, 30), v), ((40, 50), v)];
    LowerBoundIs(Earlier(), xs, (25, 26), 2);
    assert !Matches(Encloses(), (25, 26), xs[2].0);
  }

  // ---------- keys with equality for Contains ----------

  ghost predicate IsEquality<K(!new)>(covers: (K, K) -> bool) {
    forall a, b :: covers(a, b) <==> a == b
  }

  /** What LocalGet finds, as a list. */
  function Lookup<K, V>(m: map<K, V>, key: K): seq<(K, V)> {
    if key in m then [(key, m[key])] else []
  }

  /** When the keys' Contains is equality, the scan answers what LocalGet does, apart from the single-entry
      shortcut: there it does exactly when that entry is the wanted one. */
  lemma EqualityScanIsGet<K(!new), V>(less: (K, K) -> bool, covers: (K, K) -> bool, xs: seq<(K, V)>, m: map<K, V>,
                                      key: K)
    requires StrictTotalOrder(less) && SortedListing(less, xs, m) && IsEquality(covers)
    ensures MultiScan(less, covers, xs, key) == Lookup(m, key) <==> |xs| != 1 || xs[0].0 == key
  {
    ListedMap(xs, m);
    KeyAtLowerBound(less, xs, key);
    if |xs| == 1 {
      assert xs[0].0 in m;
      assert xs[0].0 == key ==> xs == Lookup(m, key);
    } else {
      EqualityRun(less, covers, xs, key);
    }
  }

  /** With equality for Contains, the run is the entry at the lower bound, if that has the key. */
  lemma EqualityRun<K(!new), V>(less: (K, K) -> bool, covers: (K, K) -> bool, xs: seq<(K, V)>, key: K)
    requires DistinctKeys(xs) && IsEquality(covers) && !less(key, key)
    ensures var lb := LowerBound(less, xs, key);
            MatchingRun(less, covers, xs, key) == if lb < |xs| && xs[lb].0 == key then [xs[lb]] else []
  {
    var lb := LowerBound(less, xs, key);
    EqualityStart(less, covers, xs, key);
    EqualityLength(covers, xs, key, lb);
  }

  lemma EqualityStart<K(!new), V>(less: (K, K) -> bool, covers: (K, K) -> bool, xs: seq<(K, V)>, key: K)
    requires IsEquality(covers) && !less(key, key)
    ensures StartOfRun(less, covers, xs, key) == LowerBound(less, xs, key)
  {
    var lb := LowerBound(less, xs, key);
    if lb > 0 {
      assert less(xs[lb - 1].0, key);
      assert covers(key, xs[lb - 1].0) <==> key == xs[lb - 1].0;
    }
  }

  lemma EqualityLength<K(!new), V>(covers: (K, K) -> bool, xs: seq<(K, V)>, key: K, i: nat)
    requires DistinctKeys(xs) && IsEquality(covers) && i <= |xs|
    ensures RunLength(covers, xs, key, i) == if i < |xs| && xs[i].0 == key then 1 else 0
  {
    var n := if i < |xs| && xs[i].0 == key then 1 else 0;
    if i + n < |xs| {
      assert n == 1 ==> xs[i].0 != xs[i + 1].0;
      assert !Matches(covers, key, xs[i + n].0);
    }
    RunLengthIs(covers, xs, key, i, i + n);
  }

  lemma EqualityInRun<K(!new), V>(less: (K, K) -> bool, covers: (K, K) -> bool, m: map<K, V>, key: K, k: K)
    requires StrictTotalOrder(less) && IsEquality(covers) && k in m
    ensures InRun(less, covers, m, key, k) <==> k == key
  {
    assert Matches(covers, key, k) <==> k == key;
    forall x | x in m && FromStart(less, covers, m, key, x) && less(x, key) ensures Matches(covers, key, x) {
      assert covers(key, x);
    }
  }

  /** Where the entries with this key end that begin at its lower bound `i`. */
  method EndOfEqual<K(==), V>(xs: seq<(K, V)>, key: K, i: nat) returns (end: nat)
    requires DistinctKeys(xs) && i <= |xs|
    ensures end == if i < |xs| && xs[i].0 == key then i + 1 else i
  {
    end := i;
    while end < |xs| && xs[end].0 == key
      invariant i <= end <= |xs| && end <= i + 1
      invariant end == i + 1 ==> xs[i].0 == key
      decreases |xs| - end
    {
      end := end + 1;
    }
  }

  /** `upper_bound(key)` */
  method FindUpperBound<K(!new), V>(less: (K, K) -> bool, xs: seq<(K, V)>, key: K) returns (i: nat)
    requires StrictTotalOrder(less) && SortedKeys(less, xs)
    ensures i <= |xs|
    ensures forall j :: 0 <= j < i ==> !less(key, xs[j].0)
    ensures forall j :: i <= j < |xs| ==> less(key, xs[j].0)
  {
    i := |xs|;
    while i > 0 && less(key, xs[i - 1].0)
      invariant i <= |xs|
      invariant forall j :: i <= j < |xs| ==> less(key, xs[j].0)
    {
      i := i - 1;
    }
    if i > 0 {
      forall j | 0 <= j < i ensures !less(key, xs[j].0) {
        if j < i - 1 { assert less(xs[j].0, xs[i - 1].0); }
      }
    }
  }

  /** The loop of the scan. */
  method CollectRun<K, V>(covers: (K, K) -> bool, xs: seq<(K, V)>, key: K, start: nat)
    returns (finalValues: seq<(K, V)>)
    requires start <= |xs|
    ensures finalValues == xs[start..start + RunLength(covers, xs, key, start)]
  {
    finalValues := [];
    var it := start;
    while it != |xs|
      invariant start <= it <= |xs| && finalValues == xs[start..it]
      invariant forall j :: start <= j < it ==> Matches(covers, key, xs[j].0)
      decreases |xs| - it
    {
      if !(covers(key, xs[it].0) || covers(xs[it].0, key)) { break; }
      finalValues := finalValues + [xs[it]];
      it := it + 1;
    }
    RunLengthIs(covers, xs, key, start, it);
  }

  /** `find(key)`, and `erase` of what it found. */
  method WithoutFound<K(==, !new), V(!new)>(less: (K, K) -> bool, xs: seq<(K, V)>, key: K) returns (ys: seq<(K, V)>)
    requires StrictTotalOrder(less) && SortedKeys(less, xs) && DistinctKeys(xs)
    ensures SortedKeys(less, ys) && DistinctKeys(ys) && ToMap(ys) == ToMap(xs) - {key}
  {
    var i := FindLowerBound(less, xs, key);
    KeyAtLowerBound(less, xs, key);
    ys := xs;
    if i < |xs| && xs[i].0 == key {
      RemovedEntry(less, xs, i);
      ys := xs[..i] + xs[i + 1..];
    }
  }

  /** `insert(pair)`: at the upper bound of the key. */
  method Inserted<K(!new), V>(less: (K, K) -> bool, xs: seq<(K, V)>, key: K, data: V) returns (ys: seq<(K, V)>)
    requires StrictTotalOrder(less) && SortedKeys(less, xs) && DistinctKeys(xs) && key !in ToMap(xs)
    ensures SortedKeys(less, ys) && DistinctKeys(ys) && ToMap(ys) == ToMap(xs)[key := data]
  {
    var i := FindUpperBound(less, xs, key);
    forall j | 0 <= j < i ensures less(xs[j].0, key) {
      assert xs[j].0 in ToMap(xs);
    }
    LowerBoundIs(less, xs, key, i);
    InsertedMap(less, xs, key, data);
    ys := xs[..i] + [(key, data)] + xs[i..];
  }

  lemma PutAgain<K, V>(m: map<K, V>, key: K, data: V)
    ensures (m - {key})[key := data] == m[key := data]
  {
  }

  class Shard<K(==, !new), V(!new)> {
    const less: (K, K) -> bool
    const covers: (K, K) -> bool     // key.Contains(other)
    const noKey: K
    const noValue: V
    var mymap: seq<(K, V)>

    /** Sorted, with at most one entry per key. */
    ghost predicate Valid()
      reads this
    {
      StrictTotalOrder(less) && SortedKeys(less, mymap) && DistinctKeys(mymap)
    }

    ghost function Contents(): map<K, V>
      requires Valid()
      reads this
    {
      ToMap(mymap)
    }

    ghost predicate Step(o: Op<K, V>, pre: map<K, V>, post: map<K, V>, r: Reply<K, V>) {
      Body(Multi(less, covers), noKey, noValue, o, pre, post, r)
    }

    constructor (less: (K, K) -> bool, covers: (K, K) -> bool, noKey: K, noValue: V)
      requires StrictTotalOrder(less)
      ensures Valid() && Contents() == map[]
      ensures this.less == less && this.covers == covers && this.noKey == noKey && this.noValue == noValue
    {
      this.less, this.covers, this.noKey, this.noValue := less, covers, noKey, noValue;
      mymap := [];
    }

    /** Find, erase what was found, insert behind the entries with the same key. */
    method LocalPut(key: K, data: V) returns (ok: bool)
      requires Valid()
      modifies this
      ensures Valid() && Step(Put(key, data), old(Contents()), Contents(), Flag(ok))
    {
      mymap := WithoutFound(less, mymap, key);
      mymap := Inserted(less, mymap, key, data);
      PutAgain(old(ToMap(mymap)), key, data);
      ok := true;
    }

    method LocalGet(key: K) returns (found: bool, value: V)
      requires Valid()
      ensures Step(Get(key), Contents(), Contents(), Pair(found, value))
    {
      var i := FindLowerBound(less, mymap, key);
      KeyAtLowerBound(less, mymap, key);
      if i < |mymap| && mymap[i].0 == key {
        assert mymap[i].0 in ToMap(mymap);
        found, value := true, mymap[i].1;
      } else {
        found, value := false, noValue;
      }
    }

    /** `erase(key)` removes all entries with the key; there is never more than one. */
    method LocalErase(key: K) returns (found: bool, value: V)
      requires Valid()
      modifies this
      ensures Valid() && Step(Erase(key), old(Contents()), Contents(), Pair(found, value))
      ensures |old(mymap)| - |mymap| == if found then 1 else 0
    {
      var i := FindLowerBound(less, mymap, key);
      KeyAtLowerBound(less, mymap, key);
      var end := EndOfEqual(mymap, key, i);
      var removed := end - i;
      found := removed > 0;
      if found {
        RemovedEntry(less, mymap, i);
        mymap := mymap[..i] + mymap[end..];
      }
      value := noValue;
    }

    method LocalGetAllDataInServer() returns (finalValues: seq<(K, V)>)
      requires Valid()
      ensures Step(GetAllData, Contents(), Contents(), Listed(finalValues))
    {
      finalValues := [];
      var it := 0;
      while it != |mymap|
        invariant 0 <= it <= |mymap| && finalValues == mymap[..it]
        decreases |mymap| - it
      {
        finalValues := finalValues + [mymap[it]];
        it := it + 1;
      }
      assert finalValues == mymap;
    }

    method LocalContainsInServer(key: K) returns (finalValues: seq<(K, V)>)
      requires Valid()
      ensures finalValues == MultiScan(less, covers, mymap, key)
      ensures Step(Matching(key), Contents(), Contents(), Listed(finalValues))
    {
      assert SortedListing(less, mymap, Contents());
      finalValues := [];
      var size := |mymap|;
      if size == 0 {
        assert MatchingRun(less, covers, mymap, key) == [];
      } else if size == 1 {
        finalValues := finalValues + [mymap[0]];
      } else {
        finalValues := ScanRun(key);
      }
    }

    /** Several entries: from the lower bound, or one before it if the key contains that one, on while the entries
        match. */
    method ScanRun(key: K) returns (finalValues: seq<(K, V)>)
      requires Valid()
      ensures finalValues == MatchingRun(less, covers, mymap, key)
    {
      finalValues := [];
      var it := FindLowerBound(less, mymap, key);
      if it == |mymap| {
        assert StartOfRun(less, covers, mymap, key) == it && RunLength(covers, mymap, key, it) == 0;
        return;
      }
      if it != 0 {
        it := it - 1;
        if !covers(key, mymap[it].0) { it := it + 1; }
      }
      assert it == StartOfRun(less, covers, mymap, key);
      finalValues := CollectRun(covers, mymap, key, it);
    }
  }
}
