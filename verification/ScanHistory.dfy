/**
 Scatter-gather calls (GetAllData, Contains) next to other clients' writes.  They read the servers one after the
 other, so they see no single state; this module says what they do see, and what they return when nobody writes
 meanwhile.
 */
module ScanHistory {
  import opened RpcMachine
  import opened RpcHistory
  import opened RpcCalls
  import opened Ordering
  import opened MapService
  import opened MapHistory
  import opened Routing
  import opened OrderedShard
  import opened MultimapShard

  predicate IsScan<K, V>(o: Op<K, V>) {
    o.GetAllData? || o.Contains? || o.Matching?
  }

  /** `final_values`: the answers of the servers, appended in the order of the visits. */
  function Collected<K, V>(rs: seq<Reply<K, V>>): seq<(K, V)> {
    if rs == [] then []
    else
      var r := rs[|rs| - 1];
      Collected(rs[..|rs| - 1]) + if r.Listed? then r.xs else []
  }

  /** The loop of GetAllData and of Contains, given the answers of its visits: it makes the visits of the machine's
      plan, and its result is their collected answers. */
  method GatherFromServers<K, V>(home: ServerIndex, n: nat, rs: seq<Reply<K, V>>)
    returns (called: seq<nat>, finalValues: seq<(K, V)>)
    requires home < n == |rs| && forall i :: 0 <= i < |rs| ==> rs[i].Listed?
    ensures called == VisitOrder(home, n) && finalValues == Collected(rs)
  {
    called, finalValues := [home], rs[0].xs;
    assert rs[..1][..0] == [] && Collected(rs[..1]) == rs[0].xs;
    var i := 0;
    while i < n
      invariant i <= n && called == VisitOrder(home, i)
      invariant |called| == if home < i then i else i + 1
      invariant finalValues == Collected(rs[..|called|])
    {
      if i != home {
        ghost var v := |called|;
        assert rs[..v + 1][..v] == rs[..v];
        finalValues := finalValues + rs[|called|].xs;
        called := called + [i % TWO16];
        assert VisitOrder(home, i + 1) == VisitOrder(home, i) + [Narrow(i)];
      }
      i := i + 1;
    }
    assert rs[..n] == rs;
  }

  /** The keys of server `home` come first, then the others by ascending server. */
  ghost predicate ByServer<K, V>(home: nat, route: K -> ServerIndex, xs: seq<(K, V)>) {
    forall a, b :: 0 <= a < b < |xs| ==>
      route(xs[a].0) == home || (route(xs[b].0) != home && route(xs[a].0) <= route(xs[b].0))
  }

  /** The key `k` is listed twice. */
  ghost predicate Twice<K, V>(xs: seq<(K, V)>, k: K) {
    exists a, b :: 0 <= a < b < |xs| && xs[a].0 == k && xs[b].0 == k
  }

  lemma DistinctIffNoneTwice<K(!new), V>(xs: seq<(K, V)>)
    ensures DistinctKeys(xs) <==> forall k :: !Twice(xs, k)
  {
    if forall k :: !Twice(xs, k) {
      forall a, b | 0 <= a < b < |xs| ensures xs[a].0 != xs[b].0 {
        assert !Twice(xs, xs[a].0);
      }
    }
  }

  /** The answer `r` lists keys of this server, without repetition. */
  ghost predicate Piece<K, V>(route: K -> ServerIndex, server: nat, r: Reply<K, V>) {
    r.Listed? && DistinctKeys(r.xs) && forall a :: 0 <= a < |r.xs| ==> route(r.xs[a].0) == server
  }

  /** The answers `rs` come from the servers `order`. */
  ghost predicate Pieces<K, V>(order: seq<nat>, route: K -> ServerIndex, rs: seq<Reply<K, V>>) {
    |rs| <= |order| && forall i :: 0 <= i < |rs| ==> Piece(route, order[i], rs[i])
  }

  /** Every collected entry is in some server's answer. */
  lemma {:induction false} CollectedFrom<K, V>(order: seq<nat>, route: K -> ServerIndex, rs: seq<Reply<K, V>>, a: nat)
    returns (i: nat)
    requires Pieces(order, route, rs) && a < |Collected(rs)|
    ensures i < |rs| && Collected(rs)[a] in rs[i].xs && route(Collected(rs)[a].0) == order[i]
    decreases |rs|
  {
    var n := |rs| - 1;
    if a < |Collected(rs[..n])| {
      i := CollectedFrom(order, route, rs[..n], a);
    } else {
      i := n;
    }
  }

  lemma {:induction false} CollectedPrefix<K, V>(rs: seq<Reply<K, V>>, i: nat, j: nat)
    requires i <= j <= |rs|
    ensures Collected(rs[..i]) <= Collected(rs[..j])
    decreases j
  {
    if i < j {
      CollectedPrefix(rs, i, j - 1);
      assert rs[..j][..j - 1] == rs[..j - 1];
    }
  }

  /** Where an entry of a server's answer is collected: behind all those of earlier visits. */
  lemma CollectedAt<K, V>(rs: seq<Reply<K, V>>, i: nat, x: (K, V)) returns (a: nat)
    requires i < |rs| && rs[i].Listed? && x in rs[i].xs
    ensures |Collected(rs[..i])| <= a < |Collected(rs[..i + 1])| <= |Collected(rs)| && Collected(rs)[a] == x
  {
    var b :| 0 <= b < |rs[i].xs| && rs[i].xs[b] == x;
    a := |Collected(rs[..i])| + b;
    var front := rs[..i + 1];
    assert front[..i] == rs[..i];
    assert Collected(front) == Collected(rs[..i]) + rs[i].xs;
    CollectedPrefix(rs, i + 1, |rs|);
    assert rs[..|rs|] == rs;
  }

  /** The answers that two collected entries come from; if it is the same, their keys differ. */
  lemma {:induction false} CollectedPair<K, V>(order: seq<nat>, route: K -> ServerIndex, rs: seq<Reply<K, V>>, a: nat,
                                               b: nat)
    returns (i: nat, j: nat)
    requires Pieces(order, route, rs) && a < b < |Collected(rs)|
    ensures i <= j < |rs| && (i == j ==> Collected(rs)[a].0 != Collected(rs)[b].0)
    ensures route(Collected(rs)[a].0) == order[i] && route(Collected(rs)[b].0) == order[j]
    decreases |rs|
  {
    var n := |rs| - 1;
    var front := Collected(rs[..n]);
    if b < |front| {
      i, j := CollectedPair(order, route, rs[..n], a, b);
    } else if a < |front| {
      i := CollectedFrom(order, route, rs[..n], a);
      j := n;
      assert Collected(rs)[b] == rs[n].xs[b - |front|];
    } else {
      i, j := n, n;
      assert Collected(rs)[a] == rs[n].xs[a - |front|] && Collected(rs)[b] == rs[n].xs[b - |front|];
    }
  }

  /** A key is collected exactly when a visit of its server lists it. */
  lemma CollectedKeyIff<K, V>(order: seq<nat>, route: K -> ServerIndex, rs: seq<Reply<K, V>>, k: K)
    requires Pieces(order, route, rs)
    ensures HasKey(Collected(rs), k) <==> exists i :: 0 <= i < |rs| && order[i] == route(k) && HasKey(rs[i].xs, k)
  {
    if HasKey(Collected(rs), k) {
      var a :| 0 <= a < |Collected(rs)| && Collected(rs)[a].0 == k;
      var i := CollectedFrom(order, route, rs, a);
      assert HasKey(rs[i].xs, k);
    }
    if i :| 0 <= i < |rs| && order[i] == route(k) && HasKey(rs[i].xs, k) {
      var b :| 0 <= b < |rs[i].xs| && rs[i].xs[b].0 == k;
      var a := CollectedAt(rs, i, rs[i].xs[b]);
    }
  }

  /** A key is collected twice only if two visits come to its server. */
  lemma TwiceIsRepeated<K, V>(order: seq<nat>, route: K -> ServerIndex, rs: seq<Reply<K, V>>, k: K)
    returns (i: nat, j: nat)
    requires Pieces(order, route, rs) && Twice(Collected(rs), k)
    ensures Repeated(order, i, j) && order[i] == route(k)
  {
    var a, b :| 0 <= a < b < |Collected(rs)| && Collected(rs)[a].0 == k && Collected(rs)[b].0 == k;
    i, j := CollectedPair(order, route, rs, a, b);
  }

  lemma RepeatedIsTwice<K, V>(rs: seq<Reply<K, V>>, i: nat, j: nat, k: K)
    requires i < j < |rs| && (forall v :: 0 <= v < |rs| ==> rs[v].Listed?) && HasKey(rs[i].xs, k) && HasKey(rs[j].xs, k)
    ensures Twice(Collected(rs), k)
  {
    var x :| 0 <= x < |rs[i].xs| && rs[i].xs[x].0 == k;
    var y :| 0 <= y < |rs[j].xs| && rs[j].xs[y].0 == k;
    var a := CollectedAt(rs, i, rs[i].xs[x]);
    var b := CollectedAt(rs, j, rs[j].xs[y]);
    CollectedPrefix(rs, i + 1, j);
  }

  /** When no server is visited twice and the visits ascend, the answers repeat no key and come server by server. */
  lemma CollectedFacts<K(!new), V>(home: nat, order: seq<nat>, route: K -> ServerIndex, rs: seq<Reply<K, V>>)
    requires Pieces(order, route, rs)
    requires forall i, j :: 0 <= i < j < |order| ==> Rank(home, order[i]) < Rank(home, order[j])
    ensures DistinctKeys(Collected(rs)) && ByServer(home, route, Collected(rs))
  {
    forall a, b | 0 <= a < b < |Collected(rs)|
      ensures Collected(rs)[a].0 != Collected(rs)[b].0
      ensures Rank(home, route(Collected(rs)[a].0)) <= Rank(home, route(Collected(rs)[b].0))
    {
      var i, j := CollectedPair(order, route, rs, a, b);
    }
  }

  // ---------- one visit of a scan ----------

  /** Scans whose answer the contents of a shard determine (with a strict order of the keys, for a multimap). */
  ghost predicate Determined<K(!new), V>(kind: Kind<K>, o: Op<K, V>) {
    match o
    case GetAllData => true
    case Contains(_, _) => !kind.Hashed?
    case Matching(_) => kind.Multi? && StrictTotalOrder(kind.less)
    case _ => false
  }

  /** What such a scan answers for a shard with contents `m`. */
  ghost function Answer<K(!new), V>(kind: Kind<K>, o: Op<K, V>, m: map<K, V>): map<K, V>
    requires Determined(kind, o)
  {
    match o
    case GetAllData => m
    case Contains(lo, hi) => RangeAnswer(kind, m, lo, hi)
    case Matching(key) => ScanPart(kind.less, kind.covers, m, key)
  }

  function KeyPart<K, V>(m: map<K, V>, key: K): map<K, V> {
    map k | k in m && k == key :: m[k]
  }

  /** What the scan of a multimap shard answers, whatever sorted list shows its contents. */
  ghost predicate Scanned<K(!new), V(!new)>(kind: Kind<K>, m: map<K, V>, key: K, ys: seq<(K, V)>)
    requires kind.Multi?
  {
    forall xs :: SortedListing(kind.less, xs, m) ==> ys == MultiScan(kind.less, kind.covers, xs, key)
  }

  /** What the visit of a scan that took effect at `p` shows. */
  ghost predicate ShowsPart<K(!new), V(!new)>(d: Deployment<K, V>, log: Log<K, V>, p: nat, server: nat, o: Op<K, V>,
                                              r: Reply<K, V>)
    requires p <= |log|
  {
    var m := MapAfter(d, log[..p]);
    && r.Listed? && Lists(r.xs, m)
    && (forall a :: 0 <= a < |r.xs| ==> d.putRoute(r.xs[a].0) == server)
    && (Determined(d.kind, o) ==> Listing(r.xs, Answer(d.kind, o, Part(d, m, server))))
    && (!d.kind.Hashed? ==> SortedKeys(d.kind.less, r.xs))
    && (o.Matching? && Determined(d.kind, o) ==> Scanned(d.kind, Part(d, m, server), o.key, r.xs))
  }

  /** Every entry of `ys` is one of `m`, without repetition. */
  ghost predicate Lists<K, V>(ys: seq<(K, V)>, m: map<K, V>) {
    DistinctKeys(ys) && Holds(ys, m)
  }

  lemma SliceLists<K(!new), V>(xs: seq<(K, V)>, a: nat, b: nat, m: map<K, V>)
    requires Lists(xs, m) && a <= b <= |xs|
    ensures Lists(xs[a..b], m)
  {
    var ys := xs[a..b];
    assert forall i :: 0 <= i < |ys| ==> ys[i] == xs[a + i];
  }

  lemma MultiScanLists<K(!new), V>(less: (K, K) -> bool, covers: (K, K) -> bool, xs: seq<(K, V)>, key: K, m: map<K, V>)
    requires Lists(xs, m)
    ensures Lists(MultiScan(less, covers, xs, key), m)
  {
    if |xs| != 1 {
      var i := StartOfRun(less, covers, xs, key);
      var b := i + RunLength(covers, xs, key, i);
      assert MultiScan(less, covers, xs, key) == xs[i..b];
      SliceLists(xs, i, b, m);
    }
  }

  lemma MultiScanSorted<K(!new), V>(less: (K, K) -> bool, covers: (K, K) -> bool, xs: seq<(K, V)>, key: K)
    requires SortedKeys(less, xs)
    ensures SortedKeys(less, MultiScan(less, covers, xs, key))
  {
    if |xs| != 1 {
      var i := StartOfRun(less, covers, xs, key);
      SliceSorted(less, xs, i, i + RunLength(covers, xs, key, i));
    }
  }

  lemma VisitShowsPart<K(!new), V(!new)>(d: Deployment<K, V>, log: Log<K, V>, p: nat)
    requires WellFormed(Service(d), log) && p < |log| && log[p].Run? && IsScan(log[p].o)
    ensures ShowsPart(d, log, p, log[p].at, log[p].o, log[p].r)
  {
    PrefixWellFormed(Service(d), log, p);
    AlwaysSharded(d, log[..p]);
    RunsOnPlan(Service(d), log, p);
    var m := Part(d, MapAfter(d, log[..p]), log[p].at);
    assert Body(d.kind, d.noKey, d.noValue, log[p].o, m, m, log[p].r);
    BodyShows(d.kind, d.noKey, d.noValue, log[p].o, m, log[p].r);
  }

  lemma BodyShows<K(!new), V(!new)>(kind: Kind<K>, noKey: K, noValue: V, o: Op<K, V>, m: map<K, V>, r: Reply<K, V>)
    requires IsScan(o) && Body(kind, noKey, noValue, o, m, m, r)
    ensures r.Listed? && Lists(r.xs, m)
    ensures Determined(kind, o) ==> Listing(r.xs, Answer(kind, o, m))
    ensures o.Matching? && Determined(kind, o) ==> Scanned(kind, m, o.key, r.xs)
    ensures !kind.Hashed? ==> SortedKeys(kind.less, r.xs)
  {
    if o.Matching? {
      var xs :| SortedListing(kind.less, xs, m) && r.xs == MultiScan(kind.less, kind.covers, xs, o.key);
      MultiScanLists(kind.less, kind.covers, xs, o.key, m);
      MultiScanSorted(kind.less, kind.covers, xs, o.key);
      if Determined(kind, o) {
        MultiScanIs(kind.less, kind.covers, xs, m, o.key);
        forall ys | SortedListing(kind.less, ys, m) ensures ys == xs {
          SortedListingIsUnique(kind.less, xs, ys, m);
        }
      }
    }
  }

  ghost predicate Scan<K(!new), V(!new)>(d: Deployment<K, V>, log: Log<K, V>, j: nat, h: nat, ps: seq<nat>) {
    && WellFormed(Service(d), log) && CallSpan(Service(d), log, j, h, ps) && IsScan(log[j].o)
    && d.home(log[j].c) < d.servers
  }

  /** The servers a scan visited. */
  ghost function Order<K, V>(d: Deployment<K, V>, log: Log<K, V>, j: nat): seq<nat>
    requires j < |log|
  {
    VisitOrder(d.home(log[j].c), d.servers)
  }

  lemma ScanSizes<K(!new), V(!new)>(d: Deployment<K, V>, log: Log<K, V>, j: nat, h: nat, ps: seq<nat>)
    requires Scan(d, log, j, h, ps)
    ensures |ps| == |log[j].rs| == d.servers == |Order(d, log, j)|
    ensures forall v :: 0 <= v < |ps| ==> h < ps[v] < j
    ensures |ps| > 0
  {
    VisitsAre(d.home(log[j].c), d.servers);
  }

  /** One visit of a completed scan. */
  lemma ScanVisit<K(!new), V(!new)>(d: Deployment<K, V>, log: Log<K, V>, j: nat, h: nat, ps: seq<nat>, v: nat)
    requires Scan(d, log, j, h, ps) && v < |ps| == |log[j].rs| == |Order(d, log, j)| && ps[v] < j
    ensures ShowsPart(d, log, ps[v], Order(d, log, j)[v], log[j].o, log[j].rs[v])
  {
    assert VisitAt(Service(d), log[..j][ps[v]], log[j].c, log[j].o, v, log[j].rs[v]);
    VisitShowsPart(d, log, ps[v]);
  }

  /** All visits of a completed scan. */
  lemma ScanVisits<K(!new), V(!new)>(d: Deployment<K, V>, log: Log<K, V>, j: nat, h: nat, ps: seq<nat>)
    requires Scan(d, log, j, h, ps)
    ensures |ps| == |log[j].rs| == d.servers == |Order(d, log, j)| && |ps| > 0
    ensures forall v :: 0 <= v < |ps| ==> h < ps[v] < j
    ensures Pieces(Order(d, log, j), d.putRoute, log[j].rs)
  {
    ScanSizes(d, log, j, h, ps);
    forall v | 0 <= v < |ps| ensures Piece(d.putRoute, Order(d, log, j)[v], log[j].rs[v]) {
      ScanVisit(d, log, j, h, ps, v);
    }
  }

  /** A key of the container is on a server that the scan visits. */
  lemma ItsServerIsVisited<K(!new), V(!new)>(d: Deployment<K, V>, log: Log<K, V>, j: nat, h: nat, ps: seq<nat>,
                                             p: nat, k: K)
    requires Scan(d, log, j, h, ps) && p <= |log| && k in MapAfter(d, log[..p])
    ensures d.putRoute(k) < d.servers && d.putRoute(k) as nat in Order(d, log, j)
  {
    PrefixWellFormed(Service(d), log, p);
    AlwaysSharded(d, log[..p]);
    VisitedIff(d.home(log[j].c), d.servers, d.putRoute(k));
  }

  // ---------- main results ----------

  /** What a scan that was called at `h` and returned at `j` gives next to writers. */
  ghost predicate WeaklyConsistent<K(!new), V(!new)>(d: Deployment<K, V>, log: Log<K, V>, j: nat, h: nat)
    requires j < |log| && log[j].Return?
  {
    var result := Collected(log[j].rs);
    && (forall k :: Twice(result, k) ==> d.putRoute(k) + TWO16 < d.servers)
    && (d.servers <= TWO16 ==> DistinctKeys(result) && ByServer(d.home(log[j].c), d.putRoute, result))
    && (forall a :: 0 <= a < |result| ==> HeldDuring(d, log, h, j, result[a]))
    && (!d.kind.Hashed? ==>
          forall v :: 0 <= v < |log[j].rs| ==> log[j].rs[v].Listed? && SortedKeys(d.kind.less, log[j].rs[v].xs))
    && (log[j].o.GetAllData? ==> forall k :: PresentThroughout(d, log, h, j, k) ==> HasKey(result, k))
  }

  /** A scan returns only pairs the container held at some moment during the call, and no key twice unless its
      server is visited again, which takes more than 65536 servers; up to there its own server's keys come first
      and the others by ascending server.  GetAllData returns every key that was there throughout the call. */
  lemma ScanIsWeaklyConsistent<K(!new), V(!new)>(d: Deployment<K, V>, log: Log<K, V>, j: nat, h: nat, ps: seq<nat>)
    requires Scan(d, log, j, h, ps)
    ensures WeaklyConsistent(d, log, j, h)
  {
    var order := Order(d, log, j);
    var rs := log[j].rs;
    ScanVisits(d, log, j, h, ps);
    forall k | Twice(Collected(rs), k) ensures d.putRoute(k) + TWO16 < d.servers {
      RepeatedKeyIsFar(d, log, j, h, ps, k);
    }
    if d.servers <= TWO16 {
      EveryServerVisitedOnce(d.home(log[j].c), d.servers);
      CollectedFacts(d.home(log[j].c), order, d.putRoute, rs);
    }
    forall a | 0 <= a < |Collected(rs)| ensures HeldDuring(d, log, h, j, Collected(rs)[a]) {
      var i := CollectedFrom(order, d.putRoute, rs, a);
      ScanVisit(d, log, j, h, ps, i);
      assert HeldAt(d, log, ps[i], Collected(rs)[a]);
    }
    forall v | 0 <= v < |rs| && !d.kind.Hashed? ensures rs[v].Listed? && SortedKeys(d.kind.less, rs[v].xs) {
      ScanVisit(d, log, j, h, ps, v);
    }
    if log[j].o.GetAllData? {
      forall k | PresentThroughout(d, log, h, j, k) ensures HasKey(Collected(rs), k) {
        PresentIsReturned(d, log, j, h, ps, k);
      }
    }
  }

  lemma RepeatedKeyIsFar<K(!new), V(!new)>(d: Deployment<K, V>, log: Log<K, V>, j: nat, h: nat, ps: seq<nat>, k: K)
    requires Scan(d, log, j, h, ps) && Twice(Collected(log[j].rs), k)
    ensures d.putRoute(k) + TWO16 < d.servers
  {
    ScanVisits(d, log, j, h, ps);
    var i, i' := TwiceIsRepeated(Order(d, log, j), d.putRoute, log[j].rs, k);
    assert Order(d, log, j) == VisitOrder(d.home(log[j].c), d.servers);
    RepeatedOnlyFar(d.home(log[j].c), d.servers, i, i');
  }

  /** The container holds the pair `x` when `t` events have happened. */
  ghost predicate HeldAt<K, V>(d: Deployment<K, V>, log: Log<K, V>, t: nat, x: (K, V)) {
    t <= |log| && x.0 in MapAfter(d, log[..t]) && MapAfter(d, log[..t])[x.0] == x.1
  }

  ghost predicate HeldDuring<K, V>(d: Deployment<K, V>, log: Log<K, V>, h: nat, j: nat, x: (K, V)) {
    exists t: nat :: h < t < j && HeldAt(d, log, t, x)
  }

  ghost predicate PresentThroughout<K, V>(d: Deployment<K, V>, log: Log<K, V>, h: nat, j: nat, k: K)
    requires j <= |log|
  {
    forall t: nat :: h < t < j ==> k in MapAfter(d, log[..t])
  }

  lemma PresentIsListed<K(!new), V(!new)>(d: Deployment<K, V>, log: Log<K, V>, j: nat, h: nat, ps: seq<nat>, k: K,
                                          v: nat)
    requires Scan(d, log, j, h, ps) && log[j].o.GetAllData? && PresentThroughout(d, log, h, j, k)
    requires v < |Order(d, log, j)| == |log[j].rs| && Order(d, log, j)[v] == d.putRoute(k)
    ensures log[j].rs[v].Listed? && HasKey(log[j].rs[v].xs, k)
  {
    ScanSizes(d, log, j, h, ps);
    ScanVisit(d, log, j, h, ps, v);
    assert k in MapAfter(d, log[..ps[v]]);
    assert k in Part(d, MapAfter(d, log[..ps[v]]), d.putRoute(k));
  }

  lemma PresentIsFound<K(!new), V(!new)>(d: Deployment<K, V>, log: Log<K, V>, j: nat, h: nat, ps: seq<nat>, k: K)
    requires Scan(d, log, j, h, ps) && log[j].o.GetAllData? && PresentThroughout(d, log, h, j, k)
    ensures HasKey(Collected(log[j].rs), k)
  {
    var order := Order(d, log, j);
    ScanVisits(d, log, j, h, ps);
    assert h < ps[0] < j;
    ItsServerIsVisited(d, log, j, h, ps, ps[0], k);
    var u :| 0 <= u < |order| && order[u] == d.putRoute(k);
    PresentIsListed(d, log, j, h, ps, k, u);
    CollectedKeyIff(order, d.putRoute, log[j].rs, k);
  }

  lemma PresentIsRepeated<K(!new), V(!new)>(d: Deployment<K, V>, log: Log<K, V>, j: nat, h: nat, ps: seq<nat>, k: K)
    requires Scan(d, log, j, h, ps) && log[j].o.GetAllData? && PresentThroughout(d, log, h, j, k)
    requires d.putRoute(k) + TWO16 < d.servers
    ensures Twice(Collected(log[j].rs), k)
  {
    ScanVisits(d, log, j, h, ps);
    var v, v' := FarIsRepeated(d.home(log[j].c), d.servers, d.putRoute(k));
    PresentIsListed(d, log, j, h, ps, k, v);
    PresentIsListed(d, log, j, h, ps, k, v');
    RepeatedIsTwice(log[j].rs, v, v', k);
  }

  /** GetAllData returns a key that is there throughout the call, and returns it twice exactly when its server is
      visited again. */
  lemma PresentIsReturned<K(!new), V(!new)>(d: Deployment<K, V>, log: Log<K, V>, j: nat, h: nat, ps: seq<nat>, k: K)
    requires Scan(d, log, j, h, ps) && log[j].o.GetAllData? && PresentThroughout(d, log, h, j, k)
    ensures HasKey(Collected(log[j].rs), k)
    ensures Twice(Collected(log[j].rs), k) <==> d.putRoute(k) + TWO16 < d.servers
  {
    PresentIsFound(d, log, j, h, ps, k);
    if d.putRoute(k) + TWO16 < d.servers {
      PresentIsRepeated(d, log, j, h, ps, k);
    }
    if Twice(Collected(log[j].rs), k) {
      RepeatedKeyIsFar(d, log, j, h, ps, k);
    }
  }

  /** A key that Get and Erase never find is still listed by every GetAllData that begins after it was put: exactly
      once, or, with more than 65536 servers, more than once exactly when its server is visited again. */
  lemma MisroutedKeyIsListedOnce<K(!new), V(!new)>(d: Deployment<K, V>, log: Log<K, V>, j: nat, h: nat, ps: seq<nat>,
                                                   i: nat, k: K)
    requires Scan(d, log, j, h, ps) && log[j].o.GetAllData?
    requires !d.kind.OrderedSet? && !WellRouted(d, k)
    requires i < h && log[i].Run? && log[i].o.Put? && log[i].o.k == k
    ensures HasKey(Collected(log[j].rs), k)
    ensures Twice(Collected(log[j].rs), k) <==> d.putRoute(k) + TWO16 < d.servers
  {
    forall t: nat | h < t < j ensures k in MapAfter(d, log[..t]) {
      PrefixWellFormed(Service(d), log, t);
      MisroutedKeyStays(d, log[..t], i, k);
    }
    PresentIsReturned(d, log, j, h, ps, k);
  }

  // ---------- scans without concurrent changes ----------

  /** Nobody changes the container during the call. */
  ghost predicate Quiescent<K, V>(d: Deployment<K, V>, log: Log<K, V>, h: nat, j: nat, m: map<K, V>)
    requires j <= |log|
  {
    forall t: nat :: h < t < j ==> MapAfter(d, log[..t]) == m
  }

  /** No key of `m` is on a server that is visited again.  With up to 65536 servers none is. */
  ghost predicate NoRepeats<K(!new), V>(d: Deployment<K, V>, m: map<K, V>) {
    forall k :: k in m ==> d.servers <= d.putRoute(k) + TWO16
  }

  /** The server of key `k` answers it. */
  ghost predicate Answered<K(!new), V>(d: Deployment<K, V>, o: Op<K, V>, m: map<K, V>, k: K)
    requires Determined(d.kind, o)
  {
    k in Answer(d.kind, o, Part(d, m, d.putRoute(k)))
  }

  lemma QuietPair<K(!new), V(!new)>(d: Deployment<K, V>, log: Log<K, V>, h: nat, j: nat, m: map<K, V>, x: (K, V))
    requires j <= |log| && Quiescent(d, log, h, j, m) && HeldDuring(d, log, h, j, x)
    ensures x.0 in m && m[x.0] == x.1
  {
    var t: nat :| h < t < j && HeldAt(d, log, t, x);
    assert MapAfter(d, log[..t]) == m;
  }

  /** Each visit to the server of a key lists it exactly when the server answers it. */
  lemma QuietVisit<K(!new), V(!new)>(d: Deployment<K, V>, log: Log<K, V>, j: nat, h: nat, ps: seq<nat>, m: map<K, V>,
                                     k: K, v: nat)
    requires Scan(d, log, j, h, ps) && Determined(d.kind, log[j].o) && Quiescent(d, log, h, j, m)
    requires v < |Order(d, log, j)| == |log[j].rs| && Order(d, log, j)[v] == d.putRoute(k)
    ensures log[j].rs[v].Listed? && (HasKey(log[j].rs[v].xs, k) <==> Answered(d, log[j].o, m, k))
  {
    ScanVisits(d, log, j, h, ps);
    ScanVisit(d, log, j, h, ps, v);
    assert MapAfter(d, log[..ps[v]]) == m;
  }

  /** A key is returned exactly when its own server answers it. */
  lemma QuietScanKey<K(!new), V(!new)>(d: Deployment<K, V>, log: Log<K, V>, j: nat, h: nat, ps: seq<nat>, m: map<K, V>,
                                       k: K)
    requires Scan(d, log, j, h, ps) && Determined(d.kind, log[j].o) && Quiescent(d, log, h, j, m) && k in m
    ensures HasKey(Collected(log[j].rs), k) <==> Answered(d, log[j].o, m, k)
  {
    var order, rs := Order(d, log, j), log[j].rs;
    ScanVisits(d, log, j, h, ps);
    CollectedKeyIff(order, d.putRoute, rs, k);
    if HasKey(Collected(rs), k) {
      var v :| 0 <= v < |rs| && order[v] == d.putRoute(k) && HasKey(rs[v].xs, k);
      QuietVisit(d, log, j, h, ps, m, k, v);
    }
    assert h < ps[0] < j;
    ItsServerIsVisited(d, log, j, h, ps, ps[0], k);
    var u :| 0 <= u < |order| && order[u] == d.putRoute(k);
    QuietVisit(d, log, j, h, ps, m, k, u);
  }

  lemma QuietKeyRepeated<K(!new), V(!new)>(d: Deployment<K, V>, log: Log<K, V>, j: nat, h: nat, ps: seq<nat>,
                                           m: map<K, V>, k: K)
    requires Scan(d, log, j, h, ps) && Determined(d.kind, log[j].o) && Quiescent(d, log, h, j, m)
    requires Answered(d, log[j].o, m, k) && d.putRoute(k) + TWO16 < d.servers
    ensures Twice(Collected(log[j].rs), k)
  {
    ScanVisits(d, log, j, h, ps);
    var v, v' := FarIsRepeated(d.home(log[j].c), d.servers, d.putRoute(k));
    QuietVisit(d, log, j, h, ps, m, k, v);
    QuietVisit(d, log, j, h, ps, m, k, v');
    RepeatedIsTwice(log[j].rs, v, v', k);
  }

  /** Twice exactly when, besides, that server is visited again. */
  lemma QuietScanKeys<K(!new), V(!new)>(d: Deployment<K, V>, log: Log<K, V>, j: nat, h: nat, ps: seq<nat>,
                                        m: map<K, V>, k: K)
    requires Scan(d, log, j, h, ps) && Determined(d.kind, log[j].o) && Quiescent(d, log, h, j, m) && k in m
    ensures HasKey(Collected(log[j].rs), k) <==> Answered(d, log[j].o, m, k)
    ensures Twice(Collected(log[j].rs), k) <==> Answered(d, log[j].o, m, k) && d.putRoute(k) + TWO16 < d.servers
  {
    QuietScanKey(d, log, j, h, ps, m, k);
    if Answered(d, log[j].o, m, k) && d.putRoute(k) + TWO16 < d.servers {
      QuietKeyRepeated(d, log, j, h, ps, m, k);
    }
    if Twice(Collected(log[j].rs), k) {
      RepeatedKeyIsFar(d, log, j, h, ps, k);
    }
  }

  /** Without concurrent changes a scan returns just the entries `wanted`, each once, exactly when the servers
      answer these keys only, and none of them is on a server that is visited again. */
  lemma QuietScanIff<K(!new), V(!new)>(d: Deployment<K, V>, log: Log<K, V>, j: nat, h: nat, ps: seq<nat>, m: map<K, V>,
                                       wanted: map<K, V>)
    requires Scan(d, log, j, h, ps) && Determined(d.kind, log[j].o) && Quiescent(d, log, h, j, m)
    requires forall k :: k in wanted ==> k in m && wanted[k] == m[k]
    ensures multiset(Collected(log[j].rs)) == multiset(wanted.Items) <==>
            (forall k :: k in m ==> (Answered(d, log[j].o, m, k) <==> k in wanted)) && NoRepeats(d, wanted)
  {
    var result := Collected(log[j].rs);
    QuietScanHolds(d, log, j, h, ps, m);
    forall k | k in m
      ensures HasKey(result, k) <==> Answered(d, log[j].o, m, k)
      ensures Twice(result, k) <==> Answered(d, log[j].o, m, k) && d.putRoute(k) + TWO16 < d.servers
    {
      QuietScanKeys(d, log, j, h, ps, m, k);
    }
    forall k ensures Twice(result, k) ==> HasKey(result, k) && k in m {
    }
    DistinctIffNoneTwice(result);
    ListingIsPermutation(result, wanted);
    ListingIff(result, m, wanted);
  }

  lemma QuietScanHolds<K(!new), V(!new)>(d: Deployment<K, V>, log: Log<K, V>, j: nat, h: nat, ps: seq<nat>,
                                         m: map<K, V>)
    requires Scan(d, log, j, h, ps) && Quiescent(d, log, h, j, m)
    ensures Holds(Collected(log[j].rs), m)
  {
    ScanIsWeaklyConsistent(d, log, j, h, ps);
    var result := Collected(log[j].rs);
    forall a | 0 <= a < |result| ensures result[a].0 in m && m[result[a].0] == result[a].1 {
      QuietPair(d, log, h, j, m, result[a]);
    }
  }

  /** Every pair of `xs` is one of `m`. */
  ghost predicate Holds<K, V>(xs: seq<(K, V)>, m: map<K, V>) {
    forall a :: 0 <= a < |xs| ==> xs[a].0 in m && m[xs[a].0] == xs[a].1
  }

  lemma ListingIff<K(!new), V>(result: seq<(K, V)>, m: map<K, V>, wanted: map<K, V>)
    requires Holds(result, m)
    requires forall k :: k in wanted ==> k in m && wanted[k] == m[k]
    ensures Listing(result, wanted) <==>
            DistinctKeys(result) && forall k :: k in m ==> (HasKey(result, k) <==> k in wanted)
  {
    if forall k :: k in m ==> (HasKey(result, k) <==> k in wanted) {
      forall a | 0 <= a < |result| ensures result[a].0 in wanted && wanted[result[a].0] == result[a].1 {
        assert HasKey(result, result[a].0);
      }
    }
  }

  /** Without concurrent changes GetAllData returns a permutation of the container exactly when no key is on a
      server that is visited again; so it always does up to 65536 servers, where the entries come by server too. */
  lemma QuietGetAllDataIsComplete<K(!new), V(!new)>(d: Deployment<K, V>, log: Log<K, V>, j: nat, h: nat, ps: seq<nat>,
                                                    m: map<K, V>)
    requires Scan(d, log, j, h, ps) && log[j].o.GetAllData? && Quiescent(d, log, h, j, m)
    ensures multiset(Collected(log[j].rs)) == multiset(m.Items) <==> NoRepeats(d, m)
    ensures d.servers <= TWO16 ==>
              multiset(Collected(log[j].rs)) == multiset(m.Items) &&
                ByServer(d.home(log[j].c), d.putRoute, Collected(log[j].rs))
  {
    ScanIsWeaklyConsistent(d, log, j, h, ps);
    QuietScanIff(d, log, j, h, ps, m, m);
  }

  // ---------- Contains ----------

  /** When the single-entry shortcut is right about its entry. */
  predicate ShortcutHarmless<K(==)>(kind: Kind<K>, k: K, lo: K, hi: K)
    requires !kind.Hashed?
  {
    if kind.OrderedSet? then
      kind.less(k, lo) || !kind.less(hi, k)
    else
      kind.less(k, lo) || (k == lo && kind.less(hi, lo)) || (kind.less(lo, k) && !kind.less(hi, k))
  }

  lemma ShortcutRightIff<K(!new)>(kind: Kind<K>, k: K, lo: K, hi: K)
    requires !kind.Hashed? && StrictTotalOrder(kind.less)
    ensures (Shortcut(kind, k, lo) <==> InRange(kind.less, k, lo, hi)) <==> ShortcutHarmless(kind, k, lo, hi)
  {
  }

  ghost predicate SingletonsHarmless<K(!new), V>(d: Deployment<K, V>, m: map<K, V>, lo: K, hi: K)
    requires !d.kind.Hashed?
  {
    forall s: nat, k :: s < d.servers && k in Part(d, m, s) && |Part(d, m, s)| == 1 ==>
        ShortcutHarmless(d.kind, k, lo, hi)
  }

  /** Which keys one server answers. */
  lemma AnswerOfPart<K(!new), V(!new)>(d: Deployment<K, V>, m: map<K, V>, s: nat, lo: K, hi: K, k: K)
    requires !d.kind.Hashed? && StrictTotalOrder(d.kind.less) && k in Part(d, m, s)
    ensures k in RangeAnswer(d.kind, Part(d, m, s), lo, hi) <==>
            (InRange(d.kind.less, k, lo, hi) <==> !(|Part(d, m, s)| == 1 && !ShortcutHarmless(d.kind, k, lo, hi)))
  {
    ShortcutRightIff(d.kind, k, lo, hi);
  }

  lemma AnsweredAllIff<K(!new), V(!new)>(d: Deployment<K, V>, m: map<K, V>, lo: K, hi: K)
    requires !d.kind.Hashed? && StrictTotalOrder(d.kind.less)
    requires forall k :: k in m ==> d.putRoute(k) < d.servers
    ensures (forall k :: k in m ==> (Answered(d, Contains(lo, hi), m, k) <==> k in RangePart(d.kind.less, m, lo, hi)))
            <==> SingletonsHarmless(d, m, lo, hi)
  {
    forall k | k in m
      ensures (Answered(d, Contains(lo, hi), m, k) <==> k in RangePart(d.kind.less, m, lo, hi)) <==>
              !(|Part(d, m, d.putRoute(k))| == 1 && !ShortcutHarmless(d.kind, k, lo, hi))
    {
      AnswerOfPart(d, m, d.putRoute(k), lo, hi, k);
    }
  }

  lemma QuietKeysOnServers<K(!new), V(!new)>(d: Deployment<K, V>, log: Log<K, V>, j: nat, h: nat, ps: seq<nat>,
                                             m: map<K, V>)
    requires Scan(d, log, j, h, ps) && Quiescent(d, log, h, j, m)
    ensures forall k :: k in m ==> d.putRoute(k) < d.servers
  {
    ScanVisits(d, log, j, h, ps);
    assert h < ps[0] < j;
    forall k | k in m ensures d.putRoute(k) < d.servers {
      assert k in MapAfter(d, log[..ps[0]]);
      ItsServerIsVisited(d, log, j, h, ps, ps[0], k);
    }
  }

  /** With no concurrent changes, Contains returns a permutation of the entries in [lo, hi] exactly when the
      shortcut is harmless on every server that holds a single entry (and, above 65536 servers, none of the entries
      is on a server that is visited again).  Each server's share comes sorted, and the shares come by server. */
  lemma QuietContainsIsRangeIff<K(!new), V(!new)>(d: Deployment<K, V>, log: Log<K, V>, j: nat, h: nat, ps: seq<nat>,
                                                  m: map<K, V>)
    requires Scan(d, log, j, h, ps) && log[j].o.Contains? && Quiescent(d, log, h, j, m)
    requires !d.kind.Hashed? && StrictTotalOrder(d.kind.less)
    ensures var wanted := RangePart(d.kind.less, m, log[j].o.lo, log[j].o.hi);
            multiset(Collected(log[j].rs)) == multiset(wanted.Items)
            <==> SingletonsHarmless(d, m, log[j].o.lo, log[j].o.hi) && NoRepeats(d, wanted)
    ensures forall i :: 0 <= i < |log[j].rs| ==> log[j].rs[i].Listed? && SortedKeys(d.kind.less, log[j].rs[i].xs)
    ensures d.servers <= TWO16 ==>
              ByServer(d.home(log[j].c), d.putRoute, Collected(log[j].rs)) &&
              NoRepeats(d, RangePart(d.kind.less, m, log[j].o.lo, log[j].o.hi))
  {
    var lo, hi := log[j].o.lo, log[j].o.hi;
    ScanVisits(d, log, j, h, ps);
    forall i | 0 <= i < |log[j].rs| ensures log[j].rs[i].Listed? && SortedKeys(d.kind.less, log[j].rs[i].xs) {
      ScanVisit(d, log, j, h, ps, i);
    }
    ScanIsWeaklyConsistent(d, log, j, h, ps);
    QuietKeysOnServers(d, log, j, h, ps, m);
    QuietScanIff(d, log, j, h, ps, m, RangePart(d.kind.less, m, lo, hi));
    AnsweredAllIff(d, m, lo, hi);
  }

  /** At the visit `p` of its server, key `k` is alone there, and the shortcut wrong about it. */
  ghost predicate WrongAt<K, V>(d: Deployment<K, V>, log: Log<K, V>, p: nat, lo: K, hi: K, k: K)
    requires p <= |log| && !d.kind.Hashed?
  {
    |Part(d, MapAfter(d, log[..p]), d.putRoute(k))| == 1 && !ShortcutHarmless(d.kind, k, lo, hi)
  }

  /** A visit of its server finds key `k`, and finds it to be in the range, unless the shortcut turns that round. */
  ghost predicate FoundAt<K, V>(d: Deployment<K, V>, log: Log<K, V>, p: nat, lo: K, hi: K, k: K)
    requires p <= |log| && !d.kind.Hashed?
  {
    k in MapAfter(d, log[..p]) && (InRange(d.kind.less, k, lo, hi) <==> !WrongAt(d, log, p, lo, hi, k))
  }

  lemma VisitFinds<K(!new), V(!new)>(d: Deployment<K, V>, log: Log<K, V>, j: nat, h: nat, ps: seq<nat>, k: K, v: nat)
    requires Scan(d, log, j, h, ps) && log[j].o.Contains? && !d.kind.Hashed? && StrictTotalOrder(d.kind.less)
    requires v < |ps| == |log[j].rs| == |Order(d, log, j)| && Order(d, log, j)[v] == d.putRoute(k) && ps[v] <= |log|
    ensures log[j].rs[v].Listed? &&
            (HasKey(log[j].rs[v].xs, k) <==> FoundAt(d, log, ps[v], log[j].o.lo, log[j].o.hi, k))
  {
    ScanVisits(d, log, j, h, ps);
    ScanVisit(d, log, j, h, ps, v);
    var part := Part(d, MapAfter(d, log[..ps[v]]), d.putRoute(k));
    if k in part {
      AnswerOfPart(d, MapAfter(d, log[..ps[v]]), d.putRoute(k), log[j].o.lo, log[j].o.hi, k);
    }
  }

  /** Contains next to writers returns a key exactly when a visit of its server finds it. */
  lemma ContainsFinds<K(!new), V(!new)>(d: Deployment<K, V>, log: Log<K, V>, j: nat, h: nat, ps: seq<nat>, k: K)
    requires Scan(d, log, j, h, ps) && log[j].o.Contains? && !d.kind.Hashed? && StrictTotalOrder(d.kind.less)
    ensures |ps| == |Order(d, log, j)| && forall v :: 0 <= v < |ps| ==> h < ps[v] < j
    ensures HasKey(Collected(log[j].rs), k) <==>
            exists v :: 0 <= v < |ps| && Order(d, log, j)[v] == d.putRoute(k) &&
                        FoundAt(d, log, ps[v], log[j].o.lo, log[j].o.hi, k)
  {
    var order, rs := Order(d, log, j), log[j].rs;
    ScanVisits(d, log, j, h, ps);
    CollectedKeyIff(order, d.putRoute, rs, k);
    if HasKey(Collected(rs), k) {
      var v :| 0 <= v < |rs| && order[v] == d.putRoute(k) && HasKey(rs[v].xs, k);
      VisitFinds(d, log, j, h, ps, k, v);
    }
    if v :| 0 <= v < |ps| && order[v] == d.putRoute(k) && FoundAt(d, log, ps[v], log[j].o.lo, log[j].o.hi, k) {
      VisitFinds(d, log, j, h, ps, k, v);
    }
  }

  /** So a key in the range that is present throughout is returned, unless at every visit it is alone on its server and
      the shortcut wrong about it; and a returned key outside the range was alone on its server at a visit, with the
      shortcut wrong about it. */
  lemma ContainsNextToWriters<K(!new), V(!new)>(d: Deployment<K, V>, log: Log<K, V>, j: nat, h: nat, ps: seq<nat>, k: K)
    requires Scan(d, log, j, h, ps) && log[j].o.Contains? && !d.kind.Hashed? && StrictTotalOrder(d.kind.less)
    ensures |ps| == |Order(d, log, j)| && forall v :: 0 <= v < |ps| ==> h < ps[v] < j
    ensures var lo, hi := log[j].o.lo, log[j].o.hi;
            && (PresentThroughout(d, log, h, j, k) && InRange(d.kind.less, k, lo, hi) ==>
                HasKey(Collected(log[j].rs), k) ||
                forall v :: 0 <= v < |ps| && Order(d, log, j)[v] == d.putRoute(k) ==> WrongAt(d, log, ps[v], lo, hi, k))
            && (HasKey(Collected(log[j].rs), k) ==>
                InRange(d.kind.less, k, lo, hi) ||
                exists v :: 0 <= v < |ps| && Order(d, log, j)[v] == d.putRoute(k) && WrongAt(d, log, ps[v], lo, hi, k))
  {
    ContainsFinds(d, log, j, h, ps, k);
    var order, lo, hi := Order(d, log, j), log[j].o.lo, log[j].o.hi;
    if PresentThroughout(d, log, h, j, k) && InRange(d.kind.less, k, lo, hi) && !HasKey(Collected(log[j].rs), k) {
      forall v | 0 <= v < |ps| && order[v] == d.putRoute(k) ensures WrongAt(d, log, ps[v], lo, hi, k) {
        assert !FoundAt(d, log, ps[v], lo, hi, k);
        assert k in MapAfter(d, log[..ps[v]]);
      }
    }
    if HasKey(Collected(log[j].rs), k) && !InRange(d.kind.less, k, lo, hi) {
      var v :| 0 <= v < |ps| && order[v] == d.putRoute(k) && FoundAt(d, log, ps[v], lo, hi, k);
      assert WrongAt(d, log, ps[v], lo, hi, k);
    }
  }

  // ---------- Contains of a multimap ----------

  /** No server holds a single entry with a key other than `key`. */
  ghost predicate NoOtherSingleton<K(!new), V>(d: Deployment<K, V>, m: map<K, V>, key: K) {
    forall k :: k in m && |Part(d, m, d.putRoute(k))| == 1 ==> k == key
  }

  /** With equality for Contains and no concurrent changes, a multimap's Contains(key) returns what Get finds
      exactly when no server holds a single entry with another key (and, above 65536 servers, the server of the key
      is not visited again). */
  lemma QuietMatchingIsGetIff<K(!new), V(!new)>(d: Deployment<K, V>, log: Log<K, V>, j: nat, h: nat, ps: seq<nat>,
                                                m: map<K, V>)
    requires Scan(d, log, j, h, ps) && log[j].o.Matching? && Quiescent(d, log, h, j, m)
    requires d.kind.Multi? && IsEquality(d.kind.covers) && StrictTotalOrder(d.kind.less)
    ensures Collected(log[j].rs) == Lookup(m, log[j].o.key) <==>
            NoOtherSingleton(d, m, log[j].o.key) && NoRepeats(d, KeyPart(m, log[j].o.key))
  {
    var key := log[j].o.key;
    QuietScanIff(d, log, j, h, ps, m, KeyPart(m, key));
    LookupIsKeyPart(Collected(log[j].rs), m, key);
    forall k | k in m
      ensures (Answered(d, log[j].o, m, k) <==> k in KeyPart(m, key)) <==>
              (|Part(d, m, d.putRoute(k))| == 1 ==> k == key)
    {
      EqualityInRun(d.kind.less, d.kind.covers, Part(d, m, d.putRoute(k)), key, k);
    }
  }

  /** No server's scan misses a match, or returns anything else. */
  ghost predicate ScansComplete<K(!new), V>(d: Deployment<K, V>, m: map<K, V>, key: K)
    requires d.kind.Multi?
  {
    forall s: nat :: s < d.servers ==> ScanComplete(d.kind.less, d.kind.covers, Part(d, m, s), key)
  }

  lemma AnsweredMatchesIff<K(!new), V(!new)>(d: Deployment<K, V>, m: map<K, V>, key: K)
    requires d.kind.Multi? && StrictTotalOrder(d.kind.less)
    requires forall k :: k in m ==> d.putRoute(k) < d.servers
    ensures (forall k :: k in m ==> (Answered(d, Matching(key), m, k) <==> k in FilterPart(d.kind.covers, m, key)))
            <==> ScansComplete(d, m, key)
  {
    forall s: nat | s < d.servers
      ensures ScanComplete(d.kind.less, d.kind.covers, Part(d, m, s), key) <==>
              forall k :: k in m && d.putRoute(k) == s ==>
                            (Answered(d, Matching(key), m, k) <==> k in FilterPart(d.kind.covers, m, key))
    {
      ScanIsFilterIff(d.kind.less, d.kind.covers, Part(d, m, s), key);
      forall k | k in m && d.putRoute(k) == s
        ensures Answered(d, Matching(key), m, k) <==> k in ScanPart(d.kind.less, d.kind.covers, Part(d, m, s), key)
        ensures k in FilterPart(d.kind.covers, m, key) <==> Matches(d.kind.covers, key, k)
      {
      }
    }
  }

  /** Whatever Contains of the keys means: without concurrent changes, a multimap's Contains(key) returns a permutation
      of all matching entries exactly when no server's scan misses a match or returns a lone entry that does not match
      (and, above 65536 servers, no match is on a server that is visited again). */
  lemma QuietMatchingIsFilterIff<K(!new), V(!new)>(d: Deployment<K, V>, log: Log<K, V>, j: nat, h: nat, ps: seq<nat>,
                                                   m: map<K, V>)
    requires Scan(d, log, j, h, ps) && log[j].o.Matching? && Quiescent(d, log, h, j, m)
    requires d.kind.Multi? && StrictTotalOrder(d.kind.less)
    ensures var wanted := FilterPart(d.kind.covers, m, log[j].o.key);
            multiset(Collected(log[j].rs)) == multiset(wanted.Items)
            <==> ScansComplete(d, m, log[j].o.key) && NoRepeats(d, wanted)
  {
    QuietKeysOnServers(d, log, j, h, ps, m);
    QuietScanIff(d, log, j, h, ps, m, FilterPart(d.kind.covers, m, log[j].o.key));
    AnsweredMatchesIff(d, m, log[j].o.key);
  }

  /** The result is the concatenation of the scans of the servers' parts of the container, in the order of the
      visits. */
  lemma QuietMatchingConcatenates<K(!new), V(!new)>(d: Deployment<K, V>, log: Log<K, V>, j: nat, h: nat, ps: seq<nat>,
                                                    m: map<K, V>, parts: seq<seq<(K, V)>>)
    requires Scan(d, log, j, h, ps) && log[j].o.Matching? && Quiescent(d, log, h, j, m)
    requires d.kind.Multi? && StrictTotalOrder(d.kind.less)
    requires |parts| == |Order(d, log, j)|
    requires forall v :: 0 <= v < |parts| ==> SortedListing(d.kind.less, parts[v], Part(d, m, Order(d, log, j)[v]))
    ensures Collected(log[j].rs) == ScanAll(d.kind.less, d.kind.covers, parts, log[j].o.key)
  {
    var rs, key := log[j].rs, log[j].o.key;
    ScanSizes(d, log, j, h, ps);
    forall v | 0 <= v < |rs|
      ensures rs[v].Listed? && rs[v].xs == MultiScan(d.kind.less, d.kind.covers, parts[v], key)
    {
      ScanVisit(d, log, j, h, ps, v);
      assert MapAfter(d, log[..ps[v]]) == m;
    }
    CollectedScans(d.kind.less, d.kind.covers, parts, key, rs);
  }

  function ScanAll<K, V>(less: (K, K) -> bool, covers: (K, K) -> bool, parts: seq<seq<(K, V)>>, key: K): seq<(K, V)> {
    if parts == [] then []
    else ScanAll(less, covers, parts[..|parts| - 1], key) + MultiScan(less, covers, parts[|parts| - 1], key)
  }

  lemma {:induction false} CollectedScans<K, V>(less: (K, K) -> bool, covers: (K, K) -> bool, parts: seq<seq<(K, V)>>,
                                                key: K, rs: seq<Reply<K, V>>)
    requires |rs| == |parts|
    requires forall v :: 0 <= v < |rs| ==> rs[v].Listed? && rs[v].xs == MultiScan(less, covers, parts[v], key)
    ensures Collected(rs) == ScanAll(less, covers, parts, key)
    decreases |rs|
  {
    if rs != [] {
      CollectedScans(less, covers, parts[..|rs| - 1], key, rs[..|rs| - 1]);
    }
  }

  lemma LookupIsKeyPart<K(!new), V(!new)>(xs: seq<(K, V)>, m: map<K, V>, key: K)
    ensures multiset(xs) == multiset(KeyPart(m, key).Items) <==> xs == Lookup(m, key)
  {
    var part := KeyPart(m, key);
    if key in m {
      var x := (key, m[key]);
      assert part == map[key := m[key]];
      forall y: (K, V) ensures y in part.Items <==> y == x {
        assert y in part.Items <==> y.0 in part && part[y.0] == y.1;
        assert y == (y.0, y.1);
      }
      assert part.Items == {x};
      if multiset(xs) == multiset{x} {
        assert |multiset(xs)| == 1;
        assert xs[0] in multiset(xs);
      }
      assert multiset(xs) == multiset{x} <==> xs == [x];
    } else {
      assert part == map[];
      assert multiset(xs) == multiset{} <==> xs == [] by {
        assert |multiset(xs)| == |xs|;
      }
    }
  }
}
