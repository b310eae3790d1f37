/**
 basket::map, set, multimap and unordered_map as instances of the RPC machine.

 A shard is a finite map.  A set is the map that gives every member the unit value; a multimap shard is a map too,
 because its LocalPut erases before it inserts (see MultimapShard).
 */
module MapService {
  import opened RpcMachine
  import opened Ordering
  import opened Routing

  /** Which container, with its key order and, for multimap, the Contains method of its keys. */
  datatype Kind<!K> =
    | OrderedMap(less: (K, K) -> bool)
    | OrderedSet(less: (K, K) -> bool)
    | Multi(less: (K, K) -> bool, covers: (K, K) -> bool)
    | Hashed

  datatype Op<K, V> =
    | Put(k: K, v: V)
    | Get(k: K)
    | Erase(k: K)
    | GetAllData
    | Contains(lo: K, hi: K)     // map and set
    | Matching(key: K)           // multimap: Contains(key)
    | SeekFirst(server: nat)     // set
    | PopFirst(server: nat)
    | Size(server: nat)

  /** Replies of the Local* functions. */
  datatype Reply<K, V> =
    | Flag(ok: bool)
    | Pair(ok: bool, value: V)
    | First(ok: bool, key: K)
    | Listed(xs: seq<(K, V)>)
    | Count(n: nat)

  /** One deployed container: `putRoute` and `getRoute` give the server that Put, and that Get and Erase, hash a
      key to. */
  datatype Deployment<!K, !V> = Deployment(
    kind: Kind<K>,
    servers: nat,
    workers: nat,     // RPC_THREADS
    home: nat -> ServerIndex,
    onNode: nat -> bool,
    putRoute: K -> ServerIndex,
    getRoute: K -> ServerIndex,
    noKey: K,         // KeyType()
    noValue: V)       // MappedType()

  // ---------- the order of a scatter-gather call ----------

  /** The loop variable is an int, the server of an RPC a uint16_t. */
  function Narrow(i: nat): ServerIndex {
    i % TWO16
  }

  /** The servers that the loop over all i other than `home` calls. */
  function Others(home: nat, n: nat): seq<nat> {
    if n == 0 then []
    else if n - 1 == home then Others(home, n - 1)
    else Others(home, n - 1) + [Narrow(n - 1)]
  }

  /** The client's own server first, then the others. */
  function VisitOrder(home: nat, n: nat): seq<nat> {
    [home] + Others(home, n)
  }

  /** Which visit of the call the loop makes for server number `i`. */
  function VisitNumber(home: nat, i: nat): nat {
    if i == home then 0 else if i < home then i + 1 else i
  }

  lemma {:induction false} OthersAre(home: nat, n: nat)
    ensures |Others(home, n)| == if home < n then n - 1 else n
    ensures forall i: nat :: i < n && i != home ==>
              0 < VisitNumber(home, i) <= |Others(home, n)| && Others(home, n)[VisitNumber(home, i) - 1] == Narrow(i)
    decreases n
  {
    if n > 0 {
      OthersAre(home, n - 1);
    }
  }

  /** A scatter-gather call makes one visit for each i below n, its own server's first, and comes to the server that the
      low 16 bits of i name. */
  lemma VisitsAre(home: ServerIndex, n: nat)
    requires home < n
    ensures |VisitOrder(home, n)| == n && VisitOrder(home, n)[0] == home
    ensures forall i: nat :: i < n ==>
              VisitNumber(home, i) < n && VisitOrder(home, n)[VisitNumber(home, i)] == Narrow(i)
  {
    OthersAre(home, n);
    forall i: nat | i < n
      ensures VisitNumber(home, i) < n && VisitOrder(home, n)[VisitNumber(home, i)] == Narrow(i)
    {
      if i != home {
        assert VisitOrder(home, n)[VisitNumber(home, i)] == Others(home, n)[VisitNumber(home, i) - 1];
      }
    }
  }

  /** The loop index of a visit. */
  function LoopIndex(home: nat, v: nat): nat {
    if v == 0 then home else if v <= home then v - 1 else v
  }

  lemma VisitAtIndex(home: ServerIndex, n: nat, v: nat)
    requires home < n && v < n
    ensures |VisitOrder(home, n)| == n && LoopIndex(home, v) < n && VisitNumber(home, LoopIndex(home, v)) == v
    ensures VisitOrder(home, n)[v] == Narrow(LoopIndex(home, v)) < n
  {
    VisitsAre(home, n);
  }

  /** Place of a server in the visiting order of a client. */
  function Rank(home: nat, server: nat): nat {
    if server == home then 0 else server + 1
  }

  /** Up to 65536 servers a scatter-gather call visits every server once: its own first, then ascending. */
  lemma EveryServerVisitedOnce(home: ServerIndex, n: nat)
    requires home < n <= TWO16
    ensures forall s: nat :: s in VisitOrder(home, n) <==> s < n
    ensures forall i, j :: 0 <= i < j < |VisitOrder(home, n)| ==>
              Rank(home, VisitOrder(home, n)[i]) < Rank(home, VisitOrder(home, n)[j])
    ensures VisitOrder(home, n)[0] == home && |VisitOrder(home, n)| == n
    ensures forall i, j :: 0 < i < j < n ==> VisitOrder(home, n)[i] < VisitOrder(home, n)[j]
  {
    VisitsAre(home, n);
    var o := VisitOrder(home, n);
    forall v: nat | v < n ensures o[v] == LoopIndex(home, v) {
      VisitAtIndex(home, n, v);
    }
    forall s: nat ensures s in o <==> s < n {
      if s < n { assert o[VisitNumber(home, s)] == s; }
      if s in o { var v :| 0 <= v < n && o[v] == s; }
    }
  }

  /** With more servers, those above 65535 are never visited. */
  lemma VisitedIff(home: ServerIndex, n: nat, s: nat)
    requires home < n
    ensures s in VisitOrder(home, n) <==> s < n && s < TWO16
  {
    VisitsAre(home, n);
    var o := VisitOrder(home, n);
    if s < n && s < TWO16 {
      assert o[VisitNumber(home, s)] == s;
    }
    if s in o {
      var v :| 0 <= v < n && o[v] == s;
      VisitAtIndex(home, n, v);
    }
  }

  /** The visits `i` and `j` come to the same server. */
  predicate Repeated(order: seq<nat>, i: nat, j: nat) {
    i < j < |order| && order[i] == order[j]
  }

  /** A server is visited again only if it stays below n with 65536 added. */
  lemma RepeatedOnlyFar(home: ServerIndex, n: nat, i: nat, j: nat)
    requires home < n && Repeated(VisitOrder(home, n), i, j)
    ensures VisitOrder(home, n)[i] + TWO16 < n
  {
    VisitsAre(home, n);
    VisitAtIndex(home, n, i);
    VisitAtIndex(home, n, j);
    SameNarrow(LoopIndex(home, i), LoopIndex(home, j));
  }

  /** Every such server is visited again. */
  lemma FarIsRepeated(home: ServerIndex, n: nat, s: nat) returns (i: nat, j: nat)
    requires home < n && s < TWO16 && s + TWO16 < n
    ensures Repeated(VisitOrder(home, n), i, j) && VisitOrder(home, n)[i] == s
  {
    VisitsAre(home, n);
    i, j := VisitNumber(home, s), VisitNumber(home, s + TWO16);
  }

  lemma SameNarrow(a: nat, b: nat)
    requires a != b && Narrow(a) == Narrow(b)
    ensures Narrow(a) + TWO16 <= a || Narrow(a) + TWO16 <= b
  {
  }

  // ---------- what a scan of one shard answers ----------

  function RangePart<K, V>(less: (K, K) -> bool, m: map<K, V>, lo: K, hi: K): map<K, V> {
    map k | k in m && InRange(less, k, lo, hi) :: m[k]
  }

  /** The test of a shard that holds a single entry: `>= key_start` for set, `> key_start` for map. */
  predicate Shortcut<K>(kind: Kind<K>, k: K, lo: K)
    requires !kind.Hashed?
  {
    if kind.OrderedSet? then !kind.less(k, lo) else kind.less(lo, k)
  }

  function RangeAnswer<K, V>(kind: Kind<K>, m: map<K, V>, lo: K, hi: K): map<K, V>
    requires !kind.Hashed?
  {
    if |m| == 1 then map k | k in m && Shortcut(kind, k, lo) :: m[k]
    else RangePart(kind.less, m, lo, hi)
  }

  /** `lower_bound(key)`: how many leading entries have a smaller key. */
  function LowerBound<K, V>(less: (K, K) -> bool, xs: seq<(K, V)>, key: K): (i: nat)
    ensures i <= |xs|
    ensures forall j :: 0 <= j < i ==> less(xs[j].0, key)
    ensures i < |xs| ==> !less(xs[i].0, key)
  {
    if xs == [] || !less(xs[0].0, key) then 0 else 1 + LowerBound(less, xs[1..], key)
  }

  predicate Matches<K>(covers: (K, K) -> bool, key: K, k: K) {
    covers(key, k) || covers(k, key)
  }

  /** Length of the run of matching entries that begins at `from`. */
  function RunLength<K, V>(covers: (K, K) -> bool, xs: seq<(K, V)>, key: K, from: nat): (len: nat)
    requires from <= |xs|
    ensures from + len <= |xs|
    ensures forall j :: from <= j < from + len ==> Matches(covers, key, xs[j].0)
    ensures from + len < |xs| ==> !Matches(covers, key, xs[from + len].0)
    decreases |xs| - from
  {
    if from == |xs| || !Matches(covers, key, xs[from].0) then 0
    else 1 + RunLength(covers, xs, key, from + 1)
  }

  /** Where the multimap scan starts: at the lower bound, or one before it when the key contains that predecessor. */
  function StartOfRun<K, V>(less: (K, K) -> bool, covers: (K, K) -> bool, xs: seq<(K, V)>, key: K): (i: nat)
    ensures i <= |xs|
  {
    var lb := LowerBound(less, xs, key);
    if 0 < lb < |xs| && covers(key, xs[lb - 1].0) then lb - 1 else lb
  }

  /** Multimap scan of a shard without the single-entry shortcut. */
  function MatchingRun<K, V>(less: (K, K) -> bool, covers: (K, K) -> bool, xs: seq<(K, V)>, key: K): seq<(K, V)> {
    var i := StartOfRun(less, covers, xs, key);
    xs[i..i + RunLength(covers, xs, key, i)]
  }

  /** Multimap scan as the code does it: a single entry is returned unseen. */
  function MultiScan<K, V>(less: (K, K) -> bool, covers: (K, K) -> bool, xs: seq<(K, V)>, key: K): seq<(K, V)> {
    if |xs| == 1 then xs else MatchingRun(less, covers, xs, key)
  }

  // ---------- the Local* functions ----------

  ghost predicate Shows<K(!new), V>(kind: Kind<K>, xs: seq<(K, V)>, m: map<K, V>) {
    Listing(xs, m) && (!kind.Hashed? ==> SortedKeys(kind.less, xs))
  }

  ghost predicate Body<K(!new), V(!new)>(kind: Kind<K>, noKey: K, noValue: V, o: Op<K, V>, pre: map<K, V>,
                                         post: map<K, V>, r: Reply<K, V>) {
    match o
    case Put(k, v) => post == pre[k := v] && r == Flag(true)
    case Get(k) => post == pre && r == if k in pre then Pair(true, pre[k]) else Pair(false, noValue)
    case Erase(k) => post == pre - {k} && r == Pair(k in pre, noValue)
    case GetAllData => post == pre && r.Listed? && Shows(kind, r.xs, pre)
    case Contains(lo, hi) => !kind.Hashed? && post == pre && r.Listed? &&
      Shows(kind, r.xs, RangeAnswer(kind, pre, lo, hi))
    case Matching(key) =>
      kind.Multi? && post == pre && r.Listed? &&
      exists xs :: SortedListing(kind.less, xs, pre) && r.xs == MultiScan(kind.less, kind.covers, xs, key)
    case SeekFirst(_) => !kind.Hashed? && post == pre && FirstOf(kind.less, noKey, pre, r)
    case PopFirst(_) =>
      !kind.Hashed? && FirstOf(kind.less, noKey, pre, r) && post == if r.ok then pre - {r.key} else pre
    case Size(_) => post == pre && r == Count(|pre|)
  }

  /** `r` names the smallest key, or says that there is none. */
  ghost predicate FirstOf<K, V>(less: (K, K) -> bool, noKey: K, m: map<K, V>, r: Reply<K, V>) {
    r.First? && if r.ok then IsLeast(less, r.key, m.Keys) else m == map[] && r.key == noKey
  }

  predicate Offers<K, V>(kind: Kind<K>, o: Op<K, V>) {
    match o
    case Contains(_, _) => kind.OrderedMap? || kind.OrderedSet?
    case Matching(_) => kind.Multi?
    case SeekFirst(_) => kind.OrderedSet?
    case PopFirst(_) => kind.OrderedSet?
    case Size(_) => kind.OrderedSet?
    case _ => true
  }

  function Plan<K, V>(d: Deployment<K, V>, c: nat, o: Op<K, V>): seq<nat> {
    match o
    case Put(k, _) => [d.putRoute(k)]
    case Get(k) => [d.getRoute(k)]
    case Erase(k) => [d.getRoute(k)]
    case GetAllData => VisitOrder(d.home(c), d.servers)
    case Contains(_, _) => VisitOrder(d.home(c), d.servers)
    case Matching(_) => VisitOrder(d.home(c), d.servers)
    case SeekFirst(server) => [server]
    case PopFirst(server) => [server]
    case Size(server) => [server]
  }

  ghost function Service<K(!new), V(!new)>(d: Deployment<K, V>): Config<map<K, V>, Op<K, V>, Reply<K, V>> {
    Config(
      d.servers, d.workers, c => d.home(c), d.onNode,
      (c, o) => Plan(d, c, o),
      o => Offers(d.kind, o),
      (o: Op<K, V>) => !o.Size?,        // set::LocalSize takes no lock
      map[],
      (o, pre, post, r) => Body(d.kind, d.noKey, d.noValue, o, pre, post, r))
  }

  ghost predicate WellOrdered<K(!new)>(kind: Kind<K>) {
    !kind.Hashed? ==> StrictTotalOrder(kind.less)
  }
}
