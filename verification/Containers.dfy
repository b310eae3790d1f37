/**
 The deployed containers, with the routes they compute from the hash of a key, and what their users may rely on.
 */
module Containers {
  import opened RpcMachine
  import opened RpcHistory
  import opened RpcCalls
  import opened RpcProgress
  import opened Ordering
  import opened MapService
  import opened MapHistory
  import opened ScanHistory
  import opened MultimapShard
  import opened Routing

  type MapState<K, V> = State<map<K, V>, Op<K, V>, Reply<K, V>>

  ghost predicate HashFunction<K(!new)>(hash: K -> nat) {
    forall k :: HashValue(hash(k))
  }

  ghost predicate GoodHomes(home: nat -> ServerIndex, n: nat) {
    forall c: nat :: home(c) < n
  }

  /** map, set and multimap: every operation uses the same route. */
  function Uniform<K, V>(kind: Kind<K>, hash: K -> nat, n: nat, workers: nat, home: nat -> ServerIndex,
                         onNode: nat -> bool, noKey: K, noValue: V): Deployment<K, V>
    requires n >= 1
  {
    var route := k => ModThenCast(hash(k), n);
    Deployment(kind, n, workers, home, onNode, route, route, noKey, noValue)
  }

  /** unordered_map: Put casts the hash before it takes the remainder, Get and Erase after. */
  function Unordered<K, V>(hash: K -> nat, n: nat, workers: nat, home: nat -> ServerIndex, onNode: nat -> bool,
                           noKey: K, noValue: V): Deployment<K, V>
    requires n >= 1
  {
    Deployment(Hashed, n, workers, home, onNode,
               k => CastThenMod(hash(k), n), k => ModThenCast(hash(k), n), noKey, noValue)
  }

  // ---------- where the keys are ----------

  /** In map, set and multimap a key is stored, looked up and erased on the server that its hash modulo num_servers
      names, as a uint16_t. */
  lemma UniformRoutes<K(!new), V(!new)>(kind: Kind<K>, hash: K -> nat, n: nat, workers: nat, home: nat -> ServerIndex,
                                        onNode: nat -> bool, noKey: K, noValue: V, s: MapState<K, V>)
    requires n >= 1 && Reachable(Service(Uniform(kind, hash, n, workers, home, onNode, noKey, noValue)), s)
    ensures |s.shards| == n
    ensures forall i: nat, k :: i < n && k in s.shards[i] ==> i == (hash(k) % n) % 65536
    ensures n <= 65536 ==> forall i: nat, k :: i < n && k in s.shards[i] ==> i == hash(k) % n
    ensures forall j :: 0 <= j < |s.log| && s.log[j].Run? && Keyed(s.log[j].o) ==>
              s.log[j].at == (hash(s.log[j].o.k) % n) % 65536
  {
    var d := Uniform(kind, hash, n, workers, home, onNode, noKey, noValue);
    ReachableInv(Service(d), s);
    AlwaysSharded(d, s.log);
    forall i: nat, k | i < n && k in s.shards[i] ensures i == (hash(k) % n) % 65536 {
      assert s.shards[i] == Part(d, MapAfter(d, s.log), i);
    }
    forall k ensures n <= 65536 ==> (hash(k) % n) % 65536 == hash(k) % n {
      SmallRemainder(hash(k), n);
    }
    forall j | 0 <= j < |s.log| && s.log[j].Run? && Keyed(s.log[j].o)
      ensures s.log[j].at == (hash(s.log[j].o.k) % n) % 65536
    {
      RunsOnPlan(Service(d), s.log, j);
    }
  }

  lemma SmallRemainder(h: nat, n: nat)
    requires 1 <= n
    ensures n <= 65536 ==> (h % n) % 65536 == h % n
  {
    assert 0 <= h % n < n;
  }

  /** In unordered_map a key is stored on the server that its hash as a uint16_t, modulo num_servers, names, but
      looked up and erased where its hash modulo num_servers, as a uint16_t, does. */
  lemma UnorderedRoutes<K(!new), V(!new)>(hash: K -> nat, n: nat, workers: nat, home: nat -> ServerIndex,
                                          onNode: nat -> bool, noKey: K, noValue: V, s: MapState<K, V>)
    requires n >= 1 && Reachable(Service(Unordered(hash, n, workers, home, onNode, noKey, noValue)), s)
    ensures |s.shards| == n
    ensures forall i: nat, k :: i < n && k in s.shards[i] ==> i == (hash(k) % 65536) % n
    ensures forall j :: 0 <= j < |s.log| && s.log[j].Run? && s.log[j].o.Put? ==>
              s.log[j].at == (hash(s.log[j].o.k) % 65536) % n
    ensures forall j :: 0 <= j < |s.log| && s.log[j].Run? && (s.log[j].o.Get? || s.log[j].o.Erase?) ==>
              s.log[j].at == (hash(s.log[j].o.k) % n) % 65536
  {
    var d := Unordered(hash, n, workers, home, onNode, noKey, noValue);
    ReachableInv(Service(d), s);
    AlwaysSharded(d, s.log);
    forall i: nat, k | i < n && k in s.shards[i] ensures i == (hash(k) % 65536) % n {
      assert s.shards[i] == Part(d, MapAfter(d, s.log), i);
    }
    forall j | 0 <= j < |s.log| && s.log[j].Run? && Keyed(s.log[j].o)
      ensures s.log[j].at ==
              if s.log[j].o.Put? then (hash(s.log[j].o.k) % 65536) % n else (hash(s.log[j].o.k) % n) % 65536
    {
      RunsOnPlan(Service(d), s.log, j);
    }
  }

  // ---------- the steps of a call ----------

  /** Which operations a client can call: range Contains of map and set, Contains of one key of multimap,
      SeekFirst, PopFirst and Size of set, the others of all. */
  lemma OfferedOperations<K(!new), V(!new)>(d: Deployment<K, V>, s: MapState<K, V>, c: nat, o: Op<K, V>)
    requires Inv(Service(d), s) && c < |s.clients| && s.clients[c].Idle?
    requires d.home(c) < d.servers && forall k :: d.putRoute(k) < d.servers && d.getRoute(k) < d.servers
    ensures Enabled(Service(d), s, Call(c, o)) <==>
            && (o.Contains? ==> d.kind.OrderedMap? || d.kind.OrderedSet?)
            && (o.Matching? ==> d.kind.Multi?)
            && (o.SeekFirst? || o.PopFirst? || o.Size? ==> d.kind.OrderedSet? && o.server < d.servers)
  {
    if o.GetAllData? || o.Contains? || o.Matching? {
      AllVisitsInRange(d, c);
    }
    assert o.SeekFirst? || o.PopFirst? || o.Size? ==> Service(d).plan(c, o)[0] == o.server;
  }

  lemma AllVisitsInRange<K, V>(d: Deployment<K, V>, c: nat)
    requires d.home(c) < d.servers
    ensures forall v :: 0 <= v < |VisitOrder(d.home(c), d.servers)| ==> VisitOrder(d.home(c), d.servers)[v] < d.servers
  {
    VisitsAre(d.home(c), d.servers);
    forall v: nat | v < d.servers ensures VisitOrder(d.home(c), d.servers)[v] < d.servers {
      VisitAtIndex(d.home(c), d.servers, v);
    }
  }

  /** A visit runs on the client's own thread exactly when it is the first of its call, goes to the client's own
      server, and that is on the client's node; every other one sends a request, which waits for one of the
      server's workers. */
  lemma DispatchOfAVisit<K(!new), V(!new)>(d: Deployment<K, V>, s: MapState<K, V>, c: nat)
    requires InVisit(Service(d), s, c)
    ensures var p, server := s.clients[c], Plan(d, c, s.clients[c].o)[|s.clients[c].got|];
            && (Enabled(Service(d), s, Send(c)) ==>
                After(Service(d), s, Send(c)).clients[c].stage ==
                if p.got == [] && server == d.home(c) && d.onNode(c) then Queued else InFlight)
            && (p.stage.InFlight? ==>
                (Enabled(Service(d), s, Deliver(c)) <==> |BusyWorkers(Service(d), s, server)| < d.workers))
  {
  }

  /** Only the size of a set is read without the mutex; every other Local* function runs under its server's. */
  lemma OnlySizeIsUnlocked<K(!new), V(!new)>(d: Deployment<K, V>, s: MapState<K, V>,
                                             t: Step<map<K, V>, Op<K, V>, Reply<K, V>>)
    requires Inv(Service(d), s) && Enabled(Service(d), s, t)
    ensures t.Peek? ==> s.clients[t.c].o.Size?
    ensures t.Execute? ==> !s.clients[t.c].o.Size? && s.owner[At(Service(d), t.c, s.clients[t.c])] == Some(t.c)
  {
    assert ClientOk(Service(d), t.c, s.clients[t.c]);
    if t.Execute? {
      assert Owns(Service(d), t.c, s.clients[t.c], At(Service(d), t.c, s.clients[t.c]));
    }
  }

  // ---------- progress ----------

  /** Every Local* function of these containers has an outcome on every shard, and none polls.  With
      RpcProgress: no run deadlocks, and every run without new calls ends with all calls answered. */
  lemma EveryBodyHasAnOutcome<K(!new), V(!new)>(d: Deployment<K, V>)
    requires WellOrdered(d.kind)
    ensures LockedBodiesTotal(Service(d)) && NeverPolls(Service(d))
  {
    var cfg := Service(d);
    forall o, pre | cfg.valid(o) && cfg.locked(o) ensures HasOutcome(cfg, o, pre) {
      var post, r := AnOutcome(d, o, pre);
      assert cfg.body(o, pre, post, r);
    }
    forall o, pre | cfg.valid(o) && !cfg.locked(o) ensures HasReading(cfg, o, pre) {
      assert cfg.body(o, pre, pre, Count(|pre|));
    }
  }

  lemma ShowsExists<K(!new), V(!new)>(kind: Kind<K>, m: map<K, V>) returns (xs: seq<(K, V)>)
    requires WellOrdered(kind)
    ensures Shows(kind, xs, m)
  {
    if kind.Hashed? {
      xs := ListingExists(m);
    } else {
      xs := SortedListingExists(kind.less, m);
    }
  }

  lemma AnOutcome<K(!new), V(!new)>(d: Deployment<K, V>, o: Op<K, V>, pre: map<K, V>)
    returns (post: map<K, V>, r: Reply<K, V>)
    requires WellOrdered(d.kind) && Offers(d.kind, o)
    ensures Body(d.kind, d.noKey, d.noValue, o, pre, post, r)
  {
    post := pre;
    match o
    case Put(k, v) => post, r := pre[k := v], Flag(true);
    case Get(k) => r := if k in pre then Pair(true, pre[k]) else Pair(false, d.noValue);
    case Erase(k) => post, r := pre - {k}, Pair(k in pre, d.noValue);
    case GetAllData =>
      var xs := ShowsExists(d.kind, pre);
      r := Listed(xs);
    case Contains(lo, hi) =>
      var xs := ShowsExists(d.kind, RangeAnswer(d.kind, pre, lo, hi));
      r := Listed(xs);
    case Matching(key) =>
      var xs := ShowsExists(d.kind, pre);
      r := Listed(MultiScan(d.kind.less, d.kind.covers, xs, key));
    case SeekFirst(_) =>
      r := FirstExists(d, pre);
    case PopFirst(_) =>
      r := FirstExists(d, pre);
      post := if r.ok then pre - {r.key} else pre;
    case Size(_) => r := Count(|pre|);
  }

  lemma FirstExists<K(!new), V(!new)>(d: Deployment<K, V>, m: map<K, V>) returns (r: Reply<K, V>)
    requires !d.kind.Hashed? && StrictTotalOrder(d.kind.less)
    ensures FirstOf(d.kind.less, d.noKey, m, r)
  {
    if m == map[] {
      r := First(false, d.noKey);
    } else {
      var k := LeastExists(d.kind.less, m.Keys);
      r := First(true, k);
    }
  }

  /** No run of map, set, multimap or unordered_map deadlocks: from every reachable state the pending calls can be
      carried to their end, and every way of running them without new calls gets there, for every step brings the
      end nearer. */
  lemma PendingCallsAlwaysEnd<K(!new), V(!new)>(d: Deployment<K, V>, s: State<map<K, V>, Op<K, V>, Reply<K, V>>)
    requires WellOrdered(d.kind) && d.workers >= 1 && Reachable(Service(d), s)
    ensures forall c: nat :: c < |s.clients| && s.clients[c].Busy? ==>
              exists t: Step<map<K, V>, Op<K, V>, Reply<K, V>> :: !t.Call? && Enabled(Service(d), s, t)
    ensures forall t: Step<map<K, V>, Op<K, V>, Reply<K, V>> :: Enabled(Service(d), s, t) && !t.Call? ==>
              0 <= Pending(Service(d), After(Service(d), s, t).clients) < Pending(Service(d), s.clients)
    ensures exists steps, s' :: Quiescence(Service(d), s, steps, s')
  {
    var cfg := Service(d);
    ReachableInv(cfg, s);
    EveryBodyHasAnOutcome(d);
    forall c: nat | c < |s.clients| && s.clients[c].Busy?
      ensures exists t: Step<map<K, V>, Op<K, V>, Reply<K, V>> :: !t.Call? && Enabled(cfg, s, t)
    {
      NothingPolls(cfg, s, c);
      var t := NoDeadlock(cfg, s, c);
    }
    forall t: Step<map<K, V>, Op<K, V>, Reply<K, V>> | Enabled(cfg, s, t) && !t.Call?
      ensures 0 <= Pending(cfg, After(cfg, s, t).clients) < Pending(cfg, s.clients)
    {
      StepsDecrease(cfg, s, t);
      StepInv(cfg, s, t);
      PendingBounded(cfg, After(cfg, s, t).clients);
    }
    var steps, s' := PendingCallsComplete(cfg, s);
    assert Quiescence(cfg, s, steps, s');
  }

  /** `steps` contain no new call and lead to a state in which all clients are idle. */
  ghost predicate Quiescence<S, O, R>(cfg: Config<S, O, R>, s: State<S, O, R>, steps: seq<Step<S, O, R>>,
                                      s': State<S, O, R>) {
    && Runs(cfg, s, steps, s')
    && (forall i :: 0 <= i < |steps| ==> !steps[i].Call?)
    && (forall c :: 0 <= c < |s'.clients| ==> s'.clients[c].Idle?)
  }

  // ---------- behaviour ----------

  /** An ordinary map. */
  function Ordinary<K, V>(noValue: V, m: map<K, V>, o: Op<K, V>): (map<K, V>, Reply<K, V>)
    requires Keyed(o)
  {
    match o
    case Put(k, v) => (m[k := v], Flag(true))
    case Get(k) => (m, if k in m then Pair(true, m[k]) else Pair(false, noValue))
    case Erase(k) => (m - {k}, Pair(k in m, noValue))
  }

  /** All Put, Get and Erase replies of the log are those of one ordinary map, in the order of their effects. */
  ghost predicate OrdinaryReplies<K, V>(d: Deployment<K, V>, log: Log<K, V>) {
    forall i :: 0 <= i < |log| && log[i].Run? && Keyed(log[i].o) ==>
      Ordinary(d.noValue, MapAfter(d, log[..i]), log[i].o) == (MapAfter(d, log[..i + 1]), log[i].r)
  }

  lemma WellRoutedIsOrdinary<K(!new), V(!new)>(d: Deployment<K, V>, log: Log<K, V>)
    requires WellFormed(Service(d), log) && forall k :: WellRouted(d, k)
    ensures OrdinaryReplies(d, log)
  {
    forall i | 0 <= i < |log| && log[i].Run? && Keyed(log[i].o)
      ensures Ordinary(d.noValue, MapAfter(d, log[..i]), log[i].o) == (MapAfter(d, log[..i + 1]), log[i].r)
    {
      RepliesAreSequential(d, log, i);
    }
  }

  /** The call that returned at `j` began at `h`, took effect at `p`, and returned the reply it got there. */
  ghost predicate TookEffectAt<K(!new), V(!new)>(d: Deployment<K, V>, log: Log<K, V>, j: nat, h: nat, p: nat) {
    CallSpan(Service(d), log, j, h, [p]) && h < p < j && log[p].Run? && log[j].rs == [log[p].r]
  }

  /** In every reachable state of a deployed map, set or multimap: the log is that of one ordinary map, every shard
      holds exactly the keys that hash to it, and each completed call took effect between its call and its return. */
  lemma UniformContainersAreOneMap<K(!new), V(!new)>(d: Deployment<K, V>, s: State<map<K, V>, Op<K, V>, Reply<K, V>>)
    requires forall k :: WellRouted(d, k)
    requires Reachable(Service(d), s)
    ensures OrdinaryReplies(d, s.log)
    ensures |s.shards| == d.servers
    ensures forall i: nat, k :: i < d.servers ==> (k in s.shards[i] <==> k in MapAfter(d, s.log) && d.putRoute(k) == i)
    ensures forall i: nat, k :: i < d.servers && k in s.shards[i] ==> s.shards[i][k] == MapAfter(d, s.log)[k]
    ensures forall j: nat :: j < |s.log| && s.log[j].Return? && Keyed(s.log[j].o) ==>
              exists h: nat, p: nat :: TookEffectAt(d, s.log, j, h, p)
  {
    ReachableInv(Service(d), s);
    WellRoutedIsOrdinary(d, s.log);
    AlwaysSharded(d, s.log);
    forall i: nat, k | i < d.servers
      ensures k in s.shards[i] <==> k in MapAfter(d, s.log) && d.putRoute(k) == i
      ensures k in s.shards[i] ==> s.shards[i][k] == MapAfter(d, s.log)[k]
    {
      assert s.shards[i] == ShardAfter(Service(d), s.log, i) == Part(d, MapAfter(d, s.log), i);
    }
    forall j: nat | j < |s.log| && s.log[j].Return? && Keyed(s.log[j].o)
      ensures exists h: nat, p: nat :: TookEffectAt(d, s.log, j, h, p)
    {
      var h, p := Linearizable(d, s.log, j);
      assert TookEffectAt(d, s.log, j, h, p);
    }
  }

  lemma UniformIsWellRouted<K(!new), V>(kind: Kind<K>, hash: K -> nat, n: nat, workers: nat, home: nat -> ServerIndex,
                                        onNode: nat -> bool, noKey: K, noValue: V)
    requires n >= 1
    ensures forall k :: WellRouted(Uniform(kind, hash, n, workers, home, onNode, noKey, noValue), k)
  {
  }

  /** Every GetAllData or Contains that has returned in a reachable state is weakly consistent: only pairs held during
      the call, no key twice up to 65536 servers, and, from GetAllData, every key that was there throughout. */
  lemma ScansOfReachableStates<K(!new), V(!new)>(d: Deployment<K, V>, s: State<map<K, V>, Op<K, V>, Reply<K, V>>,
                                                 j: nat)
    returns (h: nat, ps: seq<nat>)
    requires Reachable(Service(d), s) && GoodHomes(d.home, d.servers)
    requires j < |s.log| && s.log[j].Return? && IsScan(s.log[j].o)
    ensures Scan(d, s.log, j, h, ps)
    ensures WeaklyConsistent(d, s.log, j, h)
  {
    ReachableInv(Service(d), s);
    h, ps := ReturnAnswersOneCall(Service(d), s.log, j);
    ScanIsWeaklyConsistent(d, s.log, j, h, ps);
  }

  // ---------- unordered_map ----------

  /** The container is an ordinary map in every run. */
  ghost predicate IsOrdinary<K(!new), V(!new)>(d: Deployment<K, V>) {
    forall s :: Reachable(Service(d), s) ==> OrdinaryReplies(d, s.log)
  }

  /** A container without pops is an ordinary map exactly when every key is put and looked up on the same server. */
  lemma OrdinaryIffWellRouted<K(!new), V(!new)>(d: Deployment<K, V>)
    requires !d.kind.OrderedSet? && d.workers >= 1
    requires forall k :: d.putRoute(k) < d.servers && d.getRoute(k) < d.servers
    ensures IsOrdinary(d) <==> forall k :: WellRouted(d, k)
  {
    if forall k :: WellRouted(d, k) {
      forall s | Reachable(Service(d), s) ensures OrdinaryReplies(d, s.log) {
        ReachableInv(Service(d), s);
        WellRoutedIsOrdinary(d, s.log);
      }
    }
    if k :| !WellRouted(d, k) {
      var s := LostEntry(d, k, d.noValue);
    }
  }

  /** For one hash function: exactly when the two routes agree on the hash of every key. */
  lemma UnorderedHashIsOrdinaryIff<K(!new), V(!new)>(hash: K -> nat, n: nat, workers: nat, home: nat -> ServerIndex,
                                                     onNode: nat -> bool, noKey: K, noValue: V)
    requires n >= 1 && workers >= 1
    ensures IsOrdinary(Unordered(hash, n, workers, home, onNode, noKey, noValue)) <==>
            forall k :: CastThenMod(hash(k), n) == ModThenCast(hash(k), n)
  {
    var d := Unordered(hash, n, workers, home, onNode, noKey, noValue);
    OrdinaryIffWellRouted(d);
    forall k ensures WellRouted(d, k) <==> CastThenMod(hash(k), n) == ModThenCast(hash(k), n) {
    }
  }

  /** unordered_map with these servers is an ordinary map, in every run and for every hash function. */
  ghost predicate AlwaysOrdinary<K(!new), V(!new)>(n: nat, workers: nat, home: nat -> ServerIndex,
                                                   onNode: nat -> bool, noKey: K, noValue: V)
    requires n >= 1
  {
    forall hash: K -> nat :: HashFunction(hash) ==>
      IsOrdinary(Unordered<K, V>(hash, n, workers, home, onNode, noKey, noValue))
  }

  /** unordered_map behaves as an ordinary map, whatever the hash function and the run, exactly when one of
      num_servers and 65536 divides the other; up to 65536 servers, exactly for the powers of two. */
  lemma UnorderedMapIsOrdinaryIff<K(!new), V(!new)>(n: nat, workers: nat, home: nat -> ServerIndex,
                                                    onNode: nat -> bool, noKey: K, noValue: V)
    requires ServerCount(n) && workers >= 1
    ensures AlwaysOrdinary<K, V>(n, workers, home, onNode, noKey, noValue) <==>
            Divides(n, TWO16) || Divides(TWO16, n)
    ensures n <= TWO16 ==> (AlwaysOrdinary<K, V>(n, workers, home, onNode, noKey, noValue) <==> PowerOfTwo(n))
  {
    RoutesAlwaysAgreeIff(n);
    if n <= TWO16 { RoutesAgreeForPowersOfTwo(n); }
    if AlwaysAgree(n) {
      forall hash: K -> nat | HashFunction(hash)
        ensures IsOrdinary(Unordered<K, V>(hash, n, workers, home, onNode, noKey, noValue))
      {
        forall k ensures CastThenMod(hash(k), n) == ModThenCast(hash(k), n) {
          assert HashValue(hash(k));
        }
        UnorderedHashIsOrdinaryIff<K, V>(hash, n, workers, home, onNode, noKey, noValue);
      }
    } else {
      var h: nat :| HashValue(h) && CastThenMod(h, n) != ModThenCast(h, n);
      var hash: K -> nat := _ => h;
      UnorderedHashIsOrdinaryIff<K, V>(hash, n, workers, home, onNode, noKey, noValue);
      assert HashFunction(hash) && CastThenMod(hash(noKey), n) != ModThenCast(hash(noKey), n);
    }
  }

  /** A run in which one client puts a key, and then asks for it in vain: no ordinary map does that. */
  lemma LostEntry<K(!new), V(!new)>(d: Deployment<K, V>, k: K, v: V)
    returns (s: State<map<K, V>, Op<K, V>, Reply<K, V>>)
    requires !d.kind.OrderedSet? && d.workers >= 1
    requires d.putRoute(k) < d.servers && d.getRoute(k) < d.servers && !WellRouted(d, k)
    ensures Reachable(Service(d), s) && |s.log| == 6
    ensures s.log[2] == Return(0, Put(k, v), [Flag(true)]) && s.log[5] == Return(0, Get(k), [Pair(false, d.noValue)])
    ensures !OrdinaryReplies(d, s.log)
  {
    s := PutThenGetElsewhere(d, k, v);
    ReachableInv(Service(d), s);
    PrefixWellFormed(Service(d), s.log, 4);
    MisroutedKeyStays(d, s.log[..4], 1, k);
    assert s.log[4].o == Get(k);
  }

  lemma LostPut<K(!new), V(!new)>(hash: K -> nat, n: nat, workers: nat, home: nat -> ServerIndex, onNode: nat -> bool,
                                  noKey: K, noValue: V, k: K, v: V)
    returns (s: State<map<K, V>, Op<K, V>, Reply<K, V>>)
    requires n >= 1 && workers >= 1 && CastThenMod(hash(k), n) != ModThenCast(hash(k), n)
    ensures Reachable(Service(Unordered(hash, n, workers, home, onNode, noKey, noValue)), s)
    ensures |s.log| == 6
    ensures s.log[2] == Return(0, Put(k, v), [Flag(true)]) && s.log[5] == Return(0, Get(k), [Pair(false, noValue)])
    ensures !OrdinaryReplies(Unordered(hash, n, workers, home, onNode, noKey, noValue), s.log)
  {
    s := LostEntry(Unordered(hash, n, workers, home, onNode, noKey, noValue), k, v);
  }

  lemma PutThenGetElsewhere<K(!new), V(!new)>(d: Deployment<K, V>, k: K, v: V)
    returns (s: State<map<K, V>, Op<K, V>, Reply<K, V>>)
    requires d.workers >= 1 && d.putRoute(k) < d.servers && d.getRoute(k) < d.servers && d.putRoute(k) != d.getRoute(k)
    ensures Reachable(Service(d), s)
    ensures |s.log| == 6
    ensures s.log[1].Run? && s.log[1].o == Put(k, v) && s.log[4].Run? && s.log[4].o == Get(k) &&
            s.log[4].r == Pair(false, d.noValue)
    ensures s.log[2] == Return(0, Put(k, v), [Flag(true)]) && s.log[5] == Return(0, Get(k), [Pair(false, d.noValue)])
  {
    var cfg := Service(d);
    var s0, xs, s1 := PutAlone(d, k, v);
    var g := d.getRoute(k);
    assert cfg.plan(0, Get(k)) == [g];
    var ys, s2 := SoloCall(cfg, s1, 0, Get(k), map[], Pair(false, d.noValue));
    RunsJoin(cfg, s0, xs, s1, ys, s2);
    s := s2;
  }

  lemma PutAlone<K(!new), V(!new)>(d: Deployment<K, V>, k: K, v: V)
    returns (s0: State<map<K, V>, Op<K, V>, Reply<K, V>>, steps: seq<Step<map<K, V>, Op<K, V>, Reply<K, V>>>,
             s: State<map<K, V>, Op<K, V>, Reply<K, V>>)
    requires d.workers >= 1 && d.putRoute(k) < d.servers
    ensures Init(Service(d), s0) && Runs(Service(d), s0, steps, s) && Inv(Service(d), s)
    ensures s.clients == [Idle] && |s.shards| == d.servers && s.shards[d.putRoute(k)] == map[k := v]
    ensures forall i :: 0 <= i < d.servers && i != d.putRoute(k) ==> s.shards[i] == map[]
    ensures |s.log| == 3 && s.log[1].Run? && s.log[1].o == Put(k, v) && s.log[2] == Return(0, Put(k, v), [Flag(true)])
  {
    var cfg := Service(d);
    s0 := State(seq(d.servers, _ => map[]), seq(d.servers, _ => None), [Idle], []);
    InitInv(cfg, s0);
    assert cfg.plan(0, Put(k, v)) == [d.putRoute(k)];
    steps, s := SoloCall(cfg, s0, 0, Put(k, v), map[k := v], Flag(true));
    RunInv(cfg, s0, steps, s);
    assert s.clients == [Idle];
  }

  // ---------- runs in which a scan goes wrong ----------

  /** One server with contents `m`, and nobody active: a client scans. */
  lemma ScanOfOneServer<K(!new), V(!new)>(d: Deployment<K, V>, s: MapState<K, V>, m: map<K, V>, o: Op<K, V>,
                                          xs: seq<(K, V)>)
    returns (steps: seq<Step<map<K, V>, Op<K, V>, Reply<K, V>>>, s': MapState<K, V>)
    requires d.servers == 1 && d.workers >= 1 && d.home(0) == 0 && IsScan(o) && Offers(d.kind, o)
    requires Inv(Service(d), s) && s.clients == [Idle] && s.shards == [m]
    requires Body(d.kind, d.noKey, d.noValue, o, m, m, Listed(xs))
    ensures Runs(Service(d), s, steps, s') && s'.shards == [m]
    ensures s'.log == s.log + [Invoke(0, o), Run(0, o, 0, m, m, Listed(xs)), Return(0, o, [Listed(xs)])]
  {
    assert Service(d).plan(0, o) == [0] by {
      assert Others(0, 0) == [] && Others(0, 1) == [];
    }
    steps, s' := SoloCall(Service(d), s, 0, o, m, Listed(xs));
  }

  /** One server: a client puts an entry, and then scans. */
  lemma PutThenScan<K(!new), V(!new)>(d: Deployment<K, V>, k: K, v: V, o: Op<K, V>, xs: seq<(K, V)>)
    returns (s: MapState<K, V>)
    requires d.servers == 1 && d.workers >= 1 && d.putRoute(k) == 0 && d.home(0) == 0 && IsScan(o) && Offers(d.kind, o)
    requires Body(d.kind, d.noKey, d.noValue, o, map[k := v], map[k := v], Listed(xs))
    ensures Reachable(Service(d), s) && |s.log| == 6
    ensures s.log[2] == Return(0, Put(k, v), [Flag(true)]) && s.log[3] == Invoke(0, o) &&
            s.log[5] == Return(0, o, [Listed(xs)])
  {
    var s0, before, s1 := PutAlone(d, k, v);
    assert s1.shards == [map[k := v]];
    var more;
    more, s := ScanOfOneServer(d, s1, map[k := v], o, xs);
    RunsJoin(Service(d), s0, before, s1, more, s);
  }

  /** Contains of a map misses its only entry when that is the key asked for. */
  lemma MapContainsMisses<K(!new), V(!new)>(d: Deployment<K, V>, k: K, v: V)
    returns (s: State<map<K, V>, Op<K, V>, Reply<K, V>>)
    requires d.kind.OrderedMap? && StrictTotalOrder(d.kind.less)
    requires d.servers == 1 && d.workers >= 1 && d.putRoute(k) == 0 && d.home(0) == 0
    ensures Reachable(Service(d), s) && |s.log| == 6
    ensures s.log[2] == Return(0, Put(k, v), [Flag(true)]) && s.log[5] == Return(0, Contains(k, k), [Listed([])])
    ensures InRange(d.kind.less, k, k, k)
  {
    assert RangeAnswer(d.kind, map[k := v], k, k) == map[];
    s := PutThenScan(d, k, v, Contains(k, k), []);
  }

  /** Contains of a set returns its only member although that is above the range. */
  lemma SetContainsTooMuch<K(!new), V(!new)>(d: Deployment<K, V>, k: K, v: V, lo: K, hi: K)
    returns (s: State<map<K, V>, Op<K, V>, Reply<K, V>>)
    requires d.kind.OrderedSet? && StrictTotalOrder(d.kind.less) && d.kind.less(lo, hi) && d.kind.less(hi, k)
    requires d.servers == 1 && d.workers >= 1 && d.putRoute(k) == 0 && d.home(0) == 0
    ensures Reachable(Service(d), s) && |s.log| == 6
    ensures s.log[2] == Return(0, Put(k, v), [Flag(true)]) &&
            s.log[5] == Return(0, Contains(lo, hi), [Listed([(k, v)])])
    ensures !InRange(d.kind.less, k, lo, hi)
  {
    assert d.kind.less(lo, k);
    assert RangeAnswer(d.kind, map[k := v], lo, hi) == map[k := v];
    assert [(k, v)][0].0 == k;
    s := PutThenScan(d, k, v, Contains(lo, hi), [(k, v)]);
  }

  /** Contains(key) of a multimap returns its only entry, whatever its key. */
  lemma MultimapContainsOther<K(!new), V(!new)>(d: Deployment<K, V>, k: K, v: V, key: K)
    returns (s: State<map<K, V>, Op<K, V>, Reply<K, V>>)
    requires d.kind.Multi? && StrictTotalOrder(d.kind.less) && IsEquality(d.kind.covers) && k != key
    requires d.servers == 1 && d.workers >= 1 && d.putRoute(k) == 0 && d.home(0) == 0
    ensures Reachable(Service(d), s) && |s.log| == 6
    ensures s.log[2] == Return(0, Put(k, v), [Flag(true)]) && s.log[5] == Return(0, Matching(key), [Listed([(k, v)])])
    ensures MatchingRun(d.kind.less, d.kind.covers, [(k, v)], key) == []
  {
    assert [(k, v)][0].0 == k;
    assert SortedListing(d.kind.less, [(k, v)], map[k := v]);
    assert MultiScan(d.kind.less, d.kind.covers, [(k, v)], key) == [(k, v)];
    EqualityRun(d.kind.less, d.kind.covers, [(k, v)], key);
    s := PutThenScan(d, k, v, Matching(key), [(k, v)]);
  }

  /** The map after these entries are put one after the other. */
  function PutAll<K, V>(xs: seq<(K, V)>): map<K, V> {
    if xs == [] then map[] else PutAll(xs[..|xs| - 1])[xs[|xs| - 1].0 := xs[|xs| - 1].1]
  }

  /** A server can come to hold any entries. */
  lemma {:induction false} EntriesPut<K(!new), V(!new)>(d: Deployment<K, V>, xs: seq<(K, V)>)
    returns (s0: State<map<K, V>, Op<K, V>, Reply<K, V>>, steps: seq<Step<map<K, V>, Op<K, V>, Reply<K, V>>>,
             s: State<map<K, V>, Op<K, V>, Reply<K, V>>)
    requires d.servers == 1 && d.workers >= 1 && forall i :: 0 <= i < |xs| ==> d.putRoute(xs[i].0) == 0
    ensures Init(Service(d), s0) && Runs(Service(d), s0, steps, s) && Inv(Service(d), s)
    ensures s.clients == [Idle] && s.shards == [PutAll(xs)]
    decreases |xs|
  {
    var cfg := Service(d);
    if xs == [] {
      s0 := State([map[]], [None], [Idle], []);
      InitInv(cfg, s0);
      steps, s := [], s0;
    } else {
      var x := xs[|xs| - 1];
      var before, s1;
      s0, before, s1 := EntriesPut(d, xs[..|xs| - 1]);
      assert cfg.plan(0, Put(x.0, x.1)) == [0];
      var more;
      more, s := SoloCall(cfg, s1, 0, Put(x.0, x.1), PutAll(xs), Flag(true));
      RunInv(cfg, s1, more, s);
      RunsJoin(cfg, s0, before, s1, more, s);
      steps := before + more;
      assert s.clients == [Idle];
    }
  }

  lemma EntriesThenScan<K(!new), V(!new)>(d: Deployment<K, V>, xs: seq<(K, V)>, o: Op<K, V>, ys: seq<(K, V)>)
    returns (s: State<map<K, V>, Op<K, V>, Reply<K, V>>)
    requires d.servers == 1 && d.workers >= 1 && forall i :: 0 <= i < |xs| ==> d.putRoute(xs[i].0) == 0
    requires d.home(0) == 0 && IsScan(o) && Offers(d.kind, o)
    requires Body(d.kind, d.noKey, d.noValue, o, PutAll(xs), PutAll(xs), Listed(ys))
    ensures Reachable(Service(d), s) && |s.shards| == 1 && s.shards[0] == PutAll(xs)
    ensures s.log != [] && s.log[|s.log| - 1] == Return(0, o, [Listed(ys)])
  {
    var s0, before, s1 := EntriesPut(d, xs);
    var more;
    more, s := ScanOfOneServer(d, s1, PutAll(xs), o, ys);
    RunsJoin(Service(d), s0, before, s1, more, s);
  }

  /** Contains(key) of a multimap of intervals misses the interval that contains the wanted one. */
  lemma MultimapContainsMisses<V(!new)>(d: Deployment<Interval, V>, v: V)
    returns (s: State<map<Interval, V>, Op<Interval, V>, Reply<Interval, V>>)
    requires d.kind == Multi(Earlier(), Encloses()) && d.servers == 1 && d.workers >= 1 && d.home(0) == 0
    requires forall k :: d.putRoute(k) == 0
    ensures Reachable(Service(d), s) && |s.shards| == 1 && (20, 30) in s.shards[0]
    ensures Matches(Encloses(), (25, 26), (20, 30))
    ensures s.log != [] && s.log[|s.log| - 1] == Return(0, Matching((25, 26)), [Listed([])])
  {
    var xs: seq<(Interval, V)> := [((0, 10), v), ((20, 30), v), ((40, 50), v)];
    EnclosingIntervalMissed(v);
    PutAllLists(xs);
    assert SortedListing(d.kind.less, xs, PutAll(xs));
    assert MultiScan(d.kind.less, d.kind.covers, xs, (25, 26)) == [];
    assert xs[1].0 in PutAll(xs);
    s := EntriesThenScan(d, xs, Matching((25, 26)), []);
  }

  lemma {:induction false} PutAllLists<K(!new), V(!new)>(xs: seq<(K, V)>)
    requires DistinctKeys(xs)
    ensures Listing(xs, PutAll(xs))
    decreases |xs|
  {
    if xs != [] {
      var n := |xs| - 1;
      var front := xs[..n];
      PutAllLists(front);
      forall k | k in PutAll(xs) ensures HasKey(xs, k) {
        if k == xs[n].0 {
          assert xs[n].0 == k;
        } else {
          assert HasKey(front, k);
          var i :| 0 <= i < n && front[i].0 == k;
          assert xs[i].0 == k;
        }
      }
      forall i | 0 <= i < |xs| ensures xs[i].0 in PutAll(xs) && PutAll(xs)[xs[i].0] == xs[i].1 {
        assert i < n ==> front[i] == xs[i];
      }
    }
  }

  /** What the visits of GetAllData answer when the container holds just the pair `x`, on this server. */
  function RepliesOf<K, V>(order: seq<nat>, server: nat, x: (K, V)): (rs: seq<Reply<K, V>>)
    ensures |rs| == |order|
    ensures forall i :: 0 <= i < |rs| ==> rs[i] == Listed(if order[i] == server then [x] else [])
  {
    seq(|order|, i requires 0 <= i < |order| => Listed(if order[i] == server then [x] else []))
  }

  lemma OnePairReads<K(!new), V(!new)>(d: Deployment<K, V>, k: K, v: V, shards: seq<map<K, V>>)
    requires d.home(0) < d.servers && |shards| == d.servers && d.putRoute(k) < d.servers
    requires forall i :: 0 <= i < |shards| ==> shards[i] == if i == d.putRoute(k) then map[k := v] else map[]
    ensures Reads(Service(d), shards, 0, GetAllData, RepliesOf(VisitOrder(d.home(0), d.servers), d.putRoute(k), (k, v)))
  {
    var order := VisitOrder(d.home(0), d.servers);
    var rs := RepliesOf(order, d.putRoute(k), (k, v));
    VisitsAre(d.home(0), d.servers);
    forall i | 0 <= i < |rs|
      ensures order[i] < d.servers
      ensures Body(d.kind, d.noKey, d.noValue, GetAllData, shards[order[i]], shards[order[i]], rs[i])
    {
      VisitAtIndex(d.home(0), d.servers, i);
      assert order[i] == d.putRoute(k) ==> rs[i].xs[0].0 == k;
    }
  }

  /** A client puts an entry, and then calls GetAllData. */
  lemma OnePairScanned<K(!new), V(!new)>(d: Deployment<K, V>, k: K, v: V)
    returns (s: State<map<K, V>, Op<K, V>, Reply<K, V>>)
    requires d.workers >= 1 && d.home(0) < d.servers && d.putRoute(k) < d.servers
    ensures Reachable(Service(d), s) && s.log != []
    ensures s.log[|s.log| - 1] ==
            Return(0, GetAllData, RepliesOf(VisitOrder(d.home(0), d.servers), d.putRoute(k), (k, v)))
  {
    var s0, before, s1 := PutAlone(d, k, v);
    OnePairReads(d, k, v, s1.shards);
    var more;
    more, s := SoloReadCall(Service(d), s1, 0, GetAllData,
                            RepliesOf(VisitOrder(d.home(0), d.servers), d.putRoute(k), (k, v)));
    RunsJoin(Service(d), s0, before, s1, more, s);
  }

  /** With more than 65536 servers, GetAllData lists a key of a server that is visited again twice. */
  lemma ListedTwice<K(!new), V(!new)>(d: Deployment<K, V>, k: K, v: V)
    returns (s: State<map<K, V>, Op<K, V>, Reply<K, V>>, j: nat)
    requires d.workers >= 1 && d.home(0) < d.servers && d.putRoute(k) + TWO16 < d.servers
    ensures Reachable(Service(d), s) && j < |s.log| && s.log[j].Return? && s.log[j].c == 0 && s.log[j].o == GetAllData
    ensures Twice(Collected(s.log[j].rs), k)
  {
    s := OnePairScanned(d, k, v);
    j := |s.log| - 1;
    RepliesTwice(d, k, v);
  }

  lemma RepliesTwice<K(!new), V(!new)>(d: Deployment<K, V>, k: K, v: V)
    requires d.home(0) < d.servers && d.putRoute(k) + TWO16 < d.servers
    ensures Twice(Collected(RepliesOf(VisitOrder(d.home(0), d.servers), d.putRoute(k), (k, v))), k)
  {
    var rs := RepliesOf(VisitOrder(d.home(0), d.servers), d.putRoute(k), (k, v));
    var a, b := FarIsRepeated(d.home(0), d.servers, d.putRoute(k));
    assert rs[a].xs[0].0 == k && rs[b].xs[0].0 == k;
    RepeatedIsTwice(rs, a, b, k);
  }
}
