/**
 The distributed containers against one sequential map, over the log of any run.

 A key is well routed when Put and Get hash it to the same server.  In map, multimap and set every key is; in
 unordered_map only some are (module Routing).  On well-routed keys the container is an ordinary map.  A key that is
 not well routed can be stored, but never found or erased.
 */
module MapHistory {
  import opened RpcMachine
  import opened RpcHistory
  import opened RpcCalls
  import opened Ordering
  import opened MapService

  type Log<K, V> = seq<Event<map<K, V>, Op<K, V>, Reply<K, V>>>

  predicate WellRouted<K, V>(d: Deployment<K, V>, k: K) {
    d.putRoute(k) == d.getRoute(k)
  }

  predicate Keyed<K, V>(o: Op<K, V>) {
    o.Put? || o.Get? || o.Erase?
  }

  /** The sequential object: what Put, Get and Erase do to one map, and their replies. */
  function Sequential<K, V>(d: Deployment<K, V>, m: map<K, V>, o: Op<K, V>): (map<K, V>, Reply<K, V>)
    requires Keyed(o)
  {
    match o
    case Put(k, v) => (m[k := v], Flag(true))
    case Get(k) => (m, if WellRouted(d, k) && k in m then Pair(true, m[k]) else Pair(false, d.noValue))
    case Erase(k) =>
      if WellRouted(d, k) then (m - {k}, Pair(k in m, d.noValue)) else (m, Pair(false, d.noValue))
  }

  /** The map after the calls whose effects `log` records, in the order of their effects. */
  ghost function MapAfter<K, V>(d: Deployment<K, V>, log: Log<K, V>): map<K, V> {
    if log == [] then map[]
    else
      var m := MapAfter(d, log[..|log| - 1]);
      var e := log[|log| - 1];
      if !e.Run? then m
      else if Keyed(e.o) then Sequential(d, m, e.o).0
      else if e.o.PopFirst? && e.r.First? && e.r.ok then m - {e.r.key}
      else m
  }

  /** The entries of `m` that are stored on one server. */
  ghost function Part<K, V>(d: Deployment<K, V>, m: map<K, V>, server: nat): map<K, V> {
    map k | k in m && d.putRoute(k) == server :: m[k]
  }

  /** Every shard holds exactly the part of the map that Put routes to it. */
  ghost predicate Sharded<K(!new), V(!new)>(d: Deployment<K, V>, log: Log<K, V>) {
    && (forall s: nat :: s < d.servers ==> ShardAfter(Service(d), log, s) == Part(d, MapAfter(d, log), s))
    && (forall k :: k in MapAfter(d, log) ==> d.putRoute(k) < d.servers)
  }

  lemma {:induction false} AlwaysSharded<K(!new), V(!new)>(d: Deployment<K, V>, log: Log<K, V>)
    requires WellFormed(Service(d), log)
    ensures Sharded(d, log)
    decreases |log|
  {
    if log != [] {
      var n := |log| - 1;
      PrefixWellFormed(Service(d), log, n);
      AlwaysSharded(d, log[..n]);
      if log[n].Run? {
        RunsOnPlan(Service(d), log, n);
        ShardedStep(d, log);
      }
    }
  }

  lemma ShardedStep<K(!new), V(!new)>(d: Deployment<K, V>, log: Log<K, V>)
    requires log != [] && Sharded(d, log[..|log| - 1])
    requires var e := log[|log| - 1]; e.Run? && e.at in Plan(d, e.c, e.o) && LegalEvent(Service(d), log[..|log| - 1], e)
    ensures Sharded(d, log)
  {
    var e := log[|log| - 1];
    var before := MapAfter(d, log[..|log| - 1]);
    var after := MapAfter(d, log);
    assert e.pre == Part(d, before, e.at);
    assert Body(d.kind, d.noKey, d.noValue, e.o, e.pre, e.post, e.r);
    forall s: nat | s < d.servers ensures ShardAfter(Service(d), log, s) == Part(d, after, s) {
      assert ShardAfter(Service(d), log[..|log| - 1], s) == Part(d, before, s);
    }
  }

  // ---------- main results ----------

  /** Each Put, Get and Erase replies what the sequential map replies at the moment it takes effect. */
  lemma RepliesAreSequential<K(!new), V(!new)>(d: Deployment<K, V>, log: Log<K, V>, i: nat)
    requires WellFormed(Service(d), log) && i < |log| && log[i].Run? && Keyed(log[i].o)
    ensures Sequential(d, MapAfter(d, log[..i]), log[i].o) == (MapAfter(d, log[..i + 1]), log[i].r)
  {
    PrefixWellFormed(Service(d), log, i);
    AlwaysSharded(d, log[..i]);
    RunsOnPlan(Service(d), log, i);
    assert log[..i + 1][..i] == log[..i];
  }

  /** Linearizability: a completed Put, Get or Erase took effect at one moment `p` between its call `h` and its return
      `j`, and returned what the sequential map answers at that moment. */
  lemma Linearizable<K(!new), V(!new)>(d: Deployment<K, V>, log: Log<K, V>, j: nat) returns (h: nat, p: nat)
    requires WellFormed(Service(d), log) && j < |log| && log[j].Return? && Keyed(log[j].o)
    ensures h < p < j && log[h] == Invoke(log[j].c, log[j].o)
    ensures log[p].Run? && log[p].c == log[j].c && log[p].o == log[j].o
    ensures log[j].rs == [log[p].r]
    ensures Sequential(d, MapAfter(d, log[..p]), log[j].o) == (MapAfter(d, log[..p + 1]), log[j].rs[0])
    ensures CallSpan(Service(d), log, j, h, [p])
  {
    var ps;
    h, ps := ReturnAnswersOneCall(Service(d), log, j);
    p := ps[0];
    assert |ps| == 1 && ps == [p];
    assert VisitAt(Service(d), log[..j][p], log[j].c, log[j].o, 0, log[j].rs[0]);
    RepliesAreSequential(d, log, p);
  }

  /** A key that is not well routed is never found and never erased, whatever was put. */
  lemma MisroutedKeyIsNeverFound<K(!new), V(!new)>(d: Deployment<K, V>, log: Log<K, V>, i: nat)
    requires WellFormed(Service(d), log) && i < |log| && log[i].Run?
    requires (log[i].o.Get? || log[i].o.Erase?) && !WellRouted(d, log[i].o.k)
    ensures log[i].r == Pair(false, d.noValue)
    ensures ShardAfter(Service(d), log[..i + 1], log[i].at) == ShardAfter(Service(d), log[..i], log[i].at)
  {
    RepliesAreSequential(d, log, i);
    PrefixWellFormed(Service(d), log, i);
    PrefixWellFormed(Service(d), log, i + 1);
    AlwaysSharded(d, log[..i]);
    AlwaysSharded(d, log[..i + 1]);
    RunsOnPlan(Service(d), log, i);
  }

  /** Once put, it stays in the container for ever (a set, which can pop, routes every key well). */
  lemma {:induction false} MisroutedKeyStays<K(!new), V(!new)>(d: Deployment<K, V>, log: Log<K, V>, i: nat, k: K)
    requires WellFormed(Service(d), log) && !d.kind.OrderedSet? && !WellRouted(d, k)
    requires i < |log| && log[i].Run? && log[i].o.Put? && log[i].o.k == k
    ensures k in MapAfter(d, log)
    decreases |log|
  {
    var n := |log| - 1;
    if i < n {
      PrefixWellFormed(Service(d), log, n);
      MisroutedKeyStays(d, log[..n], i, k);
      assert LegalEvent(Service(d), log[..n], log[n]);
    }
  }

  /** SeekFirst and PopFirst name the smallest key stored on their server, and PopFirst removes just that one. */
  lemma FirstOfServer<K(!new), V(!new)>(d: Deployment<K, V>, log: Log<K, V>, i: nat)
    requires WellFormed(Service(d), log) && i < |log| && log[i].Run? && (log[i].o.SeekFirst? || log[i].o.PopFirst?)
    ensures log[i].at == log[i].o.server
    ensures FirstOf(d.kind.less, d.noKey, Part(d, MapAfter(d, log[..i]), log[i].at), log[i].r)
    ensures MapAfter(d, log[..i + 1]) ==
            if log[i].o.PopFirst? && log[i].r.ok then MapAfter(d, log[..i]) - {log[i].r.key} else MapAfter(d, log[..i])
  {
    PrefixWellFormed(Service(d), log, i);
    AlwaysSharded(d, log[..i]);
    RunsOnPlan(Service(d), log, i);
    assert log[..i + 1][..i] == log[..i];
  }

  /** The keys of `m` that are stored on one server. */
  ghost function KeysOn<K, V>(d: Deployment<K, V>, m: map<K, V>, server: nat): set<K> {
    set k | k in m && d.putRoute(k) == server
  }

  /** What SeekFirst, PopFirst and Size answer for the keys of a server: the least one, if there is any, or their
      number. */
  ghost predicate AnswersFor<K(!new), V>(d: Deployment<K, V>, keys: set<K>, o: Op<K, V>, r: Reply<K, V>)
    requires d.kind.OrderedSet?
  {
    if o.Size? then r == Count(|keys|)
    else
      && r.First? && (r.ok <==> keys != {})
      && (r.ok ==> r.key in keys && forall k :: k in keys && k != r.key ==> d.kind.less(r.key, k))
      && (!r.ok ==> r.key == d.noKey)
  }

  lemma SetEffect<K(!new), V(!new)>(d: Deployment<K, V>, log: Log<K, V>, p: nat)
    requires WellFormed(Service(d), log) && d.kind.OrderedSet? && p < |log| && log[p].Run?
    requires log[p].o.SeekFirst? || log[p].o.PopFirst? || log[p].o.Size?
    ensures log[p].at == log[p].o.server
    ensures AnswersFor(d, KeysOn(d, MapAfter(d, log[..p]), log[p].at), log[p].o, log[p].r)
    ensures MapAfter(d, log[..p + 1]) ==
            if log[p].o.PopFirst? && log[p].r.ok then MapAfter(d, log[..p]) - {log[p].r.key} else MapAfter(d, log[..p])
  {
    PrefixWellFormed(Service(d), log, p);
    AlwaysSharded(d, log[..p]);
    RunsOnPlan(Service(d), log, p);
    assert log[p].pre.Keys == KeysOn(d, MapAfter(d, log[..p]), log[p].at) by {
      assert log[p].pre == Part(d, MapAfter(d, log[..p]), log[p].at);
    }
    assert log[..p + 1][..p] == log[..p];
  }

  /** A completed SeekFirst, PopFirst or Size took effect at one moment `p` between its call and its return, on the
      server it names, and answered for the keys that the set held there at that moment. */
  lemma SetCallAnswers<K(!new), V(!new)>(d: Deployment<K, V>, log: Log<K, V>, j: nat) returns (h: nat, p: nat)
    requires WellFormed(Service(d), log) && d.kind.OrderedSet? && j < |log| && log[j].Return?
    requires log[j].o.SeekFirst? || log[j].o.PopFirst? || log[j].o.Size?
    ensures h < p < j && log[h] == Invoke(log[j].c, log[j].o)
    ensures log[p].Run? && log[p].c == log[j].c && log[p].o == log[j].o && log[p].at == log[j].o.server
    ensures |log[j].rs| == 1 && log[j].rs[0] == log[p].r
    ensures AnswersFor(d, KeysOn(d, MapAfter(d, log[..p]), log[j].o.server), log[j].o, log[j].rs[0])
    ensures MapAfter(d, log[..p + 1]) ==
            if log[j].o.PopFirst? && log[j].rs[0].ok then MapAfter(d, log[..p]) - {log[j].rs[0].key}
            else MapAfter(d, log[..p])
  {
    var ps;
    h, ps := ReturnAnswersOneCall(Service(d), log, j);
    p := ps[0];
    assert |ps| == 1;
    assert VisitAt(Service(d), log[..j][p], log[j].c, log[j].o, 0, log[j].rs[0]);
    SetEffect(d, log, p);
  }

  // ---------- popping a set ----------

  /** No Put reaches this server between the events `i` and `j`. */
  ghost predicate NoPuts<K, V>(log: Log<K, V>, server: nat, i: nat, j: nat)
    requires j <= |log|
  {
    forall x :: i < x < j && log[x].Run? && log[x].at == server ==> !log[x].o.Put?
  }

  /** Only a Put on its server brings a key in. */
  lemma NoNewKey<K(!new), V(!new)>(d: Deployment<K, V>, log: Log<K, V>, p: nat, k: K)
    requires WellFormed(Service(d), log) && p < |log| && k in MapAfter(d, log[..p + 1])
    requires log[p].Run? && log[p].at == d.putRoute(k) ==> !log[p].o.Put?
    ensures k in MapAfter(d, log[..p])
  {
    assert log[..p + 1][..p] == log[..p];
    if log[p].Run? {
      RunsOnPlan(Service(d), log, p);
    }
  }

  ghost predicate RestLarger<K(!new), V>(d: Deployment<K, V>, log: Log<K, V>, server: nat, key: K)
    requires !d.kind.Hashed?
  {
    forall k :: k in MapAfter(d, log) && d.putRoute(k) == server ==> d.kind.less(key, k)
  }

  lemma {:induction false} RestIsLarger<K(!new), V(!new)>(d: Deployment<K, V>, log: Log<K, V>, server: nat, i: nat,
                                                          j: nat)
    requires WellFormed(Service(d), log) && d.kind.OrderedSet? && i < j <= |log|
    requires log[i].Run? && log[i].o == PopFirst(server) && log[i].r.First? && log[i].r.ok
    requires NoPuts(log, server, i, j)
    ensures RestLarger(d, log[..j], server, log[i].r.key)
    decreases j
  {
    if j == i + 1 {
      FirstOfServer(d, log, i);
    } else {
      RestIsLarger(d, log, server, i, j - 1);
      forall k | k in MapAfter(d, log[..j]) && d.putRoute(k) == server ensures d.kind.less(log[i].r.key, k) {
        NoNewKey(d, log, j - 1, k);
      }
    }
  }

  /** While nothing is put, the keys popped from a server come in strictly ascending order, so none twice, whoever
      pops them. */
  lemma PopsAscend<K(!new), V(!new)>(d: Deployment<K, V>, log: Log<K, V>, server: nat, i: nat, j: nat)
    requires WellFormed(Service(d), log) && d.kind.OrderedSet? && i < j < |log|
    requires log[i].Run? && log[i].o == PopFirst(server) && log[i].r.First? && log[i].r.ok
    requires log[j].Run? && log[j].o == PopFirst(server) && log[j].r.First? && log[j].r.ok
    requires NoPuts(log, server, i, j)
    ensures d.kind.less(log[i].r.key, log[j].r.key)
  {
    RestIsLarger(d, log, server, i, j);
    FirstOfServer(d, log, j);
    assert log[j].r.key in Part(d, MapAfter(d, log[..j]), server).Keys;
  }
}
