/**
 basket::global_sequence as an instance of the RPC machine: a 64-bit counter per server.
 */
module SequenceService {
  import opened RpcMachine
  import opened RpcHistory
  import opened RpcCalls
  import opened RpcProgress
  import opened Routing

  datatype Op =
    | GetNextSequence                      // of the client's own server
    | GetNextSequenceServer(server: nat)

  /** `return ++*value` */
  ghost predicate Body(pre: nat, post: nat, r: nat) {
    post == (pre + 1) % TWO64 && r == post
  }

  ghost function Service(servers: nat, workers: nat, home: nat -> nat, onNode: nat -> bool): Config<nat, Op, nat> {
    Config(servers, workers, home, onNode,
           (c, o: Op) => [if o.GetNextSequence? then home(c) else o.server],
           o => true, o => true, 0,
           (o, pre, post, r) => Body(pre, post, r))
  }

  type Log = seq<Event<nat, Op, nat>>

  /** The numbers a server handed out, in the order in which its mutex was taken. */
  function Results(log: Log, server: nat): seq<nat> {
    if log == [] then []
    else
      var e := log[|log| - 1];
      Results(log[..|log| - 1], server) + if e.Run? && e.at == server then [e.r] else []
  }

  /** The k-th number a server hands out is k, modulo 2^64. */
  lemma {:induction false} ResultsCount(cfg: Config<nat, Op, nat>, log: Log, server: nat)
    requires cfg == Service(cfg.servers, cfg.workers, cfg.home, cfg.onNode) && WellFormed(cfg, log)
    ensures ShardAfter(cfg, log, server) == |Results(log, server)| % TWO64
    ensures forall k :: 0 <= k < |Results(log, server)| ==> Results(log, server)[k] == (k + 1) % TWO64
    decreases |log|
  {
    if log != [] {
      var n := |log| - 1;
      PrefixWellFormed(cfg, log, n);
      ResultsCount(cfg, log[..n], server);
      assert LegalEvent(cfg, log[..n], log[n]);
      Successor(|Results(log[..n], server)|);
    }
  }

  lemma Successor(k: nat)
    ensures (k % TWO64 + 1) % TWO64 == (k + 1) % TWO64
  {
  }

  lemma BelowTwo64(k: nat)
    requires k < TWO64
    ensures k % TWO64 == k
  {
  }

  /** After fewer than 2^64 calls on a server, its results are exactly 1, 2, ..., k in the order of the calls'
      effects. */
  lemma ResultsAreOneToK(cfg: Config<nat, Op, nat>, s: State<nat, Op, nat>, server: nat)
    requires cfg == Service(cfg.servers, cfg.workers, cfg.home, cfg.onNode) && Reachable(cfg, s) && server < cfg.servers
    requires |Results(s.log, server)| < TWO64
    ensures Results(s.log, server) == seq(|Results(s.log, server)|, k => k + 1)
    ensures |s.shards| == cfg.servers && s.shards[server] == |Results(s.log, server)|
  {
    ReachableInv(cfg, s);
    ResultsCount(cfg, s.log, server);
    var xs := Results(s.log, server);
    forall k: nat | k < |xs| ensures xs[k] == k + 1 {
      BelowTwo64(k + 1);
    }
    BelowTwo64(|xs|);
  }

  ghost predicate AllDistinct(xs: seq<nat>) {
    forall i, j :: 0 <= i < j < |xs| ==> xs[i] != xs[j]
  }

  /** No number is handed out twice exactly as long as there were at most 2^64 calls. */
  lemma ResultsDistinctIff(cfg: Config<nat, Op, nat>, log: Log, server: nat)
    requires cfg == Service(cfg.servers, cfg.workers, cfg.home, cfg.onNode) && WellFormed(cfg, log)
    ensures AllDistinct(Results(log, server)) <==> |Results(log, server)| <= TWO64
  {
    ResultsCount(cfg, log, server);
    var xs := Results(log, server);
    if |xs| > TWO64 {
      assert xs[0] == 1 % TWO64 && xs[TWO64] == (TWO64 + 1) % TWO64;
      assert xs[0] == xs[TWO64];
    }
  }

  lemma {:induction false} ResultsPrefix(log: Log, server: nat, n: nat)
    requires n <= |log|
    ensures Results(log[..n], server) <= Results(log, server)
    decreases |log|
  {
    if n == |log| {
      assert log[..n] == log;
    } else {
      var m := |log| - 1;
      assert log[..m][..n] == log[..n];
      ResultsPrefix(log[..m], server, n);
    }
  }

  /** The number a call gets is its place in the order of effects. */
  lemma ResultAt(cfg: Config<nat, Op, nat>, log: Log, i: nat)
    requires cfg == Service(cfg.servers, cfg.workers, cfg.home, cfg.onNode) && WellFormed(cfg, log) && i < |log| &&
             log[i].Run?
    ensures log[i].r == |Results(log[..i + 1], log[i].at)| % TWO64
    ensures |Results(log[..i + 1], log[i].at)| == |Results(log[..i], log[i].at)| + 1
  {
    PrefixWellFormed(cfg, log, i + 1);
    ResultsCount(cfg, log[..i + 1], log[i].at);
    assert log[..i + 1][..i] == log[..i];
  }

  /** Of two calls of one server, the one that takes effect first gets the smaller number, below 2^64 calls. */
  lemma EarlierEffectSmallerNumber(cfg: Config<nat, Op, nat>, log: Log, p: nat, p': nat)
    requires cfg == Service(cfg.servers, cfg.workers, cfg.home, cfg.onNode) && WellFormed(cfg, log)
    requires p < p' < |log| && log[p].Run? && log[p'].Run? && log[p].at == log[p'].at
    requires |Results(log, log[p].at)| < TWO64
    ensures log[p].r < log[p'].r
  {
    ResultAt(cfg, log, p);
    ResultAt(cfg, log, p');
    CountsGrow(log, p, p');
    BelowWrap(|Results(log[..p + 1], log[p].at)|, |Results(log[..p' + 1], log[p].at)|);
  }

  lemma CountsGrow(log: Log, p: nat, p': nat)
    requires p < p' < |log| && log[p'].Run?
    ensures var server := log[p'].at;
            |Results(log[..p + 1], server)| < |Results(log[..p' + 1], server)| <= |Results(log, server)|
  {
    var server := log[p'].at;
    assert log[..p'][..p + 1] == log[..p + 1] && log[..p' + 1][..p'] == log[..p'];
    ResultsPrefix(log[..p'], server, p + 1);
    ResultsPrefix(log, server, p' + 1);
  }

  lemma BelowWrap(a: nat, b: nat)
    requires a < b < TWO64
    ensures a % TWO64 < b % TWO64
  {
  }

  /** GetNextSequence takes the number of the client's own server, GetNextSequenceServer that of the server it names. */
  lemma RunsAtItsServer(cfg: Config<nat, Op, nat>, log: Log, i: nat)
    requires cfg == Service(cfg.servers, cfg.workers, cfg.home, cfg.onNode) && WellFormed(cfg, log)
    requires i < |log| && log[i].Run?
    ensures log[i].o.GetNextSequence? ==> log[i].at == cfg.home(log[i].c)
    ensures log[i].o.GetNextSequenceServer? ==> log[i].at == log[i].o.server
  {
    RunsOnPlan(cfg, log, i);
  }

  /** The server that a call asks for a number. */
  function ServerOf(home: nat -> nat, c: nat, o: Op): nat {
    match o
    case GetNextSequence => home(c)
    case GetNextSequenceServer(server) => server
  }

  /** A completed call took effect at one moment `p` between its call `h` and its return `j`, on the server it asks, and
      returned one more than the numbers that this server had handed out until then. */
  lemma CallTakesNextNumber(cfg: Config<nat, Op, nat>, log: Log, j: nat) returns (h: nat, p: nat)
    requires cfg == Service(cfg.servers, cfg.workers, cfg.home, cfg.onNode) && WellFormed(cfg, log)
    requires j < |log| && log[j].Return?
    ensures CallSpan(cfg, log, j, h, [p])
    ensures h < p < j && log[h] == Invoke(log[j].c, log[j].o) && log[p].Run? && log[p].o == log[j].o &&
            log[p].c == log[j].c
    ensures log[p].at == ServerOf(cfg.home, log[j].c, log[j].o)
    ensures log[j].rs == [(|Results(log[..p], ServerOf(cfg.home, log[j].c, log[j].o))| + 1) % 0x1_0000_0000_0000_0000]
  {
    var ps;
    h, ps := ReturnAnswersOneCall(cfg, log, j);
    p := ps[0];
    assert ps == [p];
    assert VisitAt(cfg, log[..j][p], log[j].c, log[j].o, 0, log[j].rs[0]);
    RunsAtItsServer(cfg, log, p);
    ResultAt(cfg, log, p);
  }

  /** An idle client can ask any server for a number, and gets one: no call ever polls or is held up for ever (see
      RpcProgress.PendingCallsComplete). */
  lemma CallsAreAnswered(cfg: Config<nat, Op, nat>, s: State<nat, Op, nat>, c: nat, o: Op)
    requires cfg == Service(cfg.servers, cfg.workers, cfg.home, cfg.onNode) && Inv(cfg, s)
    requires c < |s.clients| && s.clients[c].Idle?
    ensures Enabled(cfg, s, Call(c, o)) <==> ServerOf(cfg.home, c, o) < cfg.servers
    ensures LockedBodiesTotal(cfg) && NeverPolls(cfg)
  {
    assert cfg.plan(c, o) == [ServerOf(cfg.home, c, o)] && cfg.plan(c, o)[0] == ServerOf(cfg.home, c, o);
    forall x: Op, pre: nat | cfg.valid(x) && cfg.locked(x) ensures HasOutcome(cfg, x, pre) {
      assert cfg.body(x, pre, (pre + 1) % TWO64, (pre + 1) % TWO64);
    }
  }

  /** Every body runs under the mutex of its server. */
  lemma AlwaysLocked(cfg: Config<nat, Op, nat>, s: State<nat, Op, nat>, t: Step<nat, Op, nat>)
    requires cfg == Service(cfg.servers, cfg.workers, cfg.home, cfg.onNode) && Inv(cfg, s) && Enabled(cfg, s, t)
    ensures !t.Peek?
    ensures t.Execute? ==> s.owner[At(cfg, t.c, s.clients[t.c])] == Some(t.c)
  {
    if t.Execute? {
      assert Owns(cfg, t.c, s.clients[t.c], At(cfg, t.c, s.clients[t.c]));
    }
  }

  /** A call that returned before another call on the same server began got the smaller number, below 2^64 calls. */
  lemma EarlierCallSmallerNumber(cfg: Config<nat, Op, nat>, log: Log, j: nat, h: nat, p: nat, j': nat, h': nat, p': nat)
    requires cfg == Service(cfg.servers, cfg.workers, cfg.home, cfg.onNode) && WellFormed(cfg, log)
    requires CallSpan(cfg, log, j, h, [p]) && CallSpan(cfg, log, j', h', [p']) && j < h'
    requires p < |log| && log[p].Run? && p' < |log| && log[p'].Run? && log[p].at == log[p'].at
    requires |Results(log, log[p].at)| < TWO64
    ensures log[j].rs == [log[p].r] && log[j'].rs == [log[p'].r]
    ensures log[p].r < log[p'].r
  {
    EffectsRespectRealTime(cfg, log, j, h, [p], j', h', [p']);
    assert [p][0] < [p'][0];
    EarlierEffectSmallerNumber(cfg, log, p, p');
    SingleReply(cfg, log, j, h, p);
    SingleReply(cfg, log, j', h', p');
  }

  lemma SingleReply<S, O, R>(cfg: Config<S, O, R>, log: seq<Event<S, O, R>>, j: nat, h: nat, p: nat)
    requires CallSpan(cfg, log, j, h, [p])
    ensures p < j && log[p].Run? && log[j].rs == [log[p].r]
  {
    assert VisitAt(cfg, log[..j][[p][0]], log[j].c, log[j].o, 0, log[j].rs[0]);
  }
}
