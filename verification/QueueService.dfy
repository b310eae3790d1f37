/**
 basket::queue as an instance of the RPC machine, and what holds of every run of it.
 */
module QueueService {
  import opened RpcMachine
  import opened RpcHistory
  import opened RpcCalls
  import opened RpcProgress

  datatype Op<A> =
    | Push(v: A, server: nat)
    | Pop(server: nat)
    | WaitForElement(server: nat)
    | Size(server: nat)

  datatype Reply<A> = Flag(ok: bool) | Popped(ok: bool, v: A) | Count(n: nat)

  ghost predicate Body<A>(noValue: A, o: Op<A>, pre: seq<A>, post: seq<A>, r: Reply<A>) {
    match o
    case Push(v, _) => post == pre + [v] && r == Flag(true)
    case Pop(_) =>
      if |pre| > 0 then post == pre[1..] && r == Popped(true, pre[0]) else post == pre && r == Popped(false, noValue)
    case WaitForElement(_) => |pre| != 0 && post == pre && r == Flag(true)   // the poll that ends the loop
    case Size(_) => post == pre && r == Count(|pre|)
  }

  ghost function Service<A(!new)>(servers: nat, workers: nat, home: nat -> nat, onNode: nat -> bool,
                                  noValue: A): Config<seq<A>, Op<A>, Reply<A>> {
    Config(servers, workers, home, onNode, (c, o: Op<A>) => [o.server], o => true, (o: Op<A>) => !o.WaitForElement?,
           [], (o, pre, post, r) => Body(noValue, o, pre, post, r))
  }

  type Log<A> = seq<Event<seq<A>, Op<A>, Reply<A>>>
  type Queues<A> = State<seq<A>, Op<A>, Reply<A>>

  /** The values pushed to a server, in the order in which its mutex was taken. */
  function PushedTo<A>(log: Log<A>, server: nat): seq<A> {
    if log == [] then []
    else
      var e := log[|log| - 1];
      PushedTo(log[..|log| - 1], server) + if e.Run? && e.at == server && e.o.Push? then [e.o.v] else []
  }

  /** The values that successful pops of a server returned, in that order. */
  function PoppedFrom<A>(log: Log<A>, server: nat): seq<A> {
    if log == [] then []
    else
      var e := log[|log| - 1];
      PoppedFrom(log[..|log| - 1], server) +
      if e.Run? && e.at == server && e.o.Pop? && e.r.Popped? && e.r.ok then [e.r.v] else []
  }

  /** First in, first out, nothing lost and nothing twice: what was pushed is what was popped, followed by what is
      there. */
  lemma {:induction false} PushedIsPoppedThenContents<A(!new)>(cfg: Config<seq<A>, Op<A>, Reply<A>>, noValue: A,
                                                               log: Log<A>, server: nat)
    requires cfg == Service(cfg.servers, cfg.workers, cfg.home, cfg.onNode, noValue)
    requires Legal(cfg, log)
    ensures PushedTo(log, server) == PoppedFrom(log, server) + ShardAfter(cfg, log, server)
    decreases |log|
  {
    if log != [] {
      var n := |log| - 1;
      LegalPrefix(cfg, log, n);
      PushedIsPoppedThenContents(cfg, noValue, log[..n], server);
      EventConserves(cfg, noValue, log, server);
    }
  }

  lemma EventConserves<A(!new)>(cfg: Config<seq<A>, Op<A>, Reply<A>>, noValue: A, log: Log<A>, server: nat)
    requires cfg == Service(cfg.servers, cfg.workers, cfg.home, cfg.onNode, noValue)
    requires Legal(cfg, log) && log != []
    requires var before := log[..|log| - 1];
             PushedTo(before, server) == PoppedFrom(before, server) + ShardAfter(cfg, before, server)
    ensures PushedTo(log, server) == PoppedFrom(log, server) + ShardAfter(cfg, log, server)
  {
    var n := |log| - 1;
    var e := log[n];
    assert LegalEvent(cfg, log[..n], e);
    if e.Run? && e.at == server {
      BodyConserves(noValue, e.o, e.pre, e.post, e.r, PoppedFrom(log[..n], server));
    } else {
      assert PushedTo(log, server) == PushedTo(log[..n], server);
      assert PoppedFrom(log, server) == PoppedFrom(log[..n], server);
    }
  }

  /** One operation keeps the values popped so far, followed by the contents, apart from what it pushes. */
  lemma BodyConserves<A(!new)>(noValue: A, o: Op<A>, pre: seq<A>, post: seq<A>, r: Reply<A>, popped: seq<A>)
    requires Body(noValue, o, pre, post, r)
    ensures (popped + pre) + (if o.Push? then [o.v] else []) ==
            (popped + if o.Pop? && r.Popped? && r.ok then [r.v] else []) + post
  {
    if o.Pop? && |pre| > 0 {
      assert pre == [pre[0]] + pre[1..];
    }
  }

  lemma LegalPrefix<S, O, R>(cfg: Config<S, O, R>, log: seq<Event<S, O, R>>, n: nat)
    requires Legal(cfg, log) && n <= |log|
    ensures Legal(cfg, log[..n])
  {
    forall i | 0 <= i < n ensures LegalEvent(cfg, log[..n][..i], log[..n][i]) {
      assert log[..n][..i] == log[..i];
      assert LegalEvent(cfg, log[..i], log[i]);
    }
  }

  lemma ReachableQueues<A(!new)>(cfg: Config<seq<A>, Op<A>, Reply<A>>, noValue: A, s: State<seq<A>, Op<A>, Reply<A>>,
                                 server: nat)
    requires cfg == Service(cfg.servers, cfg.workers, cfg.home, cfg.onNode, noValue)
    requires Reachable(cfg, s) && server < cfg.servers
    ensures |s.shards| == cfg.servers
    ensures PushedTo(s.log, server) == PoppedFrom(s.log, server) + s.shards[server]
  {
    ReachableInv(cfg, s);
    PushedIsPoppedThenContents(cfg, noValue, s.log, server);
  }

  /** A sequential queue: its replies, given the values `pushed` and those `popped` so far. */
  ghost predicate Replies<A>(noValue: A, pushed: seq<A>, popped: seq<A>, o: Op<A>, r: Reply<A>) {
    match o
    case Push(_, _) => r == Flag(true)
    case Pop(_) => r == if |popped| < |pushed| then Popped(true, pushed[|popped|]) else Popped(false, noValue)
    case WaitForElement(_) => |popped| < |pushed| && r == Flag(true)
    case Size(_) => |popped| <= |pushed| && r == Count(|pushed| - |popped|)
  }

  /** What an operation adds to the values pushed and to those popped. */
  ghost function Adds<A>(pushed: seq<A>, popped: seq<A>, o: Op<A>): (seq<A>, seq<A>) {
    match o
    case Push(v, _) => ([v], [])
    case Pop(_) => ([], if |popped| < |pushed| then [pushed[|popped|]] else [])
    case _ => ([], [])
  }

  /** Linearizability: a completed call took effect at one moment `p` between its call `h` and its return `j`, on
      the server it names, and returned what the sequential queue answers at that moment, of all that was pushed
      and popped there before. */
  lemma Linearizable<A(!new)>(cfg: Config<seq<A>, Op<A>, Reply<A>>, noValue: A, log: Log<A>, j: nat)
    returns (h: nat, p: nat)
    requires cfg == Service(cfg.servers, cfg.workers, cfg.home, cfg.onNode, noValue)
    requires WellFormed(cfg, log) && j < |log| && log[j].Return?
    ensures h < p < j && log[h] == Invoke(log[j].c, log[j].o)
    ensures log[p].Run? && log[p].c == log[j].c && log[p].o == log[j].o && log[p].at == log[j].o.server
    ensures log[j].rs == [log[p].r]
    ensures var server := log[j].o.server;
            var pushed, popped := PushedTo(log[..p], server), PoppedFrom(log[..p], server);
            && Replies(noValue, pushed, popped, log[j].o, log[j].rs[0])
            && PushedTo(log[..p + 1], server) == pushed + Adds(pushed, popped, log[j].o).0
            && PoppedFrom(log[..p + 1], server) == popped + Adds(pushed, popped, log[j].o).1
  {
    var ps;
    h, ps := ReturnAnswersOneCall(cfg, log, j);
    p := ps[0];
    assert ps == [p];
    assert VisitAt(cfg, log[..j][p], log[j].c, log[j].o, 0, log[j].rs[0]);
    EffectIsSequential(cfg, noValue, log, p);
  }

  lemma EffectIsSequential<A(!new)>(cfg: Config<seq<A>, Op<A>, Reply<A>>, noValue: A, log: Log<A>, p: nat)
    requires cfg == Service(cfg.servers, cfg.workers, cfg.home, cfg.onNode, noValue)
    requires WellFormed(cfg, log) && p < |log| && log[p].Run?
    ensures log[p].at == log[p].o.server
    ensures var pushed, popped := PushedTo(log[..p], log[p].at), PoppedFrom(log[..p], log[p].at);
            && Replies(noValue, pushed, popped, log[p].o, log[p].r)
            && PushedTo(log[..p + 1], log[p].at) == pushed + Adds(pushed, popped, log[p].o).0
            && PoppedFrom(log[..p + 1], log[p].at) == popped + Adds(pushed, popped, log[p].o).1
  {
    RunsAtItsServer(cfg, noValue, log, p);
    PrefixWellFormed(cfg, log, p);
    PushedIsPoppedThenContents(cfg, noValue, log[..p], log[p].at);
    assert log[..p + 1][..p] == log[..p];
    var popped := PoppedFrom(log[..p], log[p].at);
    assert (popped + log[p].pre)[|popped|..] == log[p].pre;
  }

  /** Only WaitForElement reads without the mutex; every other Local* function runs under its server's. */
  lemma OnlyWaitingIsUnlocked<A(!new)>(cfg: Config<seq<A>, Op<A>, Reply<A>>, noValue: A, s: Queues<A>,
                                       t: Step<seq<A>, Op<A>, Reply<A>>)
    requires cfg == Service(cfg.servers, cfg.workers, cfg.home, cfg.onNode, noValue)
    requires Inv(cfg, s) && Enabled(cfg, s, t)
    ensures t.Peek? ==> s.clients[t.c].o.WaitForElement?
    ensures t.Execute? ==> !s.clients[t.c].o.WaitForElement? && s.owner[At(cfg, t.c, s.clients[t.c])] == Some(t.c)
  {
    assert ClientOk(cfg, t.c, s.clients[t.c]);
    if t.Execute? {
      assert Owns(cfg, t.c, s.clients[t.c], At(cfg, t.c, s.clients[t.c]));
    }
  }

  /** An element that a poll saw stays there until somebody pops. */
  lemma {:induction false} StaysNonEmpty<A(!new)>(cfg: Config<seq<A>, Op<A>, Reply<A>>, noValue: A, log: Log<A>,
                                                  server: nat, i: nat, j: nat)
    requires cfg == Service(cfg.servers, cfg.workers, cfg.home, cfg.onNode, noValue)
    requires Legal(cfg, log) && i <= j <= |log|
    requires ShardAfter(cfg, log[..i], server) != []
    requires forall x :: i <= x < j && log[x].Run? && log[x].at == server ==> !log[x].o.Pop?
    ensures ShardAfter(cfg, log[..j], server) != []
    decreases j
  {
    if i < j {
      StaysNonEmpty(cfg, noValue, log, server, i, j - 1);
      assert log[..j][..j - 1] == log[..j - 1];
      assert LegalEvent(cfg, log[..j - 1], log[j - 1]);
    }
  }

  /** Only client `c` pops from this server. */
  ghost predicate SinglePopper<A>(log: Log<A>, server: nat, c: nat) {
    forall x :: 0 <= x < |log| && log[x].Run? && log[x].o == Pop(server) ==> log[x].c == c
  }

  /** With a single popper, the first Pop after its WaitForElement succeeds, whatever other clients push. */
  lemma PopAfterWaitSucceeds<A(!new)>(cfg: Config<seq<A>, Op<A>, Reply<A>>, noValue: A, log: Log<A>, server: nat,
                                      c: nat, i: nat, j: nat)
    requires cfg == Service(cfg.servers, cfg.workers, cfg.home, cfg.onNode, noValue)
    requires WellFormed(cfg, log) && SinglePopper(log, server, c)
    requires i < j < |log|
    requires log[i].Run? && log[i].c == c && log[i].o == WaitForElement(server)
    requires log[j].Run? && log[j].c == c && log[j].o == Pop(server)
    requires forall x :: i < x < j && log[x].Run? && log[x].c == c ==> log[x].o != Pop(server)
    ensures ShardAfter(cfg, log[..j], server) != []
    ensures log[j].r == Popped(true, ShardAfter(cfg, log[..j], server)[0])
  {
    RunsAtItsServer(cfg, noValue, log, i);
    RunsAtItsServer(cfg, noValue, log, j);
    forall x | i <= x < j && log[x].Run? && log[x].at == server ensures !log[x].o.Pop? {
      RunsAtItsServer(cfg, noValue, log, x);
    }
    StaysNonEmpty(cfg, noValue, log, server, i, j);
  }

  lemma RunsAtItsServer<A(!new)>(cfg: Config<seq<A>, Op<A>, Reply<A>>, noValue: A, log: Log<A>, i: nat)
    requires cfg == Service(cfg.servers, cfg.workers, cfg.home, cfg.onNode, noValue)
    requires WellFormed(cfg, log) && i < |log| && log[i].Run?
    ensures log[i].at == log[i].o.server && LegalEvent(cfg, log[..i], log[i])
    ensures Body(noValue, log[i].o, log[i].pre, log[i].post, log[i].r)
  {
    RunsOnPlan(cfg, log, i);
    assert LegalEvent(cfg, log[..i], log[i]);
  }

  /** The client waits for an element of an empty queue. */
  ghost predicate WaitsInVain<A>(cfg: Config<seq<A>, Op<A>, Reply<A>>, s: State<seq<A>, Op<A>, Reply<A>>, c: nat) {
    && InVisit(cfg, s, c) && s.clients[c].stage.Queued? && s.clients[c].o.WaitForElement?
    && s.shards[At(cfg, c, s.clients[c])] == []
  }

  lemma LockedOperationsFinish<A(!new)>(cfg: Config<seq<A>, Op<A>, Reply<A>>, noValue: A)
    requires cfg == Service(cfg.servers, cfg.workers, cfg.home, cfg.onNode, noValue)
    ensures LockedBodiesTotal(cfg)
  {
    forall o: Op<A>, pre | cfg.valid(o) && cfg.locked(o) ensures HasOutcome(cfg, o, pre) {
      match o
      case Push(v, _) => assert cfg.body(o, pre, pre + [v], Flag(true));
      case Pop(_) =>
        if |pre| > 0 {
          assert cfg.body(o, pre, pre[1..], Popped(true, pre[0]));
        } else {
          assert cfg.body(o, pre, pre, Popped(false, noValue));
        }
      case Size(_) => assert cfg.body(o, pre, pre, Count(|pre|));
    }
  }

  lemma PollingIsWaiting<A(!new)>(cfg: Config<seq<A>, Op<A>, Reply<A>>, noValue: A, s: State<seq<A>, Op<A>, Reply<A>>,
                                  c: nat)
    requires cfg == Service(cfg.servers, cfg.workers, cfg.home, cfg.onNode, noValue)
    ensures Polling(cfg, s, c) <==> WaitsInVain(cfg, s, c)
  {
    if InVisit(cfg, s, c) && s.clients[c].stage.Queued? && s.clients[c].o.WaitForElement? {
      var pre := s.shards[At(cfg, c, s.clients[c])];
      assert pre != [] ==> cfg.body(s.clients[c].o, pre, pre, Flag(true));
    }
  }

  /** The call's request waits for a worker of a server all of whose workers wait for an element. */
  ghost predicate BehindWaiters<A>(cfg: Config<seq<A>, Op<A>, Reply<A>>, s: Queues<A>, c: nat) {
    && InVisit(cfg, s, c) && s.clients[c].stage.InFlight?
    && var workers := BusyWorkers(cfg, s, At(cfg, c, s.clients[c]));
       |workers| >= cfg.workers && forall w :: w in workers ==> WaitsInVain(cfg, s, w)
  }

  /** The queues stop exactly when every pending call waits for an element of an empty queue, or for a worker of a
      server all of whose workers are taken up by such calls. */
  lemma QueuesStopIff<A(!new)>(cfg: Config<seq<A>, Op<A>, Reply<A>>, noValue: A, s: Queues<A>)
    requires cfg == Service(cfg.servers, cfg.workers, cfg.home, cfg.onNode, noValue)
    requires Inv(cfg, s)
    ensures Stopped(cfg, s) <==>
            forall c: nat :: c < |s.clients| && s.clients[c].Busy? ==>
                WaitsInVain(cfg, s, c) || BehindWaiters(cfg, s, c)
  {
    LockedOperationsFinish(cfg, noValue);
    StoppedIff(cfg, s);
    forall c: nat ensures Polling(cfg, s, c) <==> WaitsInVain(cfg, s, c) {
      PollingIsWaiting(cfg, noValue, s, c);
    }
    forall c: nat ensures Starved(cfg, s, c) <==> BehindWaiters(cfg, s, c) {
    }
  }

  // ---------- when waiting blocks pushing ----------

  /** The clients, of `n`, that reach this server by RPC. */
  ghost function RemoteClients(home: nat -> nat, onNode: nat -> bool, n: nat, server: nat): set<nat> {
    set c: nat | c < n && !(home(c) == server && onNode(c))
  }

  /** A request on its way to a server, or on one of its workers, comes from a client that is remote to it. */
  lemma WorkersServeRemote<A(!new)>(cfg: Config<seq<A>, Op<A>, Reply<A>>, noValue: A, s: Queues<A>, server: nat)
    requires cfg == Service(cfg.servers, cfg.workers, cfg.home, cfg.onNode, noValue) && Inv(cfg, s)
    ensures BusyWorkers(cfg, s, server) <= RemoteClients(cfg.home, cfg.onNode, |s.clients|, server)
    ensures forall c: nat ::
              (InVisit(cfg, s, c) && s.clients[c].stage.InFlight? && At(cfg, c, s.clients[c]) == server) ==>
              c in RemoteClients(cfg.home, cfg.onNode, |s.clients|, server) - BusyWorkers(cfg, s, server)
  {
    forall c: nat | c < |s.clients| && Visiting(cfg, c, s.clients[c]) && At(cfg, c, s.clients[c]) == server
      ensures IsLocal(cfg, c, s.clients[c]) <==> cfg.home(c) == server && cfg.onNode(c)
    {
      assert |cfg.plan(c, s.clients[c].o)| == 1;
    }
    forall c: nat | c < |s.clients| ensures ClientOk(cfg, c, s.clients[c]) {
    }
  }

  lemma SmallerSubset(a: set<nat>, b: set<nat>, x: nat)
    requires a <= b && x in b - a
    ensures |a| < |b|
  {
    assert b == a + (b - a);
    assert |b| == |a| + |b - a|;
    assert |b - a| > 0;
  }

  /** A stopped queue whose server has enough workers for its remote clients holds up waiters only. */
  lemma EnoughWorkers<A(!new)>(cfg: Config<seq<A>, Op<A>, Reply<A>>, noValue: A, s: Queues<A>, c: nat)
    requires cfg == Service(cfg.servers, cfg.workers, cfg.home, cfg.onNode, noValue) && Inv(cfg, s)
    requires Stopped(cfg, s) && c < |s.clients| && s.clients[c].Busy?
    requires |RemoteClients(cfg.home, cfg.onNode, |s.clients|, s.clients[c].o.server)| <= cfg.workers
    ensures WaitsInVain(cfg, s, c)
  {
    QueuesStopIff(cfg, noValue, s);
    if BehindWaiters(cfg, s, c) {
      var server := s.clients[c].o.server;
      assert At(cfg, c, s.clients[c]) == server;
      WorkersServeRemote(cfg, noValue, s, server);
      SmallerSubset(BusyWorkers(cfg, s, server), RemoteClients(cfg.home, cfg.onNode, |s.clients|, server), c);
    }
  }

  /** The clients in `waiting` wait for an element of `server`, the remote ones on its workers; the others are idle. */
  ghost predicate OnlyWaiting<A>(cfg: Config<seq<A>, Op<A>, Reply<A>>, s: Queues<A>, n: nat, server: nat,
                                 waiting: set<nat>) {
    && |s.shards| == |s.owner| == cfg.servers && |s.clients| == n
    && (forall i :: 0 <= i < cfg.servers ==> s.shards[i] == [] && s.owner[i].None?)
    && (forall c: nat :: c < n ==>
         s.clients[c] == if c in waiting then Busy(WaitForElement(server), [], Queued) else Idle)
  }

  /** An idle remote client calls, and its request is on its way. */
  lemma RequestSent<A(!new)>(cfg: Config<seq<A>, Op<A>, Reply<A>>, noValue: A, s: Queues<A>, c: nat, o: Op<A>)
    returns (steps: seq<Step<seq<A>, Op<A>, Reply<A>>>, s': Queues<A>)
    requires cfg == Service(cfg.servers, cfg.workers, cfg.home, cfg.onNode, noValue)
    requires Shaped(cfg, s) && c < |s.clients| && s.clients[c].Idle? && o.server < cfg.servers
    requires c in RemoteClients(cfg.home, cfg.onNode, |s.clients|, o.server)
    ensures Runs(cfg, s, steps, s')
    ensures s' == s.(clients := s.clients[c := Busy(o, [], InFlight)], log := s.log + [Invoke(c, o)])
  {
    assert cfg.plan(c, o) == [o.server];
    steps, s' := OneStep(cfg, s, [], s, Call(c, o));
    assert s'.clients[c] == Busy(o, [], Dispatch);
    steps, s' := OneStep(cfg, s, steps, s', Send(c));
    assert s'.clients == s.clients[c := Busy(o, [], InFlight)];
  }

  /** One more remote client waits, on a free worker. */
  lemma OneMoreRemote<A(!new)>(cfg: Config<seq<A>, Op<A>, Reply<A>>, noValue: A, s: Queues<A>, n: nat, server: nat,
                               waiting: set<nat>, c: nat)
    returns (steps: seq<Step<seq<A>, Op<A>, Reply<A>>>, s': Queues<A>)
    requires cfg == Service(cfg.servers, cfg.workers, cfg.home, cfg.onNode, noValue) && server < cfg.servers
    requires OnlyWaiting(cfg, s, n, server, waiting)
    requires c in RemoteClients(cfg.home, cfg.onNode, n, server) && c !in waiting
    requires |waiting * RemoteClients(cfg.home, cfg.onNode, n, server)| < cfg.workers
    ensures Runs(cfg, s, steps, s') && OnlyWaiting(cfg, s', n, server, waiting + {c})
  {
    var o: Op<A> := WaitForElement(server);
    steps, s' := RequestSent(cfg, noValue, s, c, o);
    assert cfg.plan(c, o) == [server];
    var busy := BusyWorkers(cfg, s', server);
    assert busy <= waiting * RemoteClients(cfg.home, cfg.onNode, n, server);
    SubsetSize(busy, waiting * RemoteClients(cfg.home, cfg.onNode, n, server));
    steps, s' := OneStep(cfg, s, steps, s', Deliver(c));
    assert s'.clients[c] == Busy(o, [], Queued);
  }

  /** One more client on the server's node waits, on its own thread. */
  lemma OneMoreLocal<A(!new)>(cfg: Config<seq<A>, Op<A>, Reply<A>>, noValue: A, s: Queues<A>, n: nat, server: nat,
                              waiting: set<nat>, c: nat)
    returns (steps: seq<Step<seq<A>, Op<A>, Reply<A>>>, s': Queues<A>)
    requires cfg == Service(cfg.servers, cfg.workers, cfg.home, cfg.onNode, noValue) && server < cfg.servers
    requires OnlyWaiting(cfg, s, n, server, waiting)
    requires c < n && c !in waiting && c !in RemoteClients(cfg.home, cfg.onNode, n, server)
    ensures Runs(cfg, s, steps, s') && OnlyWaiting(cfg, s', n, server, waiting + {c})
  {
    var o: Op<A> := WaitForElement(server);
    assert cfg.plan(c, o) == [server];
    steps, s' := OneStep(cfg, s, [], s, Call(c, o));
    assert s'.clients[c] == Busy(o, [], Dispatch);
    steps, s' := OneStep(cfg, s, steps, s', Send(c));
    assert s'.clients[c] == Busy(o, [], Queued);
  }

  lemma OneMoreWaiter<A(!new)>(cfg: Config<seq<A>, Op<A>, Reply<A>>, noValue: A, s: Queues<A>, n: nat, server: nat,
                               waiting: set<nat>, c: nat)
    returns (steps: seq<Step<seq<A>, Op<A>, Reply<A>>>, s': Queues<A>)
    requires cfg == Service(cfg.servers, cfg.workers, cfg.home, cfg.onNode, noValue) && server < cfg.servers
    requires c in waiting && c < n && OnlyWaiting(cfg, s, n, server, waiting - {c})
    requires |waiting * RemoteClients(cfg.home, cfg.onNode, n, server)| <= cfg.workers
    ensures Runs(cfg, s, steps, s') && OnlyWaiting(cfg, s', n, server, waiting)
  {
    var remote := RemoteClients(cfg.home, cfg.onNode, n, server);
    assert waiting - {c} + {c} == waiting;
    if c in remote {
      SmallerSubset((waiting - {c}) * remote, waiting * remote, c);
      steps, s' := OneMoreRemote(cfg, noValue, s, n, server, waiting - {c}, c);
    } else {
      steps, s' := OneMoreLocal(cfg, noValue, s, n, server, waiting - {c}, c);
    }
  }

  lemma SubsetSize(a: set<nat>, b: set<nat>)
    requires a <= b
    ensures |a| <= |b|
  {
    assert b == a + (b - a);
  }

  lemma NobodyWaits<A(!new)>(cfg: Config<seq<A>, Op<A>, Reply<A>>, noValue: A, n: nat, server: nat)
    returns (s: Queues<A>)
    requires cfg == Service(cfg.servers, cfg.workers, cfg.home, cfg.onNode, noValue)
    ensures Init(cfg, s) && OnlyWaiting(cfg, s, n, server, {})
  {
    s := State(seq(cfg.servers, _ => []), seq(cfg.servers, _ => None), seq(n, _ => Idle), []);
  }

  /** Any clients can come to wait, one after the other, if there is a worker for each remote one. */
  lemma {:induction false} WaitersTakeWorkers<A(!new)>(cfg: Config<seq<A>, Op<A>, Reply<A>>, noValue: A, n: nat,
                                                       server: nat, waiting: set<nat>)
    returns (s0: Queues<A>, steps: seq<Step<seq<A>, Op<A>, Reply<A>>>, s: Queues<A>)
    requires cfg == Service(cfg.servers, cfg.workers, cfg.home, cfg.onNode, noValue) && server < cfg.servers
    requires forall c :: c in waiting ==> c < n
    requires |waiting * RemoteClients(cfg.home, cfg.onNode, n, server)| <= cfg.workers
    ensures Init(cfg, s0) && Runs(cfg, s0, steps, s) && OnlyWaiting(cfg, s, n, server, waiting)
    decreases |waiting|
  {
    if waiting == {} {
      s0 := NobodyWaits(cfg, noValue, n, server);
      steps, s := [], s0;
    } else {
      var c :| c in waiting;
      var remote := RemoteClients(cfg.home, cfg.onNode, n, server);
      SubsetSize((waiting - {c}) * remote, waiting * remote);
      var before, s1;
      s0, before, s1 := WaitersTakeWorkers(cfg, noValue, n, server, waiting - {c});
      var more;
      more, s := OneMoreWaiter(cfg, noValue, s1, n, server, waiting, c);
      RunsJoin(cfg, s0, before, s1, more, s);
      steps := before + more;
    }
  }

  lemma {:induction false} SubsetOfSize(xs: set<nat>, k: nat) returns (ys: set<nat>, x: nat)
    requires k < |xs|
    ensures ys <= xs && |ys| == k && x in xs && x !in ys
    decreases |xs|
  {
    var z :| z in xs;
    if k == |xs| - 1 {
      ys, x := xs - {z}, z;
    } else {
      ys, x := SubsetOfSize(xs - {z}, k);
    }
  }

  /** The client is on the node of the server, so that it runs the Local* functions itself. */
  ghost predicate OnItsNode<A>(cfg: Config<seq<A>, Op<A>, Reply<A>>, c: nat, server: nat) {
    cfg.home(c) == server && cfg.onNode(c)
  }

  /** All workers of the server wait for an element of its empty queue, and so do all clients on its node. */
  ghost predicate Jammed<A>(cfg: Config<seq<A>, Op<A>, Reply<A>>, s: Queues<A>, server: nat) {
    && |BusyWorkers(cfg, s, server)| >= cfg.workers
    && server < |s.shards| && s.shards[server] == []
    && (forall w :: w in BusyWorkers(cfg, s, server) ==> WaitsInVain(cfg, s, w))
    && (forall c: nat :: c < |s.clients| && OnItsNode(cfg, c, server) ==> WaitsAt(cfg, s, c, server))
  }

  ghost predicate WaitsAt<A>(cfg: Config<seq<A>, Op<A>, Reply<A>>, s: Queues<A>, c: nat, server: nat) {
    WaitsInVain(cfg, s, c) && s.clients[c].o.server == server
  }

  /** With more remote clients than workers, waiters can take up all the workers, so that a remote operation is never
      handled. */
  lemma WaitersBlock<A(!new)>(cfg: Config<seq<A>, Op<A>, Reply<A>>, noValue: A, n: nat, o: Op<A>)
    returns (s: Queues<A>, c: nat)
    requires cfg == Service(cfg.servers, cfg.workers, cfg.home, cfg.onNode, noValue) && o.server < cfg.servers
    requires |RemoteClients(cfg.home, cfg.onNode, n, o.server)| > cfg.workers
    ensures Reachable(cfg, s) && Stopped(cfg, s) && |s.clients| == n
    ensures c < n && s.clients[c] == Busy(o, [], InFlight)
    ensures Jammed(cfg, s, o.server) && BehindWaiters(cfg, s, c)
  {
    var remote := RemoteClients(cfg.home, cfg.onNode, n, o.server);
    var onWorkers;
    onWorkers, c := SubsetOfSize(remote, cfg.workers);
    var waiting := onWorkers + set w: nat | w < n && OnItsNode(cfg, w, o.server);
    assert waiting * remote == onWorkers;
    s := WaitersThenRequest(cfg, noValue, n, o, waiting, c);
    ReachableInv(cfg, s);
    QueuesStopIff(cfg, noValue, s);
  }

  /** The clients on the server's node wait, and as many remote ones as it has workers. */
  ghost predicate FillsServer<A>(cfg: Config<seq<A>, Op<A>, Reply<A>>, n: nat, server: nat, waiting: set<nat>) {
    && (forall w :: w in waiting ==> w < n)
    && (forall w: nat :: w < n && OnItsNode(cfg, w, server) ==> w in waiting)
    && |waiting * RemoteClients(cfg.home, cfg.onNode, n, server)| == cfg.workers
  }

  lemma WaitersThenRequest<A(!new)>(cfg: Config<seq<A>, Op<A>, Reply<A>>, noValue: A, n: nat, o: Op<A>,
                                    waiting: set<nat>, c: nat)
    returns (s: Queues<A>)
    requires cfg == Service(cfg.servers, cfg.workers, cfg.home, cfg.onNode, noValue) && o.server < cfg.servers
    requires FillsServer(cfg, n, o.server, waiting)
    requires c in RemoteClients(cfg.home, cfg.onNode, n, o.server) && c !in waiting
    ensures Reachable(cfg, s) && |s.clients| == n && s.clients[c] == Busy(o, [], InFlight)
    ensures Jammed(cfg, s, o.server) && BehindWaiters(cfg, s, c)
    ensures forall w: nat :: w < n && s.clients[w].Busy? ==> WaitsInVain(cfg, s, w) || BehindWaiters(cfg, s, w)
  {
    var s0, before, s1 := WaitersTakeWorkers(cfg, noValue, n, o.server, waiting);
    var more;
    more, s := RequestSent(cfg, noValue, s1, c, o);
    RunsJoin(cfg, s0, before, s1, more, s);
    BlockedState(cfg, noValue, s1, n, o, waiting, c, s);
  }

  lemma BlockedState<A(!new)>(cfg: Config<seq<A>, Op<A>, Reply<A>>, noValue: A, s1: Queues<A>, n: nat, o: Op<A>,
                              waiting: set<nat>, c: nat, s: Queues<A>)
    requires cfg == Service(cfg.servers, cfg.workers, cfg.home, cfg.onNode, noValue) && o.server < cfg.servers
    requires OnlyWaiting(cfg, s1, n, o.server, waiting) && FillsServer(cfg, n, o.server, waiting)
    requires c < n && c !in waiting
    requires s == s1.(clients := s1.clients[c := Busy(o, [], InFlight)], log := s.log)
    ensures Jammed(cfg, s, o.server) && BehindWaiters(cfg, s, c)
    ensures forall w: nat :: w < n && s.clients[w].Busy? ==> WaitsInVain(cfg, s, w) || BehindWaiters(cfg, s, w)
  {
    WorkersAreWaiting(cfg, noValue, s, n, o, waiting, c);
    assert InVisit(cfg, s, c) && At(cfg, c, s.clients[c]) == o.server by {
      assert cfg.plan(c, o) == [o.server];
    }
  }

  lemma WorkersAreWaiting<A(!new)>(cfg: Config<seq<A>, Op<A>, Reply<A>>, noValue: A, s: Queues<A>, n: nat, o: Op<A>,
                                   waiting: set<nat>, c: nat)
    requires cfg == Service(cfg.servers, cfg.workers, cfg.home, cfg.onNode, noValue) && o.server < cfg.servers
    requires |s.shards| == |s.owner| == cfg.servers && s.shards[o.server] == [] && c < |s.clients| == n && c !in waiting
    requires forall w: nat :: w < n && w != c ==>
               s.clients[w] == if w in waiting then Busy(WaitForElement(o.server), [], Queued) else Idle
    requires s.clients[c] == Busy(o, [], InFlight)
    ensures BusyWorkers(cfg, s, o.server) == waiting * RemoteClients(cfg.home, cfg.onNode, n, o.server)
    ensures forall w: nat :: w < n && w in waiting ==> WaitsAt(cfg, s, w, o.server)
  {
    var remote := RemoteClients(cfg.home, cfg.onNode, n, o.server);
    forall w: nat | w < n
      ensures w in BusyWorkers(cfg, s, o.server) <==> w in waiting * remote
      ensures w in waiting ==> WaitsAt(cfg, s, w, o.server)
    {
      WaiterInState(cfg, noValue, s, n, o, w);
    }
    assert BusyWorkers(cfg, s, o.server) == waiting * remote;
  }

  /** A client that waits is on a worker exactly when it is remote, and one whose request is on its way is on none. */
  lemma WaiterInState<A(!new)>(cfg: Config<seq<A>, Op<A>, Reply<A>>, noValue: A, s: Queues<A>, n: nat, o: Op<A>, w: nat)
    requires cfg == Service(cfg.servers, cfg.workers, cfg.home, cfg.onNode, noValue) && o.server < cfg.servers
    requires |s.shards| == |s.owner| == cfg.servers && s.shards[o.server] == [] && w < |s.clients| == n
    requires s.clients[w] in {Idle, Busy(WaitForElement(o.server), [], Queued), Busy(o, [], InFlight)}
    ensures w in BusyWorkers(cfg, s, o.server) <==>
            s.clients[w] == Busy(WaitForElement(o.server), [], Queued) &&
            w in RemoteClients(cfg.home, cfg.onNode, n, o.server)
    ensures s.clients[w] == Busy(WaitForElement(o.server), [], Queued) ==> WaitsAt(cfg, s, w, o.server)
  {
    assert cfg.plan(w, WaitForElement(o.server)) == [o.server];
  }

  /** A reachable state of `n` clients in which this operation is pending, and nothing but a new call is possible. */
  ghost predicate CanBlock<A(!new)>(cfg: Config<seq<A>, Op<A>, Reply<A>>, n: nat, o: Op<A>) {
    exists s: Queues<A>, c: nat ::
      Reachable(cfg, s) && |s.clients| == n && Stopped(cfg, s) && c < n && s.clients[c].Busy? && s.clients[c].o == o
  }

  /** Waiting can hold up a Push, a Pop or a Size exactly when more clients reach its server by RPC than the server has
      workers (RPC_THREADS, by default one). */
  lemma WaitersBlockIff<A(!new)>(cfg: Config<seq<A>, Op<A>, Reply<A>>, noValue: A, n: nat, o: Op<A>)
    requires cfg == Service(cfg.servers, cfg.workers, cfg.home, cfg.onNode, noValue)
    requires o.server < cfg.servers && !o.WaitForElement?
    ensures CanBlock(cfg, n, o) <==> |RemoteClients(cfg.home, cfg.onNode, n, o.server)| > cfg.workers
  {
    if CanBlock(cfg, n, o) {
      var s: Queues<A>, c: nat :|
        Reachable(cfg, s) && |s.clients| == n && Stopped(cfg, s) && c < n && s.clients[c].Busy? && s.clients[c].o == o;
      ReachableInv(cfg, s);
      if |RemoteClients(cfg.home, cfg.onNode, n, o.server)| <= cfg.workers {
        EnoughWorkers(cfg, noValue, s, c);
      }
    }
    if |RemoteClients(cfg.home, cfg.onNode, n, o.server)| > cfg.workers {
      var s, c := WaitersBlock(cfg, noValue, n, o);
    }
  }

  // ---------- for how long ----------

  /** A jammed server stays jammed, whatever step is taken. */
  lemma StepKeepsJam<A(!new)>(cfg: Config<seq<A>, Op<A>, Reply<A>>, noValue: A, s: Queues<A>,
                              t: Step<seq<A>, Op<A>, Reply<A>>, server: nat)
    requires cfg == Service(cfg.servers, cfg.workers, cfg.home, cfg.onNode, noValue)
    requires Inv(cfg, s) && Enabled(cfg, s, t) && Jammed(cfg, s, server)
    ensures Jammed(cfg, After(cfg, s, t), server)
    ensures BusyWorkers(cfg, After(cfg, s, t), server) == BusyWorkers(cfg, s, server)
    ensures forall c: nat :: c < |s.clients| && BehindWaiters(cfg, s, c) && s.clients[c].o.server == server ==>
              After(cfg, s, t).clients[c] == s.clients[c]
  {
    var s' := After(cfg, s, t);
    StepKeepsClients(cfg, s, t);
    assert ClientOk(cfg, t.c, s.clients[t.c]);
    NotAtJam(cfg, noValue, s, t, server);
    forall c: nat | c < |s.clients|
      ensures OnWorker(cfg, c, s'.clients[c], server) <==> OnWorker(cfg, c, s.clients[c], server)
      ensures OnWorker(cfg, c, s.clients[c], server) ==> s'.clients[c] == s.clients[c]
    {
    }
    assert BusyWorkers(cfg, s', server) == BusyWorkers(cfg, s, server);
  }

  /** Nobody on the node of a jammed server takes a step, and a step there only brings or sends a request. */
  lemma NotAtJam<A(!new)>(cfg: Config<seq<A>, Op<A>, Reply<A>>, noValue: A, s: Queues<A>,
                          t: Step<seq<A>, Op<A>, Reply<A>>, server: nat)
    requires cfg == Service(cfg.servers, cfg.workers, cfg.home, cfg.onNode, noValue)
    requires Inv(cfg, s) && Enabled(cfg, s, t) && Jammed(cfg, s, server)
    ensures t.c !in BusyWorkers(cfg, s, server) && !OnItsNode(cfg, t.c, server)
    ensures Visiting(cfg, t.c, s.clients[t.c]) && At(cfg, t.c, s.clients[t.c]) == server ==> t.Send? || t.Collect?
    ensures After(cfg, s, t).shards[server] == []
  {
    var p := s.clients[t.c];
    assert ClientOk(cfg, t.c, p);
    assert !WaitsInVain(cfg, s, t.c);
    assert !OnItsNode(cfg, t.c, server) by {
      assert !WaitsAt(cfg, s, t.c, server);
    }
    if Visiting(cfg, t.c, p) && At(cfg, t.c, p) == server {
      assert !IsLocal(cfg, t.c, p);
      assert t.c in BusyWorkers(cfg, s, server) <==> p.stage.Queued? || p.stage.Holding? || p.stage.Ran?;
    }
  }

  /** The workers of a jammed server wait for ever: in every run from there, whatever is called, the queue stays empty,
      and no request on its way to the server is ever handled. */
  lemma {:induction false} JamIsForEver<A(!new)>(cfg: Config<seq<A>, Op<A>, Reply<A>>, noValue: A, s: Queues<A>,
                                                 steps: seq<Step<seq<A>, Op<A>, Reply<A>>>, s': Queues<A>, server: nat)
    requires cfg == Service(cfg.servers, cfg.workers, cfg.home, cfg.onNode, noValue)
    requires Inv(cfg, s) && Runs(cfg, s, steps, s') && Jammed(cfg, s, server)
    ensures Jammed(cfg, s', server) && |s'.clients| == |s.clients|
    ensures forall c: nat :: c < |s.clients| && BehindWaiters(cfg, s, c) && s.clients[c].o.server == server ==>
              s'.clients[c] == s.clients[c]
    decreases |steps|
  {
    if steps != [] {
      var s1 := After(cfg, s, steps[0]);
      StepInv(cfg, s, steps[0]);
      StepKeepsJam(cfg, noValue, s, steps[0], server);
      JamIsForEver(cfg, noValue, s1, steps[1..], s', server);
      forall c: nat | c < |s.clients| && BehindWaiters(cfg, s, c) && s.clients[c].o.server == server
        ensures s'.clients[c] == s.clients[c]
      {
        assert BehindWaiters(cfg, s1, c);
      }
    }
  }

  /** From every state a run without new calls leads to a stopped one. */
  lemma {:induction false} RunToStop<A(!new)>(cfg: Config<seq<A>, Op<A>, Reply<A>>, s: Queues<A>)
    returns (steps: seq<Step<seq<A>, Op<A>, Reply<A>>>, s': Queues<A>)
    requires Inv(cfg, s)
    ensures Runs(cfg, s, steps, s') && (forall i :: 0 <= i < |steps| ==> !steps[i].Call?)
    ensures Inv(cfg, s') && Stopped(cfg, s') && |s'.clients| == |s.clients|
    decreases Pending(cfg, s.clients)
  {
    if t: Step<seq<A>, Op<A>, Reply<A>> :| Enabled(cfg, s, t) && !t.Call? {
      StepInv(cfg, s, t);
      StepsDecrease(cfg, s, t);
      PendingBounded(cfg, s.clients);
      var rest;
      rest, s' := RunToStop(cfg, After(cfg, s, t));
      steps := [t] + rest;
      assert steps[1..] == rest;
    } else {
      steps, s' := [], s;
    }
  }

  /** The pending call of client `c` does not return in any run from here. */
  ghost predicate NeverReturns<A(!new)>(cfg: Config<seq<A>, Op<A>, Reply<A>>, s: Queues<A>, c: nat) {
    forall steps, s': Queues<A> :: Runs(cfg, s, steps, s') ==> c < |s'.clients| && s'.clients[c].Busy?
  }

  ghost predicate CanBlockForEver<A(!new)>(cfg: Config<seq<A>, Op<A>, Reply<A>>, n: nat, o: Op<A>) {
    exists s: Queues<A>, c: nat ::
      Reachable(cfg, s) && |s.clients| == n && c < n && s.clients[c].Busy? && s.clients[c].o == o &&
        NeverReturns(cfg, s, c)
  }

  /** With enough workers, a pending Push, Pop or Size returns in every run without new calls that is carried on
      until it stops, which it does after a bounded number of steps; so it is never held up for ever. */
  lemma EnoughWorkersReturn<A(!new)>(cfg: Config<seq<A>, Op<A>, Reply<A>>, noValue: A, s: Queues<A>, c: nat)
    requires cfg == Service(cfg.servers, cfg.workers, cfg.home, cfg.onNode, noValue) && Inv(cfg, s)
    requires c < |s.clients| && s.clients[c].Busy? && !s.clients[c].o.WaitForElement?
    requires |RemoteClients(cfg.home, cfg.onNode, |s.clients|, s.clients[c].o.server)| <= cfg.workers
    ensures forall steps, s': Queues<A> :: Runs(cfg, s, steps, s') && WithoutCalls(steps) ==>
              |steps| <= Pending(cfg, s.clients) &&
              (Stopped(cfg, s') ==> |s'.clients| == |s.clients| && s'.clients[c].Idle?)
    ensures !NeverReturns(cfg, s, c)
  {
    forall steps, s': Queues<A> | Runs(cfg, s, steps, s') && WithoutCalls(steps)
      ensures |steps| <= Pending(cfg, s.clients)
      ensures Stopped(cfg, s') ==> |s'.clients| == |s.clients| && s'.clients[c].Idle?
    {
      QuietRunsEnd(cfg, s, steps, s');
      StoppedHasReturned(cfg, noValue, s, steps, s', c);
    }
    var steps, s' := RunToStop(cfg, s);
    assert WithoutCalls(steps);
  }

  ghost predicate WithoutCalls<S, O, R>(steps: seq<Step<S, O, R>>) {
    forall i :: 0 <= i < |steps| ==> !steps[i].Call?
  }

  lemma StoppedHasReturned<A(!new)>(cfg: Config<seq<A>, Op<A>, Reply<A>>, noValue: A, s: Queues<A>,
                                    steps: seq<Step<seq<A>, Op<A>, Reply<A>>>, s': Queues<A>, c: nat)
    requires cfg == Service(cfg.servers, cfg.workers, cfg.home, cfg.onNode, noValue) && Inv(cfg, s)
    requires c < |s.clients| && s.clients[c].Busy? && !s.clients[c].o.WaitForElement?
    requires |RemoteClients(cfg.home, cfg.onNode, |s.clients|, s.clients[c].o.server)| <= cfg.workers
    requires Runs(cfg, s, steps, s') && WithoutCalls(steps)
    ensures Stopped(cfg, s') ==> |s'.clients| == |s.clients| && s'.clients[c].Idle?
  {
    RunInv(cfg, s, steps, s');
    QuietRunKeepsCall(cfg, s, steps, s', c);
    if Stopped(cfg, s') && s'.clients[c].Busy? {
      EnoughWorkers(cfg, noValue, s', c);
    }
  }

  /** Without new calls, a client that is still busy is busy with the same call. */
  lemma {:induction false} QuietRunKeepsCall<S, O, R>(cfg: Config<S, O, R>, s: State<S, O, R>,
                                                      steps: seq<Step<S, O, R>>,
                                                      s': State<S, O, R>, c: nat)
    requires Runs(cfg, s, steps, s') && forall i :: 0 <= i < |steps| ==> !steps[i].Call?
    requires c < |s.clients|
    ensures |s'.clients| == |s.clients|
    ensures s'.clients[c].Busy? ==> s.clients[c].Busy? && s'.clients[c].o == s.clients[c].o
    decreases |steps|
  {
    if steps != [] {
      QuietRunKeepsCall(cfg, After(cfg, s, steps[0]), steps[1..], s', c);
    }
  }

  /** A Push, Pop or Size can be held up for ever, whatever is called meanwhile, exactly when more clients reach
      its server by RPC than the server has workers: whenever it can be held up at all. */
  lemma WaitersBlockForEverIff<A(!new)>(cfg: Config<seq<A>, Op<A>, Reply<A>>, noValue: A, n: nat, o: Op<A>)
    requires cfg == Service(cfg.servers, cfg.workers, cfg.home, cfg.onNode, noValue)
    requires o.server < cfg.servers && !o.WaitForElement?
    ensures CanBlockForEver(cfg, n, o) <==> |RemoteClients(cfg.home, cfg.onNode, n, o.server)| > cfg.workers
    ensures CanBlockForEver(cfg, n, o) <==> CanBlock(cfg, n, o)
  {
    WaitersBlockIff(cfg, noValue, n, o);
    if |RemoteClients(cfg.home, cfg.onNode, n, o.server)| > cfg.workers {
      var s, c := WaitersBlock(cfg, noValue, n, o);
      JamNeverReturns(cfg, noValue, s, c);
    }
    if CanBlockForEver(cfg, n, o) && |RemoteClients(cfg.home, cfg.onNode, n, o.server)| <= cfg.workers {
      var s: Queues<A>, c: nat :|
        Reachable(cfg, s) && |s.clients| == n && c < n && s.clients[c].Busy? && s.clients[c].o == o &&
          NeverReturns(cfg, s, c);
      ReachableInv(cfg, s);
      EnoughWorkersReturn(cfg, noValue, s, c);
    }
  }

  lemma JamNeverReturns<A(!new)>(cfg: Config<seq<A>, Op<A>, Reply<A>>, noValue: A, s: Queues<A>, c: nat)
    requires cfg == Service(cfg.servers, cfg.workers, cfg.home, cfg.onNode, noValue) && Reachable(cfg, s)
    requires c < |s.clients| && BehindWaiters(cfg, s, c) && Jammed(cfg, s, s.clients[c].o.server)
    ensures NeverReturns(cfg, s, c)
  {
    ReachableInv(cfg, s);
    forall steps, s': Queues<A> | Runs(cfg, s, steps, s') ensures c < |s'.clients| && s'.clients[c].Busy? {
      JamIsForEver(cfg, noValue, s, steps, s', s.clients[c].o.server);
    }
  }
}
