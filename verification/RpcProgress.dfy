/** Freedom from deadlock, and termination: no call waits for ever on another one. */
module RpcProgress {
  import opened RpcMachine
  import opened RpcHistory

  /** No two calls are between the lock and the unlock of one mutex. */
  lemma MutualExclusion<S(!new), O(!new), R(!new)>(cfg: Config<S, O, R>, s: State<S, O, R>, c: nat, d: nat, i: nat)
    requires Reachable(cfg, s)
    requires c < |s.clients| && d < |s.clients|
    requires Owns(cfg, c, s.clients[c], i) && Owns(cfg, d, s.clients[d], i)
    ensures c == d
  {
    ReachableInv(cfg, s);
    assert s.owner[i] == Some(c);
    assert s.owner[i] == Some(d);
  }

  /** A server never handles more requests at a time than it has workers. */
  lemma WorkersSuffice<S(!new), O(!new), R(!new)>(cfg: Config<S, O, R>, s: State<S, O, R>, i: nat)
    requires Reachable(cfg, s)
    ensures |BusyWorkers(cfg, s, i)| <= cfg.workers
  {
    var s0, steps :| Init(cfg, s0) && Runs(cfg, s0, steps, s);
    assert BusyWorkers(cfg, s0, i) == {};
    RunKeepsWorkers(cfg, s0, steps, s, i);
  }

  lemma {:induction false} RunKeepsWorkers<S, O, R>(cfg: Config<S, O, R>, s: State<S, O, R>, steps: seq<Step<S, O, R>>,
                                                    s': State<S, O, R>, i: nat)
    requires Runs(cfg, s, steps, s') && |BusyWorkers(cfg, s, i)| <= cfg.workers
    ensures |BusyWorkers(cfg, s', i)| <= cfg.workers
    decreases |steps|
  {
    if steps != [] {
      StepKeepsWorkers(cfg, s, steps[0], i);
      RunKeepsWorkers(cfg, After(cfg, s, steps[0]), steps[1..], s', i);
    }
  }

  lemma StepKeepsWorkers<S, O, R>(cfg: Config<S, O, R>, s: State<S, O, R>, t: Step<S, O, R>, i: nat)
    requires Enabled(cfg, s, t) && |BusyWorkers(cfg, s, i)| <= cfg.workers
    ensures |BusyWorkers(cfg, After(cfg, s, t), i)| <= cfg.workers
  {
    var before, after := BusyWorkers(cfg, s, i), BusyWorkers(cfg, After(cfg, s, t), i);
    if t.Deliver? && At(cfg, t.c, s.clients[t.c]) == i {
      assert after <= before + {t.c};
      FewerElements(after, before + {t.c});
    } else {
      assert after <= before;
      FewerElements(after, before);
    }
  }

  lemma FewerElements(a: set<nat>, b: set<nat>)
    requires a <= b
    ensures |a| <= |b|
  {
    assert b == a + (b - a);
  }

  ghost predicate HasOutcome<S(!new), O, R(!new)>(cfg: Config<S, O, R>, o: O, pre: S) {
    exists post, r :: cfg.body(o, pre, post, r)
  }

  ghost predicate HasReading<S, O, R(!new)>(cfg: Config<S, O, R>, o: O, pre: S) {
    exists r :: cfg.body(o, pre, pre, r)
  }

  /** Every function that runs under a mutex always has an outcome. */
  ghost predicate LockedBodiesTotal<S(!new), O(!new), R(!new)>(cfg: Config<S, O, R>) {
    forall o, pre :: cfg.valid(o) && cfg.locked(o) ==> HasOutcome(cfg, o, pre)
  }

  /** Every unlocked read has an answer at once. */
  ghost predicate NeverPolls<S(!new), O(!new), R(!new)>(cfg: Config<S, O, R>) {
    forall o, pre :: cfg.valid(o) && !cfg.locked(o) ==> HasReading(cfg, o, pre)
  }

  /** The client repeats an unlocked read that has no answer yet (`while (my_queue->size() == 0)`). */
  ghost predicate Polling<S, O, R(!new)>(cfg: Config<S, O, R>, s: State<S, O, R>, c: nat) {
    && InVisit(cfg, s, c) && s.clients[c].stage.Queued? && !cfg.locked(s.clients[c].o)
    && !HasReading(cfg, s.clients[c].o, s.shards[At(cfg, c, s.clients[c])])
  }

  /** The request waits for a worker, and every worker of its server polls. */
  ghost predicate Starved<S, O, R(!new)>(cfg: Config<S, O, R>, s: State<S, O, R>, c: nat) {
    && InVisit(cfg, s, c) && s.clients[c].stage.InFlight?
    && var i := At(cfg, c, s.clients[c]);
       |BusyWorkers(cfg, s, i)| >= cfg.workers && forall d :: d in BusyWorkers(cfg, s, i) ==> Polling(cfg, s, d)
  }

  /** The step that client `c` itself can take, unless it polls, or waits for a worker or a mutex. */
  lemma OwnStep<S(!new), O(!new), R(!new)>(cfg: Config<S, O, R>, s: State<S, O, R>, c: nat) returns (t: Step<S, O, R>)
    requires Inv(cfg, s) && LockedBodiesTotal(cfg)
    requires c < |s.clients| && s.clients[c].Busy? && !Polling(cfg, s, c)
    requires s.clients[c].stage.InFlight? ==> |BusyWorkers(cfg, s, At(cfg, c, s.clients[c]))| < cfg.workers
    requires s.clients[c].stage.Queued? && cfg.locked(s.clients[c].o) ==> s.owner[At(cfg, c, s.clients[c])].None?
    ensures !t.Call? && Enabled(cfg, s, t)
  {
    var p := s.clients[c];
    assert ClientOk(cfg, c, p);
    match p.stage
    case Dispatch => t := if |p.got| == |cfg.plan(c, p.o)| then Finish(c) else Send(c);
    case InFlight => t := Deliver(c);
    case Queued =>
      if cfg.locked(p.o) {
        t := Acquire(c);
      } else {
        var r :| cfg.body(p.o, s.shards[At(cfg, c, p)], s.shards[At(cfg, c, p)], r);
        t := Peek(c, r);
      }
    case Holding =>
      assert HasOutcome(cfg, p.o, s.shards[At(cfg, c, p)]);
      var post, r :| cfg.body(p.o, s.shards[At(cfg, c, p)], post, r);
      t := Execute(c, post, r);
    case Ran(_) => t := Release(c);
    case Replying(_) => t := Collect(c);
  }

  /** A call past its delivery that does not poll can go on, or the owner of the mutex it waits for can. */
  lemma DeliveredGoesOn<S(!new), O(!new), R(!new)>(cfg: Config<S, O, R>, s: State<S, O, R>, c: nat)
    returns (t: Step<S, O, R>)
    requires Inv(cfg, s) && LockedBodiesTotal(cfg)
    requires c < |s.clients| && s.clients[c].Busy? && !s.clients[c].stage.InFlight? && !Polling(cfg, s, c)
    ensures !t.Call? && Enabled(cfg, s, t)
  {
    var p := s.clients[c];
    assert ClientOk(cfg, c, p);
    if p.stage.Queued? && cfg.locked(p.o) && s.owner[At(cfg, c, p)].Some? {
      var d := s.owner[At(cfg, c, p)].value;
      assert Owns(cfg, d, s.clients[d], At(cfg, c, p));
      t := OwnStep(cfg, s, d);
    } else {
      t := OwnStep(cfg, s, c);
    }
  }

  /** While a call is pending that neither polls nor is starved by polling, some step other than a new call is
      possible. */
  lemma NoDeadlock<S(!new), O(!new), R(!new)>(cfg: Config<S, O, R>, s: State<S, O, R>, c: nat)
    returns (t: Step<S, O, R>)
    requires Inv(cfg, s) && LockedBodiesTotal(cfg)
    requires c < |s.clients| && s.clients[c].Busy? && !Polling(cfg, s, c) && !Starved(cfg, s, c)
    ensures !t.Call? && Enabled(cfg, s, t)
  {
    var p := s.clients[c];
    assert ClientOk(cfg, c, p);
    if p.stage.InFlight? {
      var i := At(cfg, c, p);
      if |BusyWorkers(cfg, s, i)| < cfg.workers {
        t := OwnStep(cfg, s, c);
      } else {
        var d :| d in BusyWorkers(cfg, s, i) && !Polling(cfg, s, d);
        t := DeliveredGoesOn(cfg, s, d);
      }
    } else {
      t := DeliveredGoesOn(cfg, s, c);
    }
  }

  /** No step is possible but a new call. */
  ghost predicate Stopped<S(!new), O(!new), R(!new)>(cfg: Config<S, O, R>, s: State<S, O, R>) {
    forall t: Step<S, O, R> :: Enabled(cfg, s, t) ==> t.Call?
  }

  /** Only polling stops a run: a state is stopped exactly when every pending call polls, or its request waits for a
      worker and all workers of that server poll. */
  lemma StoppedIff<S(!new), O(!new), R(!new)>(cfg: Config<S, O, R>, s: State<S, O, R>)
    requires Inv(cfg, s) && LockedBodiesTotal(cfg)
    ensures Stopped(cfg, s) <==>
            forall c: nat :: c < |s.clients| && s.clients[c].Busy? ==> Polling(cfg, s, c) || Starved(cfg, s, c)
  {
    if Stopped(cfg, s) {
      forall c: nat | c < |s.clients| && s.clients[c].Busy? ensures Polling(cfg, s, c) || Starved(cfg, s, c) {
        if !Polling(cfg, s, c) && !Starved(cfg, s, c) {
          var t := NoDeadlock(cfg, s, c);
        }
      }
    }
    if forall c: nat :: c < |s.clients| && s.clients[c].Busy? ==> Polling(cfg, s, c) || Starved(cfg, s, c) {
      forall t: Step<S, O, R> | Enabled(cfg, s, t) ensures t.Call? {
        assert s.clients[t.c].Busy? ==> Polling(cfg, s, t.c) || Starved(cfg, s, t.c);
      }
    }
  }

  lemma NothingPolls<S(!new), O(!new), R(!new)>(cfg: Config<S, O, R>, s: State<S, O, R>, c: nat)
    requires Inv(cfg, s) && NeverPolls(cfg) && cfg.workers >= 1
    requires c < |s.clients| && s.clients[c].Busy?
    ensures !Polling(cfg, s, c) && !Starved(cfg, s, c)
  {
    forall d: nat | d < |s.clients| ensures !Polling(cfg, s, d) {
      assert ClientOk(cfg, d, s.clients[d]);
    }
  }

  // ---------- termination ----------

  /** How many steps a call still takes, its own ones only. */
  ghost function Remaining<S, O, R>(cfg: Config<S, O, R>, c: nat, p: Client<O, R>): int {
    match p
    case Idle => 0
    case Busy(o, got, stage) =>
      6 * (|cfg.plan(c, o)| - |got|) +
      match stage
      case Dispatch => 1
      case InFlight => 0
      case Queued => -1
      case Holding => -2
      case Ran(_) => -3
      case Replying(_) => -4
  }

  ghost function Pending<S, O, R>(cfg: Config<S, O, R>, clients: seq<Client<O, R>>): int {
    if clients == [] then 0
    else Pending(cfg, clients[..|clients| - 1]) + Remaining(cfg, |clients| - 1, clients[|clients| - 1])
  }

  lemma {:induction false} PendingUpdate<S, O, R>(cfg: Config<S, O, R>, clients: seq<Client<O, R>>, c: nat,
                                                  p: Client<O, R>)
    requires c < |clients|
    ensures Pending(cfg, clients[c := p]) ==
            Pending(cfg, clients) - Remaining(cfg, c, clients[c]) + Remaining(cfg, c, p)
    decreases |clients|
  {
    var n := |clients| - 1;
    if c == n {
      assert clients[c := p][..n] == clients[..n];
    } else {
      assert clients[c := p][..n] == clients[..n][c := p];
      PendingUpdate(cfg, clients[..n], c, p);
    }
  }

  lemma {:induction false} PendingBounded<S, O, R>(cfg: Config<S, O, R>, clients: seq<Client<O, R>>)
    requires forall c: nat :: c < |clients| ==> ClientOk(cfg, c, clients[c])
    ensures Pending(cfg, clients) >= 0
    ensures Pending(cfg, clients) == 0 ==> forall c: nat :: c < |clients| ==> clients[c].Idle?
    decreases |clients|
  {
    if clients != [] {
      var n := |clients| - 1;
      assert ClientOk(cfg, n, clients[n]);
      PendingBounded(cfg, clients[..n]);
      assert Remaining(cfg, n, clients[n]) >= 0;
      assert clients[n].Busy? ==> Remaining(cfg, n, clients[n]) > 0;
    }
  }

  /** Every step that is not a new call brings the pending calls nearer to their end. */
  lemma StepsDecrease<S, O, R>(cfg: Config<S, O, R>, s: State<S, O, R>, t: Step<S, O, R>)
    requires Inv(cfg, s) && Enabled(cfg, s, t) && !t.Call?
    ensures Pending(cfg, After(cfg, s, t).clients) < Pending(cfg, s.clients)
  {
    PendingUpdate(cfg, s.clients, t.c, After(cfg, s, t).clients[t.c]);
  }

  /** A run without new calls is no longer than the steps its pending calls had left. */
  lemma {:induction false} QuietRunsEnd<S, O, R>(cfg: Config<S, O, R>, s: State<S, O, R>, steps: seq<Step<S, O, R>>,
                                                 s': State<S, O, R>)
    requires Inv(cfg, s) && Runs(cfg, s, steps, s')
    requires forall i :: 0 <= i < |steps| ==> !steps[i].Call?
    ensures |steps| + Pending(cfg, s'.clients) <= Pending(cfg, s.clients)
    ensures |steps| <= Pending(cfg, s.clients)
    decreases |steps|
  {
    if steps == [] {
      PendingBounded(cfg, s.clients);
    } else {
      StepInv(cfg, s, steps[0]);
      StepsDecrease(cfg, s, steps[0]);
      QuietRunsEnd(cfg, After(cfg, s, steps[0]), steps[1..], s');
    }
  }

  /** When no operation polls, the pending calls of any reachable state can all be carried to their end. */
  lemma {:induction false} PendingCallsComplete<S(!new), O(!new), R(!new)>(cfg: Config<S, O, R>, s: State<S, O, R>)
    returns (steps: seq<Step<S, O, R>>, s': State<S, O, R>)
    requires Inv(cfg, s) && LockedBodiesTotal(cfg)
    requires NeverPolls(cfg) && cfg.workers >= 1
    ensures Runs(cfg, s, steps, s')
    ensures forall i :: 0 <= i < |steps| ==> !steps[i].Call?
    ensures |s'.clients| == |s.clients| && forall c :: 0 <= c < |s'.clients| ==> s'.clients[c].Idle?
    decreases Pending(cfg, s.clients)
  {
    if c :| 0 <= c < |s.clients| && s.clients[c].Busy? {
      NothingPolls(cfg, s, c);
      var t := NoDeadlock(cfg, s, c);
      StepInv(cfg, s, t);
      StepsDecrease(cfg, s, t);
      PendingBounded(cfg, s.clients);
      var rest;
      rest, s' := PendingCallsComplete(cfg, After(cfg, s, t));
      steps := [t] + rest;
      assert steps[1..] == rest;
    } else {
      steps, s' := [], s;
    }
  }

  // ---------- a call that runs alone ----------

  lemma {:induction false} RunsJoin<S, O, R>(cfg: Config<S, O, R>, s: State<S, O, R>, xs: seq<Step<S, O, R>>,
                                             s1: State<S, O, R>,
                                             ys: seq<Step<S, O, R>>, s2: State<S, O, R>)
    requires Runs(cfg, s, xs, s1) && Runs(cfg, s1, ys, s2)
    ensures Runs(cfg, s, xs + ys, s2)
    decreases |xs|
  {
    if xs == [] {
      assert xs + ys == ys;
    } else {
      assert (xs + ys)[1..] == xs[1..] + ys;
      RunsJoin(cfg, After(cfg, s, xs[0]), xs[1..], s1, ys, s2);
    }
  }

  lemma OneStep<S, O, R>(cfg: Config<S, O, R>, s: State<S, O, R>, xs: seq<Step<S, O, R>>, s1: State<S, O, R>,
                         t: Step<S, O, R>)
    returns (steps: seq<Step<S, O, R>>, s2: State<S, O, R>)
    requires Runs(cfg, s, xs, s1) && Enabled(cfg, s1, t)
    ensures Runs(cfg, s, steps, s2) && s2 == After(cfg, s1, t)
  {
    s2 := After(cfg, s1, t);
    assert [t][1..] == [];
    RunsJoin(cfg, s, xs, s1, [t], s2);
    steps := xs + [t];
  }

  /** Nobody but client `c` is busy, and nobody holds a mutex. */
  ghost predicate Alone<S, O, R>(cfg: Config<S, O, R>, s: State<S, O, R>, c: nat) {
    && Shaped(cfg, s) && c < |s.clients|
    && (forall i :: 0 <= i < |s.owner| ==> s.owner[i].None?)
    && (forall x :: 0 <= x < |s.clients| && x != c ==> s.clients[x].Idle?)
  }

  /** The call comes to the first line of the Local* function. */
  lemma SoloEnter<S, O, R>(cfg: Config<S, O, R>, s: State<S, O, R>, c: nat)
    returns (steps: seq<Step<S, O, R>>, s': State<S, O, R>)
    requires Alone(cfg, s, c) && InVisit(cfg, s, c) && s.clients[c].stage.Dispatch? && cfg.workers >= 1
    ensures Runs(cfg, s, steps, s')
    ensures s' == s.(clients := s.clients[c := s.clients[c].(stage := Queued)])
  {
    steps, s' := OneStep(cfg, s, [], s, Send(c));
    if s'.clients[c].stage.InFlight? {
      assert BusyWorkers(cfg, s', At(cfg, c, s'.clients[c])) == {};
      steps, s' := OneStep(cfg, s, steps, s', Deliver(c));
    }
    assert s'.clients == s.clients[c := s.clients[c].(stage := Queued)];
  }

  /** Lock, body, unlock, reply. */
  lemma SoloBody<S, O, R>(cfg: Config<S, O, R>, s: State<S, O, R>, c: nat, post: S, r: R)
    returns (steps: seq<Step<S, O, R>>, s': State<S, O, R>)
    requires Alone(cfg, s, c) && InVisit(cfg, s, c) && s.clients[c].stage.Queued? && cfg.locked(s.clients[c].o)
    requires cfg.body(s.clients[c].o, s.shards[At(cfg, c, s.clients[c])], post, r)
    ensures Runs(cfg, s, steps, s')
    ensures var p, i := s.clients[c], At(cfg, c, s.clients[c]);
            s' == s.(clients := s.clients[c := Busy(p.o, p.got + [r], Dispatch)], shards := s.shards[i := post],
                     log := s.log + [Run(c, p.o, i, s.shards[i], post, r)])
  {
    var p := s.clients[c];
    steps, s' := OneStep(cfg, s, [], s, Acquire(c));
    assert s'.clients[c] == p.(stage := Holding);
    steps, s' := OneStep(cfg, s, steps, s', Execute(c, post, r));
    assert s'.clients[c] == p.(stage := Ran(r));
    steps, s' := OneStep(cfg, s, steps, s', Release(c));
    assert s'.owner == s.owner;
    assert s'.clients[c] == p.(stage := Replying(r));
    steps, s' := OneStep(cfg, s, steps, s', Collect(c));
    assert s'.clients == s.clients[c := Busy(p.o, p.got + [r], Dispatch)];
  }

  lemma SoloVisit<S, O, R>(cfg: Config<S, O, R>, s: State<S, O, R>, c: nat, post: S, r: R)
    returns (steps: seq<Step<S, O, R>>, s': State<S, O, R>)
    requires Alone(cfg, s, c) && InVisit(cfg, s, c) && s.clients[c].stage.Dispatch? && cfg.workers >= 1
    requires cfg.locked(s.clients[c].o) && cfg.body(s.clients[c].o, s.shards[At(cfg, c, s.clients[c])], post, r)
    ensures Runs(cfg, s, steps, s') && Alone(cfg, s', c)
    ensures var p, i := s.clients[c], At(cfg, c, s.clients[c]);
            s' == s.(clients := s.clients[c := Busy(p.o, p.got + [r], Dispatch)], shards := s.shards[i := post],
                     log := s.log + [Run(c, p.o, i, s.shards[i], post, r)])
  {
    var s1;
    steps, s1 := SoloEnter(cfg, s, c);
    var more;
    more, s' := SoloBody(cfg, s1, c, post, r);
    RunsJoin(cfg, s, steps, s1, more, s');
    steps := steps + more;
    assert s1.clients[c := s'.clients[c]] == s.clients[c := s'.clients[c]];
  }

  lemma IdleIsAlone<S, O, R>(cfg: Config<S, O, R>, s: State<S, O, R>, c: nat)
    requires Inv(cfg, s) && c < |s.clients| && forall x :: 0 <= x < |s.clients| ==> s.clients[x].Idle?
    ensures Alone(cfg, s, c)
  {
    forall i: nat, x: nat | i < cfg.servers && x < |s.clients| ensures s.owner[i] != Some(x) {
      assert !Owns(cfg, x, s.clients[x], i);
    }
  }

  /** A locked call to one server, with nobody else active, runs to its end. */
  lemma SoloCall<S, O, R>(cfg: Config<S, O, R>, s: State<S, O, R>, c: nat, o: O, post: S, r: R)
    returns (steps: seq<Step<S, O, R>>, s': State<S, O, R>)
    requires Inv(cfg, s) && c < |s.clients| && forall x :: 0 <= x < |s.clients| ==> s.clients[x].Idle?
    requires ValidCall(cfg, c, o) && |cfg.plan(c, o)| == 1 && cfg.locked(o) && cfg.workers >= 1
    requires cfg.body(o, s.shards[cfg.plan(c, o)[0]], post, r)
    ensures Runs(cfg, s, steps, s')
    ensures |s'.clients| == |s.clients| && forall x :: 0 <= x < |s'.clients| ==> s'.clients[x].Idle?
    ensures var i := cfg.plan(c, o)[0];
            s'.shards == s.shards[i := post] &&
            s'.log == s.log + [Invoke(c, o), Run(c, o, i, s.shards[i], post, r), Return(c, o, [r])]
  {
    var i := cfg.plan(c, o)[0];
    IdleIsAlone(cfg, s, c);
    var s1;
    steps, s1 := OneStep(cfg, s, [], s, Call(c, o));
    assert s1.clients[c] == Busy(o, [], Dispatch);
    var more, s2 := SoloVisit(cfg, s1, c, post, r);
    assert [] + [r] == [r];
    RunsJoin(cfg, s, steps, s1, more, s2);
    steps, s' := OneStep(cfg, s, steps + more, s2, Finish(c));
    assert s'.log == s.log + [Invoke(c, o), Run(c, o, i, s.shards[i], post, r), Return(c, o, [r])];
  }

  /** The call reads every server of its plan from the next visit on, and gets these replies. */
  ghost predicate Reads<S, O, R>(cfg: Config<S, O, R>, shards: seq<S>, c: nat, o: O, rs: seq<R>) {
    && |shards| == cfg.servers && |rs| == |cfg.plan(c, o)|
    && forall v :: 0 <= v < |rs| ==>
         cfg.plan(c, o)[v] < cfg.servers &&
         cfg.body(o, shards[cfg.plan(c, o)[v]], shards[cfg.plan(c, o)[v]], rs[v])
  }

  lemma {:induction false} SoloReads<S, O, R>(cfg: Config<S, O, R>, s: State<S, O, R>, c: nat, rs: seq<R>)
    returns (steps: seq<Step<S, O, R>>, s': State<S, O, R>)
    requires Alone(cfg, s, c) && s.clients[c].Busy? && s.clients[c].stage.Dispatch? && cfg.workers >= 1
    requires cfg.locked(s.clients[c].o) && Reads(cfg, s.shards, c, s.clients[c].o, rs)
    requires |s.clients[c].got| <= |rs| && s.clients[c].got == rs[..|s.clients[c].got|]
    ensures Runs(cfg, s, steps, s') && Alone(cfg, s', c) && s'.shards == s.shards
    ensures s'.clients == s.clients[c := Busy(s.clients[c].o, rs, Dispatch)]
    decreases |rs| - |s.clients[c].got|
  {
    var v := |s.clients[c].got|;
    if v == |rs| {
      assert s.clients[c] == Busy(s.clients[c].o, rs, Dispatch);
      steps, s' := [], s;
    } else {
      var i := At(cfg, c, s.clients[c]);
      var s1;
      steps, s1 := SoloVisit(cfg, s, c, s.shards[i], rs[v]);
      assert s1.shards == s.shards;
      assert s1.clients[c].got == rs[..v + 1];
      var more;
      more, s' := SoloReads(cfg, s1, c, rs);
      RunsJoin(cfg, s, steps, s1, more, s');
      steps := steps + more;
      assert s1.clients[c := s'.clients[c]] == s.clients[c := s'.clients[c]];
    }
  }

  /** A locked call that only reads, with nobody else active, runs to its end, however many servers it visits. */
  lemma SoloReadCall<S, O, R>(cfg: Config<S, O, R>, s: State<S, O, R>, c: nat, o: O, rs: seq<R>)
    returns (steps: seq<Step<S, O, R>>, s': State<S, O, R>)
    requires Inv(cfg, s) && c < |s.clients| && forall x :: 0 <= x < |s.clients| ==> s.clients[x].Idle?
    requires cfg.valid(o) && cfg.locked(o) && cfg.workers >= 1 && Reads(cfg, s.shards, c, o, rs)
    ensures Runs(cfg, s, steps, s') && s'.shards == s.shards && s'.clients == s.clients
    ensures s'.log != [] && s'.log[|s'.log| - 1] == Return(c, o, rs)
  {
    IdleIsAlone(cfg, s, c);
    var s1;
    steps, s1 := OneStep(cfg, s, [], s, Call(c, o));
    assert s1.clients[c] == Busy(o, [], Dispatch);
    var more, s2 := SoloReads(cfg, s1, c, rs);
    RunsJoin(cfg, s, steps, s1, more, s2);
    assert s2.clients[c] == Busy(o, rs, Dispatch);
    steps, s' := OneStep(cfg, s, steps + more, s2, Finish(c));
    assert s'.clients == s.clients;
  }
}
