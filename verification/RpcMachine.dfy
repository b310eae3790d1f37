/**
 The protocol every basket container follows.  Each server keeps one shard behind one mutex.
 A client call visits a list of servers (one for Put, Get, Pop ...; all of them for a
 scatter-gather call).  A visit runs a Local* function, on the client's own thread when the server is
 the client's own and lies on its node, on a worker thread of the RPC server otherwise.

 The state carries a log, a pure history: it is written by the steps and never read by them.
 */
module RpcMachine {
  datatype Option<+T> = None | Some(value: T)

  /** One deployment of one container.
      S: contents of a shard, O: operations of the container, R: replies of a Local* function. */
  datatype Config<!S, !O, !R> = Config(
    servers: nat,                  // num_servers
    workers: nat,                  // RPC_THREADS: how many requests a server handles at a time
    home: nat -> nat,              // my_server of each client
    onNode: nat -> bool,           // server_on_node of each client
    plan: (nat, O) -> seq<nat>,    // servers a call visits, in order
    valid: O -> bool,              // operations the container offers
    locked: O -> bool,             // whether the Local* function takes the mutex
    init: S,
    body: (O, S, S, R) -> bool)    // what the Local* function does to a shard, and its reply

  /** Where a call stands in its current visit. */
  datatype Stage<R> =
    | Dispatch            // between two visits
    | InFlight            // the request travels to the server
    | Queued              // first line of the Local* function
    | Holding             // owns the mutex, body not yet run
    | Ran(r: R)           // body run, mutex still owned
    | Replying(r: R)      // mutex released, the reply travels back

  datatype Client<O, R> = Idle | Busy(o: O, got: seq<R>, stage: Stage<R>)

  datatype Event<S, O, R> =
    | Invoke(c: nat, o: O)
    | Run(c: nat, o: O, at: nat, pre: S, post: S, r: R)
    | Return(c: nat, o: O, rs: seq<R>)

  datatype State<S, O, R> = State(
    shards: seq<S>,
    owner: seq<Option<nat>>,       // the client call that holds the mutex of each server
    clients: seq<Client<O, R>>,
    log: seq<Event<S, O, R>>)

  datatype Step<S, O, R> =
    | Call(c: nat, o: O)
    | Send(c: nat)                       // take the local path, or put the request on the wire
    | Deliver(c: nat)
    | Acquire(c: nat)
    | Execute(c: nat, post: S, r: R)     // the body, under the mutex
    | Release(c: nat)
    | Peek(c: nat, r: R)                 // a Local* function without a lock reads the shard
    | Collect(c: nat)                    // the reply reaches the caller
    | Finish(c: nat)

  ghost predicate ValidCall<S, O, R>(cfg: Config<S, O, R>, c: nat, o: O) {
    cfg.valid(o) && forall i :: 0 <= i < |cfg.plan(c, o)| ==> cfg.plan(c, o)[i] < cfg.servers
  }

  ghost predicate Visiting<S, O, R>(cfg: Config<S, O, R>, c: nat, p: Client<O, R>) {
    p.Busy? && |p.got| < |cfg.plan(c, p.o)| && cfg.plan(c, p.o)[|p.got|] < cfg.servers
  }

  /** The server a visiting call is at. */
  ghost function At<S, O, R>(cfg: Config<S, O, R>, c: nat, p: Client<O, R>): nat
    requires Visiting(cfg, c, p)
  {
    cfg.plan(c, p.o)[|p.got|]
  }

  ghost predicate Shaped<S, O, R>(cfg: Config<S, O, R>, s: State<S, O, R>) {
    |s.shards| == cfg.servers && |s.owner| == cfg.servers
  }

  ghost predicate InVisit<S, O, R>(cfg: Config<S, O, R>, s: State<S, O, R>, c: nat) {
    Shaped(cfg, s) && c < |s.clients| && Visiting(cfg, c, s.clients[c])
  }

  /** `key_int == my_server && server_on_node`.  Only the first visit of a call can run on the client's own thread:
      the loop of a scatter-gather call sends an RPC to every server it comes to. */
  ghost predicate IsLocal<S, O, R>(cfg: Config<S, O, R>, c: nat, p: Client<O, R>)
    requires Visiting(cfg, c, p)
  {
    At(cfg, c, p) == cfg.home(c) && cfg.onNode(c) && p.got == []
  }

  /** The request of this call occupies a worker thread of server `i`. */
  ghost predicate OnWorker<S, O, R>(cfg: Config<S, O, R>, c: nat, p: Client<O, R>, i: nat) {
    && Visiting(cfg, c, p) && At(cfg, c, p) == i && !IsLocal(cfg, c, p)
    && (p.stage.Queued? || p.stage.Holding? || p.stage.Ran?)
  }

  ghost function BusyWorkers<S, O, R>(cfg: Config<S, O, R>, s: State<S, O, R>, i: nat): set<nat> {
    set c: nat | c < |s.clients| && OnWorker(cfg, c, s.clients[c], i)
  }

  ghost predicate Enabled<S, O, R>(cfg: Config<S, O, R>, s: State<S, O, R>, t: Step<S, O, R>) {
    Shaped(cfg, s) && t.c < |s.clients| &&
    var p := s.clients[t.c];
    match t
    case Call(c, o) => p.Idle? && ValidCall(cfg, c, o)
    case Send(c) => InVisit(cfg, s, c) && p.stage.Dispatch?
    case Deliver(c) =>
      InVisit(cfg, s, c) && p.stage.InFlight? && |BusyWorkers(cfg, s, At(cfg, c, p))| < cfg.workers
    case Acquire(c) => InVisit(cfg, s, c) && p.stage.Queued? && cfg.locked(p.o) && s.owner[At(cfg, c, p)].None?
    case Execute(c, post, r) =>
      InVisit(cfg, s, c) && p.stage.Holding? && cfg.body(p.o, s.shards[At(cfg, c, p)], post, r)
    case Release(c) => InVisit(cfg, s, c) && p.stage.Ran?
    case Peek(c, r) =>
      InVisit(cfg, s, c) && p.stage.Queued? && !cfg.locked(p.o) &&
      cfg.body(p.o, s.shards[At(cfg, c, p)], s.shards[At(cfg, c, p)], r)
    case Collect(c) => InVisit(cfg, s, c) && p.stage.Replying?
    case Finish(c) => p.Busy? && p.stage.Dispatch? && |p.got| == |cfg.plan(c, p.o)|
  }

  ghost function After<S, O, R>(cfg: Config<S, O, R>, s: State<S, O, R>, t: Step<S, O, R>): State<S, O, R>
    requires Enabled(cfg, s, t)
  {
    var p := s.clients[t.c];
    match t
    case Call(c, o) =>
      s.(clients := s.clients[c := Busy(o, [], Dispatch)], log := s.log + [Invoke(c, o)])
    case Send(c) =>
      s.(clients := s.clients[c := p.(stage := if IsLocal(cfg, c, p) then Queued else InFlight)])
    case Deliver(c) =>
      s.(clients := s.clients[c := p.(stage := Queued)])
    case Acquire(c) =>
      s.(clients := s.clients[c := p.(stage := Holding)], owner := s.owner[At(cfg, c, p) := Some(c)])
    case Execute(c, post, r) =>
      var i := At(cfg, c, p);
      s.(clients := s.clients[c := p.(stage := Ran(r))], shards := s.shards[i := post],
         log := s.log + [Run(c, p.o, i, s.shards[i], post, r)])
    case Release(c) =>
      s.(clients := s.clients[c := p.(stage := Replying(p.stage.r))], owner := s.owner[At(cfg, c, p) := None])
    case Peek(c, r) =>
      var i := At(cfg, c, p);
      s.(clients := s.clients[c := p.(stage := Replying(r))],
         log := s.log + [Run(c, p.o, i, s.shards[i], s.shards[i], r)])
    case Collect(c) =>
      s.(clients := s.clients[c := p.(got := p.got + [p.stage.r], stage := Dispatch)])
    case Finish(c) =>
      s.(clients := s.clients[c := Idle], log := s.log + [Return(c, p.o, p.got)])
  }

  /** All shards hold their initial contents, all mutexes are free and all clients are idle. */
  ghost predicate Init<S, O, R>(cfg: Config<S, O, R>, s: State<S, O, R>) {
    && Shaped(cfg, s)
    && (forall i :: 0 <= i < cfg.servers ==> s.shards[i] == cfg.init && s.owner[i].None?)
    && (forall c :: 0 <= c < |s.clients| ==> s.clients[c].Idle?)
    && s.log == []
  }

  /** `steps` can be taken one after the other from `s`, and lead to `s'`. */
  ghost predicate Runs<S, O, R>(cfg: Config<S, O, R>, s: State<S, O, R>, steps: seq<Step<S, O, R>>, s': State<S, O, R>)
    decreases |steps|
  {
    if steps == [] then s' == s
    else Enabled(cfg, s, steps[0]) && Runs(cfg, After(cfg, s, steps[0]), steps[1..], s')
  }

  ghost predicate Reachable<S(!new), O(!new), R(!new)>(cfg: Config<S, O, R>, s: State<S, O, R>) {
    exists s0, steps :: Init(cfg, s0) && Runs(cfg, s0, steps, s)
  }
}
