/**
 What the log of a run says: each shard evolves only by the bodies logged for it, and each client's events
 form complete calls, one after the other.
 */
module RpcHistory {
  import opened RpcMachine

  /** Contents of shard `i` once the events of `log` have happened. */
  ghost function ShardAfter<S, O, R>(cfg: Config<S, O, R>, log: seq<Event<S, O, R>>, i: nat): S {
    if log == [] then cfg.init
    else
      var e := log[|log| - 1];
      if e.Run? && e.at == i then e.post else ShardAfter(cfg, log[..|log| - 1], i)
  }

  ghost predicate LegalEvent<S, O, R>(cfg: Config<S, O, R>, before: seq<Event<S, O, R>>, e: Event<S, O, R>) {
    e.Run? ==>
      && e.at < cfg.servers
      && cfg.valid(e.o)
      && e.pre == ShardAfter(cfg, before, e.at)
      && cfg.body(e.o, e.pre, e.post, e.r)
  }

  /** Every logged body ran on the contents its predecessors left behind. */
  ghost predicate Legal<S, O, R>(cfg: Config<S, O, R>, log: seq<Event<S, O, R>>) {
    forall i :: 0 <= i < |log| ==> LegalEvent(cfg, log[..i], log[i])
  }

  /** What a client is doing, judged by its events alone. */
  datatype View<O, R> = Quiet | Calling(o: O, got: seq<R>) | Broken

  ghost function Advance<S, O, R>(cfg: Config<S, O, R>, c: nat, v: View<O, R>, e: Event<S, O, R>): View<O, R> {
    if e.c != c then v else
    match e
    case Invoke(_, o) => if v.Quiet? then Calling(o, []) else Broken
    case Run(_, o, at, _, _, r) =>
      if v.Calling? && v.o == o && |v.got| < |cfg.plan(c, o)| && cfg.plan(c, o)[|v.got|] == at
      then Calling(o, v.got + [r]) else Broken
    case Return(_, o, rs) =>
      if v.Calling? && v.o == o && |v.got| == |cfg.plan(c, o)| && rs == v.got then Quiet else Broken
  }

  ghost function ViewAfter<S, O, R>(cfg: Config<S, O, R>, log: seq<Event<S, O, R>>, c: nat): View<O, R> {
    if log == [] then Quiet
    else Advance(cfg, c, ViewAfter(cfg, log[..|log| - 1], c), log[|log| - 1])
  }

  ghost predicate WellFormed<S, O, R>(cfg: Config<S, O, R>, log: seq<Event<S, O, R>>) {
    Legal(cfg, log) && forall c: nat :: ViewAfter(cfg, log, c) != Broken
  }

  lemma Snoc<S, O, R>(cfg: Config<S, O, R>, log: seq<Event<S, O, R>>, e: Event<S, O, R>)
    ensures forall i: nat :: ShardAfter(cfg, log + [e], i) ==
                      if e.Run? && e.at == i then e.post else ShardAfter(cfg, log, i)
    ensures forall c: nat :: ViewAfter(cfg, log + [e], c) == Advance(cfg, c, ViewAfter(cfg, log, c), e)
    ensures Legal(cfg, log) && LegalEvent(cfg, log, e) ==> Legal(cfg, log + [e])
  {
    var l := log + [e];
    assert l[..|l| - 1] == log;
    assert forall i :: 0 <= i <= |log| ==> l[..i] == log[..i];
    assert log[..|log|] == log;
  }

  // ---------- the invariant of the machine ----------

  ghost predicate Owns<S, O, R>(cfg: Config<S, O, R>, c: nat, p: Client<O, R>, i: nat) {
    Visiting(cfg, c, p) && (p.stage.Holding? || p.stage.Ran?) && At(cfg, c, p) == i
  }

  ghost function ViewOf<O, R>(p: Client<O, R>): View<O, R> {
    match p
    case Idle => Quiet
    case Busy(o, got, stage) =>
      Calling(o, if stage.Ran? || stage.Replying? then got + [stage.r] else got)
  }

  ghost predicate ClientOk<S, O, R>(cfg: Config<S, O, R>, c: nat, p: Client<O, R>) {
    p.Busy? ==>
      && ValidCall(cfg, c, p.o)
      && |p.got| <= |cfg.plan(c, p.o)|
      && (!p.stage.Dispatch? ==> Visiting(cfg, c, p))
      && (p.stage.InFlight? ==> !IsLocal(cfg, c, p))
      && (p.stage.Holding? || p.stage.Ran? ==> cfg.locked(p.o))
  }

  /** The mutex of server `i` is held by `c` exactly while `c` is between its lock and its unlock. */
  ghost predicate MutexOk<S, O, R>(cfg: Config<S, O, R>, s: State<S, O, R>)
    requires Shaped(cfg, s)
  {
    forall i: nat, c: nat :: i < cfg.servers && c < |s.clients| ==>
      (s.owner[i] == Some(c) <==> Owns(cfg, c, s.clients[c], i))
  }

  ghost predicate OwnersExist<S, O, R>(cfg: Config<S, O, R>, s: State<S, O, R>)
    requires Shaped(cfg, s)
  {
    forall i: nat :: i < cfg.servers && s.owner[i].Some? ==> s.owner[i].value < |s.clients|
  }

  ghost predicate ViewsOk<S, O, R>(cfg: Config<S, O, R>, s: State<S, O, R>) {
    && (forall c: nat :: c < |s.clients| ==> ViewAfter(cfg, s.log, c) == ViewOf(s.clients[c]))
    && (forall c: nat :: c >= |s.clients| ==> ViewAfter(cfg, s.log, c) == Quiet)
  }

  ghost predicate Inv<S, O, R>(cfg: Config<S, O, R>, s: State<S, O, R>) {
    && Shaped(cfg, s)
    && (forall c: nat :: c < |s.clients| ==> ClientOk(cfg, c, s.clients[c]))
    && MutexOk(cfg, s)
    && OwnersExist(cfg, s)
    && (forall i: nat :: i < cfg.servers ==> s.shards[i] == ShardAfter(cfg, s.log, i))
    && Legal(cfg, s.log)
    && ViewsOk(cfg, s)
  }

  lemma InitInv<S, O, R>(cfg: Config<S, O, R>, s: State<S, O, R>)
    requires Init(cfg, s)
    ensures Inv(cfg, s)
  {
  }

  lemma StepKeepsClients<S, O, R>(cfg: Config<S, O, R>, s: State<S, O, R>, t: Step<S, O, R>)
    requires Inv(cfg, s) && Enabled(cfg, s, t)
    ensures var s' := After(cfg, s, t);
            && Shaped(cfg, s') && |s'.clients| == |s.clients|
            && (forall c: nat :: c < |s'.clients| && c != t.c ==> s'.clients[c] == s.clients[c])
            && (forall c: nat :: c < |s'.clients| ==> ClientOk(cfg, c, s'.clients[c]))
  {
    assert ClientOk(cfg, t.c, s.clients[t.c]);
  }

  /** Only `t.c` may enter or leave a critical section, and only that of the server it visits. */
  lemma StepKeepsMutexes<S, O, R>(cfg: Config<S, O, R>, s: State<S, O, R>, t: Step<S, O, R>)
    requires Inv(cfg, s) && Enabled(cfg, s, t)
    ensures Shaped(cfg, After(cfg, s, t)) && MutexOk(cfg, After(cfg, s, t)) && OwnersExist(cfg, After(cfg, s, t))
    ensures forall i: nat :: i < cfg.servers && After(cfg, s, t).owner[i] != s.owner[i] ==>
              && Visiting(cfg, t.c, s.clients[t.c]) && At(cfg, t.c, s.clients[t.c]) == i
              && ((t.Acquire? && s.owner[i] == None && After(cfg, s, t).owner[i] == Some(t.c))
                  || (t.Release? && s.owner[i] == Some(t.c) && After(cfg, s, t).owner[i] == None))
    ensures forall i: nat, c: nat :: c < |s.clients| && c != t.c ==>
              (Owns(cfg, c, After(cfg, s, t).clients[c], i) <==> Owns(cfg, c, s.clients[c], i))
  {
    StepKeepsClients(cfg, s, t);
    var s' := After(cfg, s, t);
    var p := s.clients[t.c];
    assert ClientOk(cfg, t.c, p);
    forall i: nat, c: nat | i < cfg.servers && c < |s'.clients|
      ensures s'.owner[i] == Some(c) <==> Owns(cfg, c, s'.clients[c], i)
    {
      assert s.owner[i] == Some(c) <==> Owns(cfg, c, s.clients[c], i);
      assert s.owner[i] == Some(t.c) <==> Owns(cfg, t.c, p, i);
    }
  }

  /** What a step adds to the log. */
  ghost function NewEvents<S, O, R>(cfg: Config<S, O, R>, s: State<S, O, R>, t: Step<S, O, R>): seq<Event<S, O, R>>
    requires Enabled(cfg, s, t)
  {
    var p := s.clients[t.c];
    match t
    case Call(c, o) => [Invoke(c, o)]
    case Execute(c, post, r) => [Run(c, p.o, At(cfg, c, p), s.shards[At(cfg, c, p)], post, r)]
    case Peek(c, r) => [Run(c, p.o, At(cfg, c, p), s.shards[At(cfg, c, p)], s.shards[At(cfg, c, p)], r)]
    case Finish(c) => [Return(c, p.o, p.got)]
    case _ => []
  }

  lemma StepKeepsShards<S, O, R>(cfg: Config<S, O, R>, s: State<S, O, R>, t: Step<S, O, R>)
    requires Inv(cfg, s) && Enabled(cfg, s, t)
    ensures var s' := After(cfg, s, t);
            && |s'.shards| == cfg.servers && s'.log == s.log + NewEvents(cfg, s, t)
            && (forall i: nat :: i < cfg.servers ==> s'.shards[i] == ShardAfter(cfg, s'.log, i))
            && Legal(cfg, s'.log)
  {
    assert ClientOk(cfg, t.c, s.clients[t.c]);
    var added := NewEvents(cfg, s, t);
    if added != [] {
      Snoc(cfg, s.log, added[0]);
    } else {
      assert s.log + added == s.log;
    }
  }

  lemma ViewSnoc<S, O, R>(cfg: Config<S, O, R>, log: seq<Event<S, O, R>>, added: seq<Event<S, O, R>>, c: nat)
    requires |added| <= 1
    ensures ViewAfter(cfg, log + added, c) ==
            if added == [] then ViewAfter(cfg, log, c) else Advance(cfg, c, ViewAfter(cfg, log, c), added[0])
  {
    if added == [] {
      assert log + added == log;
    } else {
      assert added == [added[0]];
      Snoc(cfg, log, added[0]);
    }
  }

  /** The events of a step move the view of its client just as the step moves the client. */
  lemma OwnView<S, O, R>(cfg: Config<S, O, R>, s: State<S, O, R>, t: Step<S, O, R>)
    requires Enabled(cfg, s, t) && ClientOk(cfg, t.c, s.clients[t.c])
    ensures var p' := After(cfg, s, t).clients[t.c];
            var added := NewEvents(cfg, s, t);
            ViewOf(p') ==
            if added == [] then ViewOf(s.clients[t.c]) else Advance(cfg, t.c, ViewOf(s.clients[t.c]), added[0])
  {
  }

  lemma ViewsFollow<S, O, R>(cfg: Config<S, O, R>, s: State<S, O, R>, s': State<S, O, R>, c: nat,
                             added: seq<Event<S, O, R>>)
    requires ViewsOk(cfg, s) && c < |s.clients| == |s'.clients|
    requires forall x: nat :: x < |s.clients| && x != c ==> s'.clients[x] == s.clients[x]
    requires |added| <= 1 && s'.log == s.log + added && (added != [] ==> added[0].c == c)
    requires ViewOf(s'.clients[c]) ==
             if added == [] then ViewOf(s.clients[c]) else Advance(cfg, c, ViewOf(s.clients[c]), added[0])
    ensures ViewsOk(cfg, s')
  {
    forall x: nat ensures ViewAfter(cfg, s'.log, x) == if x < |s'.clients| then ViewOf(s'.clients[x]) else Quiet {
      ViewSnoc(cfg, s.log, added, x);
    }
  }

  lemma StepKeepsViews<S, O, R>(cfg: Config<S, O, R>, s: State<S, O, R>, t: Step<S, O, R>)
    requires Inv(cfg, s) && Enabled(cfg, s, t)
    ensures ViewsOk(cfg, After(cfg, s, t))
  {
    StepKeepsClients(cfg, s, t);
    StepKeepsShards(cfg, s, t);
    OwnView(cfg, s, t);
    ViewsFollow(cfg, s, After(cfg, s, t), t.c, NewEvents(cfg, s, t));
  }

  /** Every step keeps the invariant. */
  lemma StepInv<S, O, R>(cfg: Config<S, O, R>, s: State<S, O, R>, t: Step<S, O, R>)
    requires Inv(cfg, s) && Enabled(cfg, s, t)
    ensures Inv(cfg, After(cfg, s, t))
  {
    StepKeepsClients(cfg, s, t);
    StepKeepsMutexes(cfg, s, t);
    StepKeepsShards(cfg, s, t);
    StepKeepsViews(cfg, s, t);
  }

  lemma {:induction false} RunInv<S, O, R>(cfg: Config<S, O, R>, s: State<S, O, R>, steps: seq<Step<S, O, R>>,
                                           s': State<S, O, R>)
    requires Inv(cfg, s) && Runs(cfg, s, steps, s')
    ensures Inv(cfg, s')
    decreases |steps|
  {
    if steps != [] {
      StepInv(cfg, s, steps[0]);
      RunInv(cfg, After(cfg, s, steps[0]), steps[1..], s');
    }
  }

  lemma ReachableInv<S(!new), O(!new), R(!new)>(cfg: Config<S, O, R>, s: State<S, O, R>)
    requires Reachable(cfg, s)
    ensures Inv(cfg, s) && WellFormed(cfg, s.log)
  {
    var s0, steps :| Init(cfg, s0) && Runs(cfg, s0, steps, s);
    InitInv(cfg, s0);
    RunInv(cfg, s0, steps, s);
  }
}
