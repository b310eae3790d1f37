/**
 Calls, read off a log: where a call began, where each of its visits took effect, where it returned.
 A visit takes effect between the beginning and the end of its call, so the order of effects respects real time.
 */
module RpcCalls {
  import opened RpcMachine
  import opened RpcHistory

  /** Event `p` is the visit number `i` of the call `o` of client `c`. */
  ghost predicate VisitAt<S, O, R>(cfg: Config<S, O, R>, e: Event<S, O, R>, c: nat, o: O, i: nat, r: R) {
    e.Run? && e.c == c && e.o == o && i < |cfg.plan(c, o)| && e.at == cfg.plan(c, o)[i] && e.r == r
  }

  /** Client `c` called `o` at `h`; the visits so far took effect at `ps`, with replies `got`; nothing else of `c`
      follows. */
  ghost predicate OpenSince<S, O, R>(cfg: Config<S, O, R>, log: seq<Event<S, O, R>>, c: nat, o: O, got: seq<R>,
                                     h: nat, ps: seq<nat>) {
    && h < |log| && log[h] == Invoke(c, o)
    && |ps| == |got| <= |cfg.plan(c, o)|
    && (forall i :: 0 <= i < |ps| ==> h < ps[i] < |log| && VisitAt(cfg, log[ps[i]], c, o, i, got[i]))
    && (forall i, j :: 0 <= i < j < |ps| ==> ps[i] < ps[j])
    && (forall x: nat :: h < x < |log| && log[x].c == c ==> x in ps)
  }

  /** The call that returned at `j` began at `h`, and its visits took effect at `ps`. */
  ghost predicate CallSpan<S, O, R>(cfg: Config<S, O, R>, log: seq<Event<S, O, R>>, j: nat, h: nat, ps: seq<nat>) {
    && j < |log| && log[j].Return?
    && OpenSince(cfg, log[..j], log[j].c, log[j].o, log[j].rs, h, ps)
    && |ps| == |cfg.plan(log[j].c, log[j].o)|
  }

  lemma {:induction false} OpenCall<S, O, R>(cfg: Config<S, O, R>, log: seq<Event<S, O, R>>, c: nat)
    returns (h: nat, ps: seq<nat>)
    requires ViewAfter(cfg, log, c).Calling?
    ensures OpenSince(cfg, log, c, ViewAfter(cfg, log, c).o, ViewAfter(cfg, log, c).got, h, ps)
  {
    var n := |log| - 1;
    var e := log[n];
    var before := log[..n];
    if e.c != c {
      h, ps := OpenCall(cfg, before, c);
    } else if e.Invoke? {
      h, ps := n, [];
    } else {
      h, ps := OpenCall(cfg, before, c);
      OneMoreVisit(cfg, log, c, h, ps);
      ps := ps + [n];
    }
  }

  lemma OneMoreVisit<S, O, R>(cfg: Config<S, O, R>, log: seq<Event<S, O, R>>, c: nat, h: nat, ps: seq<nat>)
    requires log != [] && ViewAfter(cfg, log, c).Calling? && log[|log| - 1].c == c && !log[|log| - 1].Invoke?
    requires var v := ViewAfter(cfg, log[..|log| - 1], c);
             v.Calling? && OpenSince(cfg, log[..|log| - 1], c, v.o, v.got, h, ps)
    ensures OpenSince(cfg, log, c, ViewAfter(cfg, log, c).o, ViewAfter(cfg, log, c).got, h, ps + [|log| - 1])
  {
    var before := log[..|log| - 1];
    assert forall x :: 0 <= x < |before| ==> before[x] == log[x];
  }

  lemma {:induction false} ViewOfPrefix<S, O, R>(cfg: Config<S, O, R>, log: seq<Event<S, O, R>>, n: nat, c: nat)
    requires n <= |log| && ViewAfter(cfg, log, c) != Broken
    ensures ViewAfter(cfg, log[..n], c) != Broken
    decreases |log|
  {
    if n == |log| {
      assert log[..n] == log;
    } else {
      var m := |log| - 1;
      assert log[..m][..n] == log[..n];
      ViewOfPrefix(cfg, log[..m], n, c);
    }
  }

  /** Every prefix of a well-formed log is one. */
  lemma PrefixWellFormed<S, O, R>(cfg: Config<S, O, R>, log: seq<Event<S, O, R>>, n: nat)
    requires WellFormed(cfg, log) && n <= |log|
    ensures WellFormed(cfg, log[..n])
  {
    forall c: nat ensures ViewAfter(cfg, log[..n], c) != Broken {
      ViewOfPrefix(cfg, log, n, c);
    }
    forall i | 0 <= i < n ensures LegalEvent(cfg, log[..n][..i], log[..n][i]) {
      assert log[..n][..i] == log[..i];
      assert LegalEvent(cfg, log[..i], log[i]);
    }
  }

  /** A body runs on a server of the plan of its call. */
  lemma RunsOnPlan<S, O, R>(cfg: Config<S, O, R>, log: seq<Event<S, O, R>>, i: nat)
    requires WellFormed(cfg, log) && i < |log| && log[i].Run?
    ensures log[i].at in cfg.plan(log[i].c, log[i].o)
    ensures LegalEvent(cfg, log[..i], log[i])
  {
    ViewOfPrefix(cfg, log, i + 1, log[i].c);
    assert log[..i + 1][..i] == log[..i];
  }

  /** Every return answers one call, whose visits all took effect in between, in the order of its plan,
      and the returned replies are the replies of those visits. */
  lemma ReturnAnswersOneCall<S, O, R>(cfg: Config<S, O, R>, log: seq<Event<S, O, R>>, j: nat)
    returns (h: nat, ps: seq<nat>)
    requires WellFormed(cfg, log) && j < |log| && log[j].Return?
    ensures CallSpan(cfg, log, j, h, ps)
  {
    var e := log[j];
    ViewOfPrefix(cfg, log, j + 1, e.c);
    var l := log[..j + 1];
    assert l[..|l| - 1] == log[..j];
    h, ps := OpenCall(cfg, log[..j], e.c);
  }

  /** A call that returned before another began took effect before it: no visit of the later call precedes a visit of
      the earlier one. */
  lemma EffectsRespectRealTime<S, O, R>(cfg: Config<S, O, R>, log: seq<Event<S, O, R>>,
                                        j: nat, h: nat, ps: seq<nat>, j': nat, h': nat, ps': seq<nat>)
    requires CallSpan(cfg, log, j, h, ps) && CallSpan(cfg, log, j', h', ps')
    requires j < h'
    ensures forall i, i' :: 0 <= i < |ps| && 0 <= i' < |ps'| ==> ps[i] < ps'[i']
  {
    forall i, i' | 0 <= i < |ps| && 0 <= i' < |ps'| ensures ps[i] < ps'[i'] {
      assert ps[i] < j && h' < ps'[i'];
    }
  }
}
