/** What the registry's invariant means for the connections: entered once, removed once, freed in time. */
module ServerProtocol {
  import opened ConnectionSpec
  import opened ServerNames
  import opened ServerSpec
  import opened ServerSafety

  lemma IdleInv(names: Names, ioLoops: nat)
    ensures RegistryInv(names, Idle(ioLoops), {})
  {
  }

  /** No interleaving trips an assertion of the registry or of connection_established; every connection
      is found under its own name exactly from its acceptance until its removal runs. */
  lemma RegistryProtocol(names: Names, ioLoops: nat, steps: seq<Step>)
    requires |names.ipPort| <= 51 && Legal(names, Idle(ioLoops), steps)
    ensures var s := After(names, Idle(ioLoops), steps);
            && !s.crashed
            && (forall id: Id | Known(s, id) ::
                  id !in s.erased <==> names.Of(id) in s.registry && s.registry[names.Of(id)] == id)
            && (forall n | n in s.registry :: Known(s, s.registry[n]) && n == names.Of(s.registry[n]))
            && (forall id | id in s.erased :: Known(s, id) && s.peers[id].state == DISCONNECTED)
  {
    IdleInv(names, ioLoops);
    RunKeepsInv(names, Idle(ioLoops), steps);
  }

  /** A step leaves the registry alone, or enters the connection just accepted under a name not in use,
      or removes one that has never been removed before. */
  ghost predicate RegistryMoves(names: Names, s: Server, r: Server) {
    || (r.registry == s.registry && r.erased == s.erased)
    || (names.Of(|s.peers|) !in s.registry && |r.peers| == |s.peers| + 1 && r.erased == s.erased &&
        r.registry == s.registry[names.Of(|s.peers|) := |s.peers|])
    || (exists id: Id :: Removes(names, s, r, id))
  }

  ghost predicate Removes(names: Names, s: Server, r: Server, id: Id) {
    && id in s.registry.Values && id !in s.erased && r.erased == s.erased + {id}
    && r.registry == s.registry - {names.Of(id)}
  }

  lemma RemovesOne(names: Names, s: Server, id: Id)
    requires Shaped(s) && Registered(names, s) && Known(s, id) && id !in s.erased
    ensures Removes(names, s, DoRemove(names, s, id), id)
  {
    assert s.registry[names.Of(id)] in s.registry.Values;
  }

  lemma StepMovesRegistry(names: Names, s: Server, step: Step)
    requires |names.ipPort| <= 51
    requires RegistryInv(names, s, {}) && Enabled(s, step)
    ensures RegistryMoves(names, s, Apply(names, s, step))
  {
    hide AllOrdered, Present, TasksOk, ConnName, DoStop;
    match step
    case Accept(loop) => EnteredRegistered(names, s, loop);
    case Close(id) => CloseMovesRegistry(names, s, id); hide Registered, RegistryMoves;
    case Execute(l, order) => FunctorMovesRegistry(names, s, l, order); hide Registered, RegistryMoves;
    case _ =>
  }

  lemma CloseMovesRegistry(names: Names, s: Server, id: Id)
    requires RegistryInv(names, s, {}) && Enabled(s, Close(id))
    ensures RegistryMoves(names, s, Apply(names, s, Close(id)))
  {
    hide AllOrdered, Present, TasksOk, ConnName;
    if s.peers[id].loop == BASE {
      RemovesOne(names, SetState(s, id, DISCONNECTED), id);
      assert Removes(names, s, Apply(names, s, Close(id)), id);
    }
  }

  lemma FunctorMovesRegistry(names: Names, s: Server, l: LoopId, order: seq<Id>)
    requires RegistryInv(names, s, {}) && Enabled(s, Execute(l, order))
    ensures RegistryMoves(names, s, Apply(names, s, Execute(l, order)))
  {
    hide AllOrdered, Present, ConnName, DoStop;
    var t, r := s.queues[l][0], Apply(names, s, Execute(l, order));
    assert TaskOk(s, l, t);
    match t
    case Remove(id) =>
      RemovesOne(names, Pop(s, l), id);
      assert Removes(names, s, r, id);
    case _ =>
  }

  // ---- references -----------------------------------------------------------------------------

  /** The functor captured the shared pointer, not the bare `this`. */
  predicate HoldsReference(t: Task) {
    t.Setup? || t.Remove? || t.Teardown? || t.Hangup?
  }

  ghost predicate Held(s: Server, id: Id) {
    id in s.registry.Values || exists l: LoopId, t: Task :: Queued(s, l, t) && HoldsReference(t) && t.id == id
  }

  /** The last reference goes exactly when the teardown has run and no hang-up is still on its way; the
      destructor's assertion, that the state is DISCONNECTED, holds then. */
  lemma FreedExactly(names: Names, s: Server, id: Id)
    requires RegistryInv(names, s, {}) && Known(s, id)
    ensures !Held(s, id) <==> id in s.torndown && !Queued(s, s.peers[id].loop, Hangup(id))
    ensures !Held(s, id) ==> s.peers[id].state == DISCONNECTED
  {
    hide Ordered;
    if id !in s.erased {
      assert s.registry[names.Of(id)] in s.registry.Values;
    } else if id in s.torndown && !Queued(s, s.peers[id].loop, Hangup(id)) {
      forall l: LoopId, t: Task | Queued(s, l, t) && HoldsReference(t)
        ensures t.id != id
      {
        assert TaskOk(s, l, t);
      }
    }
  }

  /** So it is in every run. */
  lemma FreedOnlyDisconnected(names: Names, ioLoops: nat, steps: seq<Step>, id: Id)
    requires |names.ipPort| <= 51 && Legal(names, Idle(ioLoops), steps)
    requires Known(After(names, Idle(ioLoops), steps), id) && !Held(After(names, Idle(ioLoops), steps), id)
    ensures After(names, Idle(ioLoops), steps).peers[id].state == DISCONNECTED
  {
    IdleInv(names, ioLoops);
    RunKeepsInv(names, Idle(ioLoops), steps);
    FreedExactly(names, After(names, Idle(ioLoops), steps), id);
  }

  /** A functor that borrowed its connection while this was registered keeps nothing alive, yet whenever
      it runs the connection still exists. */
  lemma BorrowerFindsConnection(names: Names, s: Server, l: LoopId)
    requires RegistryInv(names, s, {}) && l < |s.queues| && s.queues[l] != [] && Borrows(s.queues[l][0])
    ensures Known(s, s.queues[l][0].id) && Held(Pop(s, l), s.queues[l][0].id)
  {
    var id := s.queues[l][0].id;
    assert TaskOk(s, l, s.queues[l][0]);
    PopKeepsInv(names, s, l);
    if id in s.erased {
      assert Queued(Pop(s, l), l, Teardown(id)) && HoldsReference(Teardown(id));
    } else {
      assert Pop(s, l).registry[names.Of(id)] in Pop(s, l).registry.Values;
    }
  }

  /** The functor that send() on another thread leaves behind finds its connection alive exactly when it
      was queued before the removal ran, ahead of the teardown, or when a hang-up still holds a reference. */
  lemma MessageFindsConnectionIff(names: Names, s: Server, l: LoopId)
    requires RegistryInv(names, s, {}) && l < |s.queues| && s.queues[l] != [] && s.queues[l][0].Message?
    ensures Known(s, s.queues[l][0].id)
    ensures var m := s.queues[l][0]; Held(Pop(s, l), m.id) <==> m.early || Queued(Pop(s, l), l, Hangup(m.id))
  {
    var m, p := s.queues[l][0], Pop(s, l);
    assert TaskOk(s, l, m);
    PopKeepsInv(names, s, l);
    EmptyHand(names, p, m);
    FreedExactly(names, p, m.id);
    if m.early {
      BorrowerFindsConnection(names, s, l);
    } else {
      hide Ordered;
      assert m.id in p.torndown;
    }
  }

  // ---- when the queues have drained -----------------------------------------------------------

  predicate Drained(s: Server) {
    forall l | 0 <= l < |s.queues| :: s.queues[l] == []
  }

  /** A loop with a functor can always run it. */
  lemma ExecuteIsEnabled(names: Names, s: Server, l: LoopId, order: seq<Id>)
    requires RegistryInv(names, s, {}) && l < |s.queues| && s.queues[l] != [] && IsOrder(order, s.registry)
    ensures Enabled(s, Execute(l, order))
  {
    assert TaskOk(s, l, s.queues[l][0]);
    forall id | id in order
      ensures Known(s, id)
    {
      var n :| n in s.registry && s.registry[n] == id;
    }
  }

  /** Nothing is left behind: the registry holds the open connections and no others, and every closed one
      has been freed. */
  lemma NothingLeaks(names: Names, s: Server, id: Id)
    requires RegistryInv(names, s, {}) && Drained(s) && Known(s, id)
    ensures s.peers[id].state != CONNECTING
    ensures s.peers[id].state == DISCONNECTED <==> !Held(s, id)
    ensures id in s.registry.Values <==> s.peers[id].state != DISCONNECTED
    ensures id in s.stopped ==> s.peers[id].state == DISCONNECTING || s.peers[id].state == DISCONNECTED
  {
    hide Ordered, TaskOk;
    assert forall l: LoopId, t: Task :: !Queued(s, l, t);
    if id !in s.erased {
      assert s.registry[names.Of(id)] in s.registry.Values;
    }
  }

  /** The step runs the body of stop(), at once or as a functor. */
  predicate Stops(s: Server, step: Step, order: seq<Id>) {
    || step == StopCall(true, order)
    || (step == Execute(BASE, order) && |s.queues| > 0 && s.queues[BASE] != [] && s.queues[BASE][0] == StopAll)
  }

  lemma StepKeepsStopped(names: Names, s: Server, step: Step)
    requires |names.ipPort| <= 51 && RegistryInv(names, s, {}) && Enabled(s, step)
    ensures s.stopped <= Apply(names, s, step).stopped && |s.peers| <= |Apply(names, s, step).peers|
    ensures forall order | Stops(s, step, order) :: s.registry.Values <= Apply(names, s, step).stopped
  {
    hide AllOrdered, Present, TasksOk, Registered;
    match step
    case StopCall(onBase, order) =>
      if onBase {
        StopKeepsInv(names, s, order);
      }
    case Execute(l, order) =>
      if s.queues[l][0] == StopAll {
        StopFunctorKeepsInv(names, s, l, order);
      }
    case _ =>
  }

  lemma {:induction false} RunKeepsStopped(names: Names, s: Server, steps: seq<Step>)
    requires |names.ipPort| <= 51 && RegistryInv(names, s, {}) && Legal(names, s, steps)
    ensures s.stopped <= After(names, s, steps).stopped && |s.peers| <= |After(names, s, steps).peers|
    decreases |steps|
  {
    hide RegistryInv;
    if steps != [] {
      StepKeepsInv(names, s, steps[0]);
      StepKeepsStopped(names, s, steps[0]);
      RunKeepsStopped(names, Apply(names, s, steps[0]), steps[1..]);
    }
  }

  /** stop() reaches every connection registered when its body runs: once the queues have drained, however
      the loops were interleaved, none of those is open for sending any more. */
  lemma StopReachesAll(names: Names, s: Server, step: Step, order: seq<Id>, rest: seq<Step>, id: Id)
    requires |names.ipPort| <= 51 && RegistryInv(names, s, {})
    requires Enabled(s, step) && Stops(s, step, order) && Legal(names, Apply(names, s, step), rest)
    requires Drained(After(names, Apply(names, s, step), rest)) && id in s.registry.Values
    ensures var r := After(names, Apply(names, s, step), rest);
            Known(r, id) && (r.peers[id].state == DISCONNECTING || r.peers[id].state == DISCONNECTED)
  {
    hide AllOrdered, Present, TasksOk, Apply, Enabled, Drained;
    var m := Apply(names, s, step);
    StepKeepsInv(names, s, step);
    StepKeepsStopped(names, s, step);
    RunKeepsInv(names, m, rest);
    RunKeepsStopped(names, m, rest);
    NothingLeaks(names, After(names, m, rest), id);
  }

  // ---- exactly when the registry is safe ------------------------------------------------------

  lemma {:induction false} OneMoreStep(names: Names, s: Server, steps: seq<Step>, x: Step)
    requires Legal(names, s, steps) && Enabled(After(names, s, steps), x)
    ensures Legal(names, s, steps + [x])
    ensures After(names, s, steps + [x]) == Apply(names, After(names, s, steps), x)
    decreases |steps|
  {
    hide Apply, Enabled;
    if steps == [] {
      assert [] + [x] == [x];
    } else {
      assert (steps + [x])[1..] == steps[1..] + [x];
      OneMoreStep(names, Apply(names, s, steps[0]), steps[1..], x);
    }
  }

  /** `n` connections have come and gone, all on the base loop. */
  ghost predicate Gone(s: Server, n: nat) {
    && !s.crashed && s.queues == [[]] && |s.peers| == n && s.registry == map[]
    && (forall k: Id | k < n :: s.peers[k] == Peer(DISCONNECTED, BASE))
  }

  lemma AcceptedOnBase(names: Names, s: Server)
    requires !s.crashed && s.queues == [[]] && |s.peers| < INT_MAX
    ensures Enabled(s, Accept(BASE))
    ensures Apply(names, s, Accept(BASE)) ==
            s.(peers := s.peers + [Peer(CONNECTED, BASE)], registry := s.registry[names.Of(|s.peers|) := |s.peers|])
  {
    hide ConnName;
    var n := |s.peers|;
    assert (s.peers + [Peer(CONNECTING, BASE)])[n := Peer(CONNECTED, BASE)] == s.peers + [Peer(CONNECTED, BASE)];
  }

  lemma ClosedOnBase(names: Names, s: Server, n: Id)
    requires !s.crashed && s.queues == [[]] && |s.peers| == n + 1 && s.peers[n] == Peer(CONNECTED, BASE)
    requires s.registry == map[names.Of(n) := n]
    ensures Enabled(s, Close(n))
    ensures Apply(names, s, Close(n)) ==
            s.(peers := s.peers[n := Peer(DISCONNECTED, BASE)], registry := map[], erased := s.erased + {n},
               queues := [[Teardown(n)]])
  {
    hide ConnName;
    assert s.registry - {names.Of(n)} == map[];
    assert s.queues[0] == [] && s.queues[0] + [Teardown(n)] == [Teardown(n)];
    assert s.queues[0 := [Teardown(n)]] == [[Teardown(n)]];
  }

  lemma TornDownOnBase(names: Names, s: Server, n: Id)
    requires !s.crashed && s.queues == [[Teardown(n)]] && Known(s, n) && s.peers[n].state == DISCONNECTED
    ensures Enabled(s, Execute(BASE, []))
    ensures Apply(names, s, Execute(BASE, [])) == s.(queues := [[]], torndown := s.torndown + {n})
  {
    assert s.queues[0][1..] == [] && s.queues[0 := []] == [[]];
  }

  /** One connection is accepted, closed and torn down. */
  lemma OneComesAndGoes(names: Names, steps: seq<Step>, n: nat) returns (more: seq<Step>)
    requires n < INT_MAX && Legal(names, Idle(0), steps) && Gone(After(names, Idle(0), steps), n)
    ensures more == steps + [Accept(BASE)] + [Close(n)] + [Execute(BASE, [])]
    ensures Legal(names, Idle(0), more) && Gone(After(names, Idle(0), more), n + 1)
  {
    hide After, Legal, Apply, Enabled;
    AcceptedOnBase(names, After(names, Idle(0), steps));
    OneMoreStep(names, Idle(0), steps, Accept(BASE));
    more := steps + [Accept(BASE)];
    ClosedOnBase(names, After(names, Idle(0), more), n);
    OneMoreStep(names, Idle(0), more, Close(n));
    more := more + [Close(n)];
    TornDownOnBase(names, After(names, Idle(0), more), n);
    OneMoreStep(names, Idle(0), more, Execute(BASE, []));
    more := more + [Execute(BASE, [])];
  }

  lemma {:induction false} ManyComeAndGo(names: Names, n: nat) returns (steps: seq<Step>)
    requires n < INT_MAX
    ensures Legal(names, Idle(0), steps) && Gone(After(names, Idle(0), steps), n)
  {
    hide Apply, Enabled;
    if n == 0 {
      steps := [];
    } else {
      steps := ManyComeAndGo(names, n - 1);
      steps := OneComesAndGoes(names, steps, n - 1);
    }
  }

  /** With a longer address two connections come to share a name: entering the second drops the only
      reference to the first, which is freed while it is still open.  No third one is open by then. */
  lemma LongAddressFreesOpen(names: Names) returns (steps: seq<Step>, id: Id)
    requires |names.ipPort| >= 52
    ensures Legal(names, Idle(0), steps)
    ensures var s := After(names, Idle(0), steps);
            && Known(s, id) && s.peers[id].state == CONNECTED && !Held(s, id)
            && (forall k: Id | k < id :: s.peers[k].state == DISCONNECTED) && |s.peers| == id + 2
  {
    hide ConnName, After, Legal, Apply, Enabled;
    id := 999_999_999;
    LongAddressCollides(names.server, names.ipPort);
    assert names.Of(id) == names.Of(id + 1);
    steps := ManyComeAndGo(names, id);
    AcceptedOnBase(names, After(names, Idle(0), steps));
    OneMoreStep(names, Idle(0), steps, Accept(BASE));
    steps := steps + [Accept(BASE)];
    AcceptedOnBase(names, After(names, Idle(0), steps));
    OneMoreStep(names, Idle(0), steps, Accept(BASE));
    steps := steps + [Accept(BASE)];
    var s := After(names, Idle(0), steps);
    assert s.registry == map[names.Of(id) := id + 1];
    assert forall l: LoopId, t: Task :: !Queued(s, l, t);
  }

  // ---- a message that comes too late ----------------------------------------------------------

  /** The state in which the connection 0 of I/O loop 1 has gone and these functors wait on that loop. */
  ghost predicate Torn(s: Server, waiting: seq<Task>) {
    && !s.crashed && s.queues == [[], waiting] && s.peers == [Peer(DISCONNECTED, 1)]
    && s.registry == map[] && s.erased == {0}
  }

  lemma ComesAndCloses(names: Names) returns (steps: seq<Step>)
    ensures steps == [Accept(1)] + [Execute(1, [])] + [Close(0)]
    ensures Legal(names, Idle(1), steps)
    ensures var s := After(names, Idle(1), steps);
            && !s.crashed && s.queues == [[Remove(0)], []] && s.peers == [Peer(DISCONNECTED, 1)]
            && s.registry == map[names.Of(0) := 0] && s.erased == {}
  {
    hide ConnName;
    var s0 := Idle(1);
    steps := [];
    assert s0.queues == [[], []];
    OneMoreStep(names, s0, steps, Accept(1));
    steps := steps + [Accept(1)];
    var s1 := After(names, s0, steps);
    assert s1.queues[0] == [] && s1.queues[1] == [Setup(0)] && s1.peers == [Peer(CONNECTING, 1)];
    OneMoreStep(names, s0, steps, Execute(1, []));
    steps := steps + [Execute(1, [])];
    var s2 := After(names, s0, steps);
    assert s2.queues[0] == [] && s2.queues[1] == [] && s2.peers == [Peer(CONNECTED, 1)];
    OneMoreStep(names, s0, steps, Close(0));
    steps := steps + [Close(0)];
    var s3 := After(names, s0, steps);
    assert s3.queues[0] == [Remove(0)] && s3.queues[1] == [];
  }

  lemma RemovalRuns(names: Names, s: Server)
    requires !s.crashed && s.queues == [[Remove(0)], []] && s.peers == [Peer(DISCONNECTED, 1)]
    requires s.registry == map[names.Of(0) := 0] && s.erased == {}
    ensures Enabled(s, Execute(0, [])) && Torn(Apply(names, s, Execute(0, [])), [Teardown(0)])
  {
    hide ConnName;
    var r := Apply(names, s, Execute(0, []));
    assert r.queues[0] == [] && r.queues[1] == [Teardown(0)];
  }

  /** After a removal has run, a send() by a thread that found the connection open before leaves a functor
      behind the teardown; when it comes up nothing holds the connection any more. */
  lemma LateMessageFindsNothing(names: Names) returns (steps: seq<Step>)
    ensures steps == [Accept(1)] + [Execute(1, [])] + [Close(0)] + [Execute(0, [])] + [SentElsewhere(0)] +
                     [Execute(1, [])]
    ensures Legal(names, Idle(1), steps)
    ensures var s := After(names, Idle(1), steps);
            s.queues == [[], [Message(0, false)]] && Known(s, 0) && !Held(Pop(s, 1), 0)
  {
    hide ConnName, After, Legal;
    var s0 := Idle(1);
    steps := ComesAndCloses(names);
    RemovalRuns(names, After(names, s0, steps));
    OneMoreStep(names, s0, steps, Execute(0, []));
    steps := steps + [Execute(0, [])];
    OneMoreStep(names, s0, steps, SentElsewhere(0));
    steps := steps + [SentElsewhere(0)];
    var s5 := After(names, s0, steps);
    assert s5.queues[0] == [] && s5.queues[1] == [Teardown(0), Message(0, false)];
    OneMoreStep(names, s0, steps, Execute(1, []));
    steps := steps + [Execute(1, [])];
    var s6 := After(names, s0, steps);
    assert s6.queues[0] == [] && s6.queues[1] == [Message(0, false)];
    var p := Pop(s6, 1);
    assert p.queues[0] == [] && p.queues[1] == [];
    assert forall l: LoopId, t: Task :: !Queued(p, l, t);
  }

  // ---- the assertions -------------------------------------------------------------------------

  /** No assertion fails: neither the registry's and connection_established's, nor the destructor's. */
  ghost predicate Safe(s: Server) {
    !s.crashed && forall id: Id | Known(s, id) && !Held(s, id) :: s.peers[id].state == DISCONNECTED
  }

  ghost predicate AlwaysSafe(names: Names) {
    forall ioLoops: nat, steps: seq<Step> | Legal(names, Idle(ioLoops), steps) ::
      Safe(After(names, Idle(ioLoops), steps))
  }

  /** The assertions hold in every run exactly when the listening address, with its port, has at most 51
      characters. */
  lemma SafeIff(names: Names)
    ensures AlwaysSafe(names) <==> |names.ipPort| <= 51
  {
    hide Held;
    if |names.ipPort| <= 51 {
      forall ioLoops: nat, steps: seq<Step> | Legal(names, Idle(ioLoops), steps)
        ensures Safe(After(names, Idle(ioLoops), steps))
      {
        var s := After(names, Idle(ioLoops), steps);
        RegistryProtocol(names, ioLoops, steps);
        forall id: Id | Known(s, id) && !Held(s, id)
          ensures s.peers[id].state == DISCONNECTED
        {
          FreedOnlyDisconnected(names, ioLoops, steps, id);
        }
      }
    } else {
      var steps, id := LongAddressFreesOpen(names);
      assert Legal(names, Idle(0), steps) && !Safe(After(names, Idle(0), steps));
    }
  }
}
