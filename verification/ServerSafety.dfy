/** Over all interleavings of the base loop and the I/O loops: the registry's assertions hold, each
    connection enters it once and leaves it once, and none is freed before it is DISCONNECTED. */
module ServerSafety {
  import opened ConnectionSpec
  import opened ServerNames
  import opened ServerSpec

  // ---- the invariant --------------------------------------------------------------------------

  ghost predicate Shaped(s: Server) {
    && !s.crashed && |s.queues| > 0 && |s.peers| <= INT_MAX
    && (forall i | 0 <= i < |s.peers| :: s.peers[i].loop < |s.queues|)
    && s.torndown <= s.erased
    && (forall id | id in s.erased :: Known(s, id) && s.peers[id].state == DISCONNECTED)
    && (forall id | id in s.stopped :: Known(s, id))
  }

  /** The registry holds exactly the connections whose removal has not run, each under its own name. */
  ghost predicate Registered(names: Names, s: Server) {
    && (forall n | n in s.registry ::
          Known(s, s.registry[n]) && n == names.Of(s.registry[n]) && s.registry[n] !in s.erased)
    && (forall id: Id | Known(s, id) && id !in s.erased :: names.Of(id) in s.registry && s.registry[names.Of(id)] == id)
  }

  /** A queued functor is on the right loop, and its connection in the state the functor expects. */
  predicate TaskOk(s: Server, l: LoopId, t: Task) {
    match t
    case Setup(id) => Known(s, id) && l == s.peers[id].loop != BASE && s.peers[id].state == CONNECTING
    case Remove(id) => Known(s, id) && l == BASE && s.peers[id].state == DISCONNECTED && id !in s.erased
    case Teardown(id) => Known(s, id) && l == s.peers[id].loop && id in s.erased && id !in s.torndown
    case Hangup(id) => Known(s, id) && l == s.peers[id].loop
    case Notice(id) => Known(s, id) && l == s.peers[id].loop
    case Message(id, early) => Known(s, id) && l == s.peers[id].loop && (early || id in s.erased)
    case StopAll => l == BASE
  }

  ghost predicate TasksOk(s: Server) {
    forall l, t | 0 <= l < |s.queues| && t in s.queues[l] :: TaskOk(s, l, t)
  }

  predicate Queued(s: Server, l: LoopId, t: Task) {
    l < |s.queues| && t in s.queues[l]
  }

  /** Every stage of a connection's life has its functor queued, or in hand. */
  ghost predicate Present(s: Server, hand: set<Task>) {
    forall id: Id | Known(s, id) ::
      && (s.peers[id].state == CONNECTING ==> Setup(id) in hand || Queued(s, s.peers[id].loop, Setup(id)))
      && (s.peers[id].state == DISCONNECTED && id !in s.erased ==> Remove(id) in hand || Queued(s, BASE, Remove(id)))
      && (id in s.erased && id !in s.torndown ==> Teardown(id) in hand || Queued(s, s.peers[id].loop, Teardown(id)))
      && (id in s.stopped && (s.peers[id].state == CONNECTING || s.peers[id].state == CONNECTED) ==>
            Hangup(id) in hand || Queued(s, s.peers[id].loop, Hangup(id)))
  }

  predicate Once(t: Task) {
    t.Setup? || t.Remove? || t.Teardown?
  }

  /** Captures a bare `this`, and was queued while the connection was still registered. */
  predicate Borrows(t: Task) {
    t.Notice? || (t.Message? && t.early)
  }

  /** Within a queue: no life-cycle functor twice; a borrower only ahead of the teardown that holds the
      last reference; no hang-up ahead of the set-up; a late message behind the teardown. */
  ghost predicate Ordered(s: Server, q: seq<Task>) {
    && (forall a, b | 0 <= a < b < |q| :: q[a] == q[b] ==> !Once(q[a]))
    && (forall a | 0 <= a < |q| && Borrows(q[a]) && q[a].id in s.erased ::
          exists b :: a < b < |q| && q[b] == Teardown(q[a].id))
    && (forall a, b | 0 <= a < b < |q| && q[b].Setup? :: q[a] != Hangup(q[b].id))
    && (forall a, b | 0 <= a < b < |q| && q[a].Message? && q[b] == Teardown(q[a].id) :: q[a].early)
  }

  ghost predicate AllOrdered(s: Server) {
    forall l | 0 <= l < |s.queues| :: Ordered(s, s.queues[l])
  }

  ghost predicate RegistryInv(names: Names, s: Server, hand: set<Task>) {
    Shaped(s) && Registered(names, s) && TasksOk(s) && Present(s, hand) && AllOrdered(s)
  }

  // ---- one primitive at a time ----------------------------------------------------------------

  /** A functor may be queued when its connection is in the state it expects and it is not queued yet. */
  ghost predicate MayAppend(s: Server, l: LoopId, t: Task) {
    && l < |s.queues| && TaskOk(s, l, t)
    && (Once(t) ==> t !in s.queues[l])
    && (t.Setup? ==> Hangup(t.id) !in s.queues[l])
    && (Borrows(t) ==> t.id !in s.erased)
    && !t.Teardown?
  }

  lemma AppendKeepsTasks(s: Server, l: LoopId, t: Task)
    requires TasksOk(s) && l < |s.queues| && TaskOk(s, l, t)
    ensures TasksOk(Append(s, l, t))
  {
    var r := Append(s, l, t);
    forall k, u | 0 <= k < |r.queues| && u in r.queues[k]
      ensures TaskOk(r, k, u)
    {
      assert u in s.queues[k] || (k == l && u == t);
      assert TaskOk(s, k, u);
    }
  }

  lemma AppendKeepsPresent(s: Server, hand: set<Task>, l: LoopId, t: Task)
    requires Present(s, hand) && l < |s.queues| && TaskOk(s, l, t)
    ensures Present(Append(s, l, t), hand - {t})
  {
    var r := Append(s, l, t);
    assert forall k: LoopId, u: Task :: Queued(s, k, u) ==> Queued(r, k, u);
    assert Queued(r, l, t) by { assert r.queues[l][|s.queues[l]|] == t; }
  }

  lemma AppendKeepsInv(names: Names, s: Server, hand: set<Task>, l: LoopId, t: Task)
    requires RegistryInv(names, s, hand) && MayAppend(s, l, t)
    ensures RegistryInv(names, Append(s, l, t), hand - {t})
  {
    hide Ordered, TasksOk, Present, TaskOk;
    AppendKeepsTasks(s, l, t);
    AppendKeepsPresent(s, hand, l, t);
    OrderedAppend(s, s.queues[l], t);
    SameMarks(s, Append(s, l, t));
  }

  /** `Ordered` looks at the marks only. */
  lemma SameMarks(s: Server, r: Server)
    requires r.erased == s.erased
    ensures forall q :: Ordered(s, q) ==> Ordered(r, q)
  {
  }

  lemma OrderedAppend(s: Server, q: seq<Task>, t: Task)
    requires Ordered(s, q)
    requires Once(t) ==> t !in q
    requires t.Setup? ==> Hangup(t.id) !in q
    requires (Borrows(t) ==> t.id !in s.erased) && !t.Teardown?
    ensures Ordered(s, q + [t])
  {
    var r := q + [t];
    assert forall a | 0 <= a < |q| :: r[a] == q[a];
    forall a | 0 <= a < |r| && Borrows(r[a]) && r[a].id in s.erased
      ensures exists b :: a < b < |r| && r[b] == Teardown(r[a].id)
    {
      var b :| a < b < |q| && q[b] == Teardown(q[a].id);
      assert r[b] == q[b];
    }
  }

  lemma OrderedTail(s: Server, q: seq<Task>)
    requires Ordered(s, q) && q != []
    ensures Ordered(s, q[1..])
    ensures Once(q[0]) ==> q[0] !in q[1..]
    ensures Borrows(q[0]) && q[0].id in s.erased ==> Teardown(q[0].id) in q[1..]
    ensures q[0].Message? && !q[0].early ==> Teardown(q[0].id) !in q[1..]
  {
    var r := q[1..];
    assert forall a | 0 <= a < |r| :: r[a] == q[a + 1];
    forall a | 0 <= a < |r| && Borrows(r[a]) && r[a].id in s.erased
      ensures exists b :: a < b < |r| && r[b] == Teardown(r[a].id)
    {
      var b :| a + 1 < b < |q| && q[b] == Teardown(q[a + 1].id);
      assert r[b - 1] == q[b];
    }
    if Borrows(q[0]) && q[0].id in s.erased {
      var b :| 0 < b < |q| && q[b] == Teardown(q[0].id);
      assert r[b - 1] == q[b];
    }
  }

  lemma PopKeepsPresent(s: Server, l: LoopId)
    requires Present(s, {}) && l < |s.queues| && s.queues[l] != []
    ensures Present(Pop(s, l), {s.queues[l][0]})
  {
    var q, r, t := s.queues[l], Pop(s, l), s.queues[l][0];
    assert q == [t] + q[1..];
    assert forall k: LoopId, u: Task :: Queued(s, k, u) ==> Queued(r, k, u) || u == t;
  }

  lemma PopKeepsTasks(s: Server, l: LoopId)
    requires TasksOk(s) && l < |s.queues| && s.queues[l] != []
    ensures TasksOk(Pop(s, l)) && TaskOk(Pop(s, l), l, s.queues[l][0])
  {
    var r, t := Pop(s, l), s.queues[l][0];
    forall k, u | 0 <= k < |r.queues| && u in r.queues[k]
      ensures TaskOk(r, k, u)
    {
      assert u in s.queues[k];
      assert TaskOk(s, k, u);
    }
    assert TaskOk(s, l, t);
  }

  /** Taking the next functor puts it in hand; what stands behind it in the queue does not move. */
  lemma PopKeepsInv(names: Names, s: Server, l: LoopId)
    requires RegistryInv(names, s, {}) && l < |s.queues| && s.queues[l] != []
    ensures RegistryInv(names, Pop(s, l), {s.queues[l][0]})
    ensures TaskOk(Pop(s, l), l, s.queues[l][0])
    ensures Once(s.queues[l][0]) ==> s.queues[l][0] !in Pop(s, l).queues[l]
    ensures Borrows(s.queues[l][0]) && s.queues[l][0].id in s.erased ==>
              Queued(Pop(s, l), l, Teardown(s.queues[l][0].id))
    ensures s.queues[l][0].Message? && !s.queues[l][0].early ==>
              !Queued(Pop(s, l), l, Teardown(s.queues[l][0].id))
  {
    hide Ordered, TasksOk, Present, TaskOk, Once, Borrows;
    PopKeepsTasks(s, l);
    PopKeepsPresent(s, l);
    OrderedTail(s, s.queues[l]);
    SameMarks(s, Pop(s, l));
  }

  ghost predicate Nowhere(s: Server, t: Task) {
    forall l: LoopId :: !Queued(s, l, t)
  }

  lemma OnlyPlace(s: Server, l: LoopId, t: Task)
    requires TasksOk(s) && TaskOk(s, l, t) && Once(t) && (l < |s.queues| ==> t !in s.queues[l])
    ensures Nowhere(s, t)
  {
    assert forall k: LoopId :: Queued(s, k, t) ==> TaskOk(s, k, t);
  }

  /** A functor whose connection is not as it expects is not in this queue. */
  lemma Misplaced(s: Server, l: LoopId, t: Task)
    requires TasksOk(s) && l < |s.queues| && !TaskOk(s, l, t)
    ensures t !in s.queues[l]
  {
  }

  lemma MisplacedAnywhere(s: Server, t: Task)
    requires TasksOk(s) && forall l: LoopId :: !TaskOk(s, l, t)
    ensures Nowhere(s, t)
  {
  }

  // ---- what the functors keep -----------------------------------------------------------------

  lemma TasksSurvive(s: Server, r: Server)
    requires TasksOk(s) && r.queues == s.queues
    requires forall l: LoopId, t: Task :: Queued(s, l, t) && TaskOk(s, l, t) ==> TaskOk(r, l, t)
    ensures TasksOk(r)
  {
    forall l, t | 0 <= l < |r.queues| && t in r.queues[l]
      ensures TaskOk(r, l, t)
    {
      assert Queued(s, l, t) && TaskOk(s, l, t);
    }
  }

  /** What does not depend on the states of the connections. */
  lemma StateFrame(names: Names, s: Server, id: Id, state: State)
    requires Known(s, id) && Registered(names, s)
    ensures Registered(names, SetState(s, id, state))
    ensures AllOrdered(s) ==> AllOrdered(SetState(s, id, state))
    ensures forall l: LoopId, t: Task :: Queued(SetState(s, id, state), l, t) <==> Queued(s, l, t)
  {
    hide Ordered;
    SameMarks(s, SetState(s, id, state));
  }

  /** No queued functor expects the state that is left. */
  lemma StateTasks(s: Server, id: Id, state: State)
    requires TasksOk(s) && Known(s, id) && s.peers[id].state != DISCONNECTED
    requires s.peers[id].state == CONNECTING ==> Nowhere(s, Setup(id))
    ensures TasksOk(SetState(s, id, state))
  {
    TasksSurvive(s, SetState(s, id, state));
  }

  lemma SetupKeepsInv(names: Names, s: Server, id: Id)
    requires RegistryInv(names, s, {Setup(id)}) && Known(s, id)
    requires s.peers[id].state == CONNECTING && Nowhere(s, Setup(id))
    ensures RegistryInv(names, DoSetup(s, id), {})
  {
    hide Ordered, AllOrdered, Registered, TasksOk, TaskOk, Queued;
    StateFrame(names, s, id, CONNECTED);
    StateTasks(s, id, CONNECTED);
  }

  lemma HangupKeepsPresent(s: Server, id: Id)
    requires Known(s, id) && Present(s, {Hangup(id)}) && s.peers[id].state == CONNECTED
    ensures Present(SetState(s, id, DISCONNECTING), {})
  {
    var r := SetState(s, id, DISCONNECTING);
    assert forall l: LoopId, t: Task :: Queued(s, l, t) <==> Queued(r, l, t);
  }

  lemma HangupKeepsInv(names: Names, s: Server, id: Id)
    requires RegistryInv(names, s, {Hangup(id)}) && Known(s, id) && s.peers[id].state != CONNECTING
    ensures RegistryInv(names, DoHangup(s, id), {})
  {
    hide Ordered, AllOrdered, Registered, TasksOk, TaskOk, Queued;
    if s.peers[id].state == CONNECTED {
      StateFrame(names, s, id, DISCONNECTING);
      StateTasks(s, id, DISCONNECTING);
      HangupKeepsPresent(s, id);
      hide Present;
    }
  }

  /** The set-up is queued at acceptance and every hang-up behind it, so a hang-up that runs finds its
      connection set up. */
  lemma HangupFindsItSetUp(names: Names, s: Server, l: LoopId, id: Id)
    requires RegistryInv(names, s, {}) && l < |s.queues| && s.queues[l] != [] && s.queues[l][0] == Hangup(id)
    ensures Known(s, id) && s.peers[id].state != CONNECTING
  {
    hide Registered;
    var q := s.queues[l];
    assert TaskOk(s, l, q[0]) && Ordered(s, q);
    assert Setup(id) !in q by {
      assert forall b | 0 < b < |q| :: q[b] != Setup(id);
    }
  }

  lemma RegistryWithout(names: Names, s: Server, id: Id)
    requires |names.ipPort| <= 51
    requires Shaped(s) && Registered(names, s) && Known(s, id) && id !in s.erased
    ensures Registered(names, s.(registry := s.registry - {names.Of(id)}, erased := s.erased + {id}))
  {
    var r := s.(registry := s.registry - {names.Of(id)}, erased := s.erased + {id});
    forall k: Id | Known(r, k) && k !in r.erased
      ensures names.Of(k) in r.registry && r.registry[names.Of(k)] == k
    {
      DistinctNames(names, k, id);
    }
  }

  lemma DistinctNames(names: Names, i: Id, j: Id)
    requires |names.ipPort| <= 51 && i != j && i < INT_MAX && j < INT_MAX
    ensures names.Of(i) != names.Of(j)
  {
    if i < j {
      NamesDiffer(names.server, names.ipPort, i + 1, j + 1);
    } else {
      NamesDiffer(names.server, names.ipPort, j + 1, i + 1);
    }
  }

  lemma OrderedWithTeardown(s: Server, r: Server, q: seq<Task>, id: Id)
    requires Ordered(s, q) && Teardown(id) !in q && Message(id, false) !in q
    requires r.erased == s.erased + {id}
    ensures Ordered(r, q + [Teardown(id)])
  {
    var p := q + [Teardown(id)];
    assert p[|q|] == Teardown(id) && forall a | 0 <= a < |q| :: p[a] == q[a];
    forall a | 0 <= a < |p| && Borrows(p[a]) && p[a].id in r.erased
      ensures exists b :: a < b < |p| && p[b] == Teardown(p[a].id)
    {
      if p[a].id != id {
        var b :| a < b < |q| && q[b] == Teardown(q[a].id);
        assert p[b] == q[b];
      }
    }
  }

  lemma OrderedElsewhere(s: Server, r: Server, q: seq<Task>, id: Id)
    requires Ordered(s, q) && Notice(id) !in q && Message(id, true) !in q
    requires r.erased == s.erased + {id}
    ensures Ordered(r, q)
  {
  }

  lemma RemoveKeepsOrder(names: Names, s: Server, id: Id)
    requires TasksOk(s) && AllOrdered(s) && Known(s, id) && id !in s.erased && names.Of(id) in s.registry
    requires s.peers[id].loop < |s.queues|
    ensures AllOrdered(DoRemove(names, s, id))
  {
    hide Ordered;
    var r := DoRemove(names, s, id);
    forall l | 0 <= l < |r.queues|
      ensures Ordered(r, r.queues[l])
    {
      assert Ordered(s, s.queues[l]);
      if l == s.peers[id].loop {
        Misplaced(s, l, Teardown(id));
        Misplaced(s, l, Message(id, false));
        OrderedWithTeardown(s, r, s.queues[l], id);
      } else {
        Misplaced(s, l, Notice(id));
        Misplaced(s, l, Message(id, true));
        OrderedElsewhere(s, r, s.queues[l], id);
      }
    }
  }

  /** The registry's part of a removal: the entry is gone, the teardown in hand. */
  lemma UnregisterKeeps(names: Names, s: Server, id: Id)
    requires Shaped(s) && TasksOk(s) && Present(s, {Remove(id)}) && Known(s, id)
    requires s.peers[id].state == DISCONNECTED && id !in s.erased && Nowhere(s, Remove(id))
    ensures var m := s.(registry := s.registry - {names.Of(id)}, erased := s.erased + {id});
            Shaped(m) && TasksOk(m) && Present(m, {Teardown(id)}) && TaskOk(m, s.peers[id].loop, Teardown(id))
  {
    hide ConnName;
    var m := s.(registry := s.registry - {names.Of(id)}, erased := s.erased + {id});
    TasksSurvive(s, m);
    assert forall l: LoopId, t: Task :: Queued(s, l, t) <==> Queued(m, l, t);
  }

  lemma RemoveKeepsInv(names: Names, s: Server, id: Id)
    requires |names.ipPort| <= 51
    requires RegistryInv(names, s, {Remove(id)}) && Known(s, id)
    requires s.peers[id].state == DISCONNECTED && id !in s.erased && Nowhere(s, Remove(id))
    ensures RegistryInv(names, DoRemove(names, s, id), {})
  {
    hide Ordered, AllOrdered, TasksOk, TaskOk, Present;
    RegistryWithout(names, s, id);
    assert names.Of(id) in s.registry;
    RemoveKeepsOrder(names, s, id);
    UnregisterKeeps(names, s, id);
    var m := s.(registry := s.registry - {names.Of(id)}, erased := s.erased + {id});
    AppendKeepsTasks(m, s.peers[id].loop, Teardown(id));
    AppendKeepsPresent(m, {Teardown(id)}, s.peers[id].loop, Teardown(id));
    assert {Teardown(id)} - {Teardown(id)} == {};
  }

  lemma CloseKeepsPresent(s: Server, id: Id)
    requires Shaped(s) && Known(s, id) && Present(s, {})
    requires s.peers[id].state == CONNECTED || s.peers[id].state == DISCONNECTING
    ensures Present(SetState(s, id, DISCONNECTED), {Remove(id)})
  {
    var m := SetState(s, id, DISCONNECTED);
    assert forall l: LoopId, t: Task :: Queued(s, l, t) <==> Queued(m, l, t);
  }

  /** handle_close marks the connection; its removal is then in hand. */
  lemma ClosedKeepsInv(names: Names, s: Server, id: Id)
    requires RegistryInv(names, s, {}) && Known(s, id)
    requires s.peers[id].state == CONNECTED || s.peers[id].state == DISCONNECTING
    ensures RegistryInv(names, SetState(s, id, DISCONNECTED), {Remove(id)})
    ensures id !in s.erased && Nowhere(SetState(s, id, DISCONNECTED), Remove(id))
  {
    hide Ordered, AllOrdered, Registered, TasksOk, Queued, Present;
    MisplacedAnywhere(s, Remove(id));
    StateFrame(names, s, id, DISCONNECTED);
    StateTasks(s, id, DISCONNECTED);
    CloseKeepsPresent(s, id);
  }

  lemma CloseKeepsInv(names: Names, s: Server, id: Id)
    requires |names.ipPort| <= 51
    requires RegistryInv(names, s, {}) && Known(s, id)
    requires s.peers[id].state == CONNECTED || s.peers[id].state == DISCONNECTING
    ensures RegistryInv(names, DoClose(names, s, id), {})
  {
    ClosedKeepsInv(names, s, id);
    hide RegistryInv;
    var m := SetState(s, id, DISCONNECTED);
    if s.peers[id].loop == BASE {
      RemoveKeepsInv(names, m, id);
    } else {
      HandOverRemove(names, m, id);
    }
  }

  /** remove_connection off the base loop: the removal passes from hand to the base loop's queue. */
  lemma HandOverRemove(names: Names, m: Server, id: Id)
    requires RegistryInv(names, m, {Remove(id)}) && Known(m, id) && m.peers[id].state == DISCONNECTED
    requires id !in m.erased && Nowhere(m, Remove(id))
    ensures RegistryInv(names, Append(m, BASE, Remove(id)), {})
  {
    hide Ordered, Registered, AllOrdered, TasksOk, Present;
    assert !Queued(m, BASE, Remove(id));
    AppendKeepsInv(names, m, {Remove(id)}, BASE, Remove(id));
    assert {Remove(id)} - {Remove(id)} == {};
  }

  /** connection_destroyed never finds its connection CONNECTED, so it never closes it a second time. */
  lemma TeardownKeepsInv(names: Names, s: Server, id: Id)
    requires RegistryInv(names, s, {Teardown(id)}) && Known(s, id) && id in s.erased && Nowhere(s, Teardown(id))
    ensures s.peers[id].state == DISCONNECTED
    ensures RegistryInv(names, DoTeardown(names, s, id), {})
  {
    hide Ordered;
    var r := DoTeardown(names, s, id);
    TasksSurvive(s, r);
    SameMarks(s, r);
    assert forall l: LoopId, t: Task :: Queued(s, l, t) <==> Queued(r, l, t);
  }

  lemma EnteredRegistered(names: Names, s: Server, loop: LoopId)
    requires |names.ipPort| <= 51
    requires Shaped(s) && Registered(names, s) && |s.peers| < INT_MAX
    ensures names.Of(|s.peers|) !in s.registry
    ensures Registered(names, Entered(names, s, loop))
  {
    forall k: Id | k < |s.peers|
      ensures names.Of(k) != names.Of(|s.peers|)
    {
      DistinctNames(names, k, |s.peers|);
    }
  }

  lemma EnteredKeepsInv(names: Names, s: Server, loop: LoopId)
    requires |names.ipPort| <= 51
    requires RegistryInv(names, s, {}) && loop < |s.queues| && |s.peers| < INT_MAX
    ensures RegistryInv(names, Entered(names, s, loop), {Setup(|s.peers|)})
    ensures Nowhere(Entered(names, s, loop), Setup(|s.peers|)) && Nowhere(Entered(names, s, loop), Hangup(|s.peers|))
  {
    hide Ordered, Registered, ConnName;
    EnteredRegistered(names, s, loop);
    var id, m := |s.peers|, Entered(names, s, loop);
    SameMarks(s, m);
    MisplacedAnywhere(s, Setup(id));
    MisplacedAnywhere(s, Hangup(id));
    EnteredKeepsTasks(names, s, loop);
  }

  lemma EnteredKeepsTasks(names: Names, s: Server, loop: LoopId)
    requires TasksOk(s) && Present(s, {}) && Shaped(s)
    ensures var m := Entered(names, s, loop); TasksOk(m) && Present(m, {Setup(|s.peers|)})
  {
    hide ConnName;
    var m := Entered(names, s, loop);
    TasksSurvive(s, m);
    assert forall l: LoopId, t: Task :: Queued(s, l, t) <==> Queued(m, l, t);
  }

  lemma AcceptKeepsInv(names: Names, s: Server, loop: LoopId)
    requires |names.ipPort| <= 51
    requires RegistryInv(names, s, {}) && loop < |s.queues| && |s.peers| < INT_MAX
    ensures RegistryInv(names, DoAccept(names, s, loop), {})
  {
    hide Ordered, Registered, AllOrdered, TasksOk, Present;
    var id, m := |s.peers|, Entered(names, s, loop);
    EnteredKeepsInv(names, s, loop);
    if loop == BASE {
      SetupKeepsInv(names, m, id);
    } else {
      assert !Queued(m, loop, Setup(id)) && !Queued(m, loop, Hangup(id));
      AppendKeepsInv(names, m, {Setup(id)}, loop, Setup(id));
      assert {Setup(id)} - {Setup(id)} == {};
    }
  }

  lemma StopMarks(names: Names, s: Server, id: Id)
    requires RegistryInv(names, s, {}) && Known(s, id)
    ensures RegistryInv(names, s.(stopped := s.stopped + {id}), {Hangup(id)})
  {
    hide Ordered;
    var m := s.(stopped := s.stopped + {id});
    SameMarks(s, m);
    TasksSurvive(s, m);
    assert forall l: LoopId, t: Task :: Queued(s, l, t) <==> Queued(m, l, t);
  }

  lemma NeverConnectingOnBase(names: Names, s: Server, id: Id)
    requires RegistryInv(names, s, {Hangup(id)}) && Known(s, id) && s.peers[id].loop == BASE
    ensures s.peers[id].state != CONNECTING
  {
    hide Ordered, AllOrdered, Registered, TasksOk;
    Misplaced(s, BASE, Setup(id));
  }

  lemma StopOneKeepsInv(names: Names, s: Server, id: Id)
    requires RegistryInv(names, s, {}) && Known(s, id)
    ensures RegistryInv(names, StopOne(s, id), {})
  {
    hide Ordered, AllOrdered, Registered, Present, TasksOk;
    StopMarks(names, s, id);
    var m := s.(stopped := s.stopped + {id});
    if s.peers[id].loop == BASE {
      NeverConnectingOnBase(names, m, id);
      HangupKeepsInv(names, m, id);
    } else {
      AppendKeepsInv(names, m, {Hangup(id)}, s.peers[id].loop, Hangup(id));
      assert {Hangup(id)} - {Hangup(id)} == {};
    }
  }

  lemma StopOneMarks(s: Server, id: Id)
    requires Known(s, id)
    ensures var r := StopOne(s, id); r.stopped == s.stopped + {id} && r.registry == s.registry && r.erased == s.erased
  {
  }

  /** stop() is proved over every order in which the map may be walked; it misses nobody. */
  lemma {:induction false} StopKeepsInv(names: Names, s: Server, order: seq<Id>)
    requires RegistryInv(names, s, {}) && forall id | id in order :: Known(s, id)
    ensures RegistryInv(names, DoStop(s, order), {})
    ensures DoStop(s, order).stopped == s.stopped + set id | id in order
    ensures DoStop(s, order).registry == s.registry && DoStop(s, order).erased == s.erased
    decreases |order|
  {
    hide RegistryInv, StopOne;
    if order != [] {
      assert order == [order[0]] + order[1..];
      assert forall id | id in order[1..] :: id in order && Known(s, id);
      StopOneMarks(s, order[0]);
      StopOneKeepsInv(names, s, order[0]);
      StopKeepsInv(names, StopOne(s, order[0]), order[1..]);
      assert (set id | id in order) == {order[0]} + set id | id in order[1..];
    }
  }

  /** Functors that move no connection along may be forgotten. */
  lemma EmptyHand(names: Names, s: Server, t: Task)
    requires RegistryInv(names, s, {t}) && (t.Notice? || t.Message? || t.StopAll?)
    ensures RegistryInv(names, s, {})
  {
    hide Ordered, Registered, AllOrdered, Shaped, TasksOk;
  }

  /** The same when the body of stop() comes out of the base loop's queue. */
  lemma StopFunctorKeepsInv(names: Names, s: Server, l: LoopId, order: seq<Id>)
    requires RegistryInv(names, s, {}) && l < |s.queues| && s.queues[l] != [] && s.queues[l][0] == StopAll
    requires forall id | id in order :: Known(s, id)
    ensures var r := DoStop(Pop(s, l), order);
            && RegistryInv(names, r, {}) && r.stopped == s.stopped + (set id | id in order)
            && r.registry == s.registry && r.erased == s.erased
  {
    hide DoStop;
    hide RegistryInv;
    PopKeepsInv(names, s, l);
    EmptyHand(names, Pop(s, l), StopAll);
    StopKeepsInv(names, Pop(s, l), order);
  }

  // ---- every step, every run ------------------------------------------------------------------

  lemma HangupFunctorKeepsInv(names: Names, s: Server, l: LoopId, id: Id)
    requires RegistryInv(names, s, {}) && l < |s.queues| && s.queues[l] != [] && s.queues[l][0] == Hangup(id)
    ensures Known(s, id) && RegistryInv(names, DoHangup(Pop(s, l), id), {})
  {
    hide RegistryInv;
    HangupFindsItSetUp(names, s, l, id);
    PopKeepsInv(names, s, l);
    HangupKeepsInv(names, Pop(s, l), id);
  }

  /** A loop that takes its next functor finds the connection as that functor expects it, and no second
      functor of the same kind on its way. */
  lemma NextInHand(names: Names, s: Server, l: LoopId)
    requires RegistryInv(names, s, {}) && l < |s.queues| && s.queues[l] != []
    ensures var t, p := s.queues[l][0], Pop(s, l);
            && RegistryInv(names, p, {t}) && TaskOk(p, l, t)
            && (Once(t) ==> Nowhere(p, t))
            && (t.Notice? || t.Message? || t.StopAll? ==> RegistryInv(names, p, {}))
  {
    hide Ordered, Registered, AllOrdered, Present;
    var t, p := s.queues[l][0], Pop(s, l);
    PopKeepsInv(names, s, l);
    if Once(t) {
      OnlyPlace(p, l, t);
    } else if !t.Hangup? {
      EmptyHand(names, p, t);
    }
  }

  lemma ExecuteKeepsInv(names: Names, s: Server, l: LoopId, order: seq<Id>)
    requires |names.ipPort| <= 51
    requires RegistryInv(names, s, {}) && Enabled(s, Execute(l, order))
    ensures RegistryInv(names, Apply(names, s, Execute(l, order)), {})
  {
    hide RegistryInv, Nowhere;
    var t, p := s.queues[l][0], Pop(s, l);
    NextInHand(names, s, l);
    match t
    case Setup(id) => SetupKeepsInv(names, p, id);
    case Remove(id) => RemoveKeepsInv(names, p, id);
    case Teardown(id) => TeardownKeepsInv(names, p, id);
    case Hangup(id) => HangupFunctorKeepsInv(names, s, l, id);
    case Notice(_) =>
    case Message(_, _) =>
    case StopAll => StopFunctorKeepsInv(names, s, l, order);
  }

  lemma StepKeepsInv(names: Names, s: Server, step: Step)
    requires |names.ipPort| <= 51
    requires RegistryInv(names, s, {}) && Enabled(s, step)
    ensures RegistryInv(names, Apply(names, s, step), {})
  {
    hide Ordered, Registered;
    match step
    case Accept(loop) => AcceptKeepsInv(names, s, loop);
    case Execute(l, order) => ExecuteKeepsInv(names, s, l, order);
    case Close(id) => CloseKeepsInv(names, s, id);
    case HangupCall(id) =>
      if s.peers[id].state == CONNECTED {
        HangupKeepsInv(names, s, id);
      }
    case Wrote(id) =>
      AppendKeepsInv(names, s, {}, s.peers[id].loop, Notice(id));
      assert {} - {Notice(id)} == {};
    case SentElsewhere(id) =>
      AppendKeepsInv(names, s, {}, s.peers[id].loop, Message(id, id !in s.erased));
      assert {} - {Message(id, id !in s.erased)} == {};
    case StopCall(onBase, order) =>
      if onBase {
        StopKeepsInv(names, s, order);
      } else {
        AppendKeepsInv(names, s, {}, BASE, StopAll);
        assert {} - {StopAll} == {};
      }
  }

  lemma {:induction false} RunKeepsInv(names: Names, s: Server, steps: seq<Step>)
    requires |names.ipPort| <= 51
    requires RegistryInv(names, s, {}) && Legal(names, s, steps)
    ensures RegistryInv(names, After(names, s, steps), {})
    decreases |steps|
  {
    hide RegistryInv;
    if steps != [] {
      StepKeepsInv(names, s, steps[0]);
      RunKeepsInv(names, Apply(names, s, steps[0]), steps[1..]);
    }
  }
}
