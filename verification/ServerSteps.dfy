/** What each step of the server's loops does, told as a table: the functors it posts to each queue, the
    states it leaves, and the entries it takes out of the registry. */
module ServerSteps {
  import opened ConnectionSpec
  import opened ServerNames
  import opened ServerSpec
  import opened ServerSafety

  /** The hang-ups that a walk of stop() posts to an I/O loop; those on the base loop run at once. */
  function HangupsFor(peers: seq<Peer>, order: seq<Id>, l: LoopId): seq<Task>
    requires forall id | id in order :: id < |peers|
  {
    if order == [] then []
    else
      var front, last := order[..|order| - 1], order[|order| - 1];
      assert order == front + [last] && last in front + [last];
      assert forall id | id in front :: id in front + [last] && id < |peers|;
      HangupsFor(peers, front, l) + if peers[last].loop == l && l != BASE then [Hangup(last)] else []
  }

  /** What a step appends to the queue of loop `l`. */
  ghost function Posted(s: Server, step: Step, l: LoopId): seq<Task>
    requires Enabled(s, step)
  {
    match step
    case Accept(loop) => if l == loop && l != BASE then [Setup(|s.peers|)] else []
    case Close(id) =>
      if l != BASE then [] else if s.peers[id].loop == BASE then [Teardown(id)] else [Remove(id)]
    case HangupCall(_) => []
    case Wrote(id) => if l == s.peers[id].loop then [Notice(id)] else []
    case SentElsewhere(id) => if l == s.peers[id].loop then [Message(id, id !in s.erased)] else []
    case StopCall(onBase, order) =>
      if onBase then HangupsFor(s.peers, order, l) else if l == BASE then [StopAll] else []
    case Execute(k, order) =>
      match s.queues[k][0]
      case Remove(id) => if l == s.peers[id].loop then [Teardown(id)] else []
      case StopAll => HangupsFor(s.peers, order, l)
      case _ => []
  }

  function HungUp(p: Peer): Peer {
    if p.state == CONNECTED then p.(state := DISCONNECTING) else p
  }

  /** A walk of stop() hangs up the connections of the base loop at once. */
  predicate Walked(p: Peer, id: Id, order: seq<Id>) {
    p.loop == BASE && id in order
  }

  /** What a step makes of a connection there was. */
  ghost function Becomes(s: Server, step: Step, id: Id): Peer
    requires Enabled(s, step) && Known(s, id)
  {
    var p := s.peers[id];
    match step
    case Close(i) => if i == id then p.(state := DISCONNECTED) else p
    case HangupCall(i) => if i == id then HungUp(p) else p
    case StopCall(onBase, order) => if onBase && Walked(p, id, order) then HungUp(p) else p
    case Execute(k, order) =>
      (match s.queues[k][0]
       case Setup(i) => if i == id then p.(state := CONNECTED) else p
       case Hangup(i) => if i == id then HungUp(p) else p
       case StopAll => if Walked(p, id, order) then HungUp(p) else p
       case _ => p)
    case _ => p
  }

  /** The connections whose removal a step runs, and those whose teardown. */
  ghost function Removing(s: Server, step: Step): set<Id>
    requires Enabled(s, step)
  {
    match step
    case Close(id) => if s.peers[id].loop == BASE then {id} else {}
    case Execute(k, _) => if s.queues[k][0].Remove? then {s.queues[k][0].id} else {}
    case _ => {}
  }

  ghost function TearingDown(s: Server, step: Step): set<Id>
    requires Enabled(s, step)
  {
    if step.Execute? && s.queues[step.loop][0].Teardown? then {s.queues[step.loop][0].id} else {}
  }

  function Rest(s: Server, step: Step, l: LoopId): seq<Task>
    requires l < |s.queues| && (step.Execute? && step.loop == l ==> s.queues[l] != [])
  {
    if step.Execute? && step.loop == l then s.queues[l][1..] else s.queues[l]
  }

  ghost predicate QueuesMove(s: Server, r: Server, step: Step)
    requires Enabled(s, step)
  {
    && |r.queues| == |s.queues|
    && forall l | 0 <= l < |s.queues| :: r.queues[l] == Rest(s, step, l) + Posted(s, step, l)
  }

  ghost predicate PeersMove(s: Server, r: Server, step: Step)
    requires Enabled(s, step)
  {
    && (forall id: Id | Known(s, id) :: Known(r, id) && r.peers[id] == Becomes(s, step, id))
    && |r.peers| == |s.peers| + (if step.Accept? then 1 else 0)
    && (step.Accept? ==>
          r.peers[|s.peers|] == Peer(if step.loop == BASE then CONNECTED else CONNECTING, step.loop))
  }

  ghost predicate EntriesMove(names: Names, s: Server, r: Server, step: Step)
    requires Enabled(s, step)
  {
    && r.erased == s.erased + Removing(s, step) && r.torndown == s.torndown + TearingDown(s, step)
    && (forall n, id :: n in r.registry && r.registry[n] == id <==>
          (step.Accept? && id == |s.peers| && n == names.Of(id)) ||
          (n in s.registry && s.registry[n] == id && id !in Removing(s, step)))
  }

  lemma {:induction false} WalkHangsUp(s: Server, order: seq<Id>, id: Id)
    requires (forall i | i in order :: Known(s, i)) && Known(s, id)
    ensures DoStop(s, order).peers[id] ==
            if Walked(s.peers[id], id, order) then HungUp(s.peers[id]) else s.peers[id]
  {
    if order != [] {
      var front, last := order[..|order| - 1], order[|order| - 1];
      assert order == front + [last];
      WalkHangsUp(s, front, id);
      WalkHangsUp(s, front, last);
      LastStopped(s, front, last);
      hide DoStop;
    }
  }

  lemma {:induction false} WalkPosts(s: Server, order: seq<Id>, l: LoopId)
    requires (forall i | i in order :: Known(s, i)) && l < |s.queues|
    ensures var r := DoStop(s, order);
            |r.queues| == |s.queues| && r.queues[l] == s.queues[l] + HangupsFor(s.peers, order, l)
  {
    if order == [] {
      assert s.queues[l] + [] == s.queues[l];
    } else {
      var front, last := order[..|order| - 1], order[|order| - 1];
      assert order == front + [last];
      WalkPosts(s, front, l);
      WalkHangsUp(s, front, last);
      LastStopped(s, front, last);
      hide DoStop;
      OnePosted(DoStop(s, front), last, l);
      AppendsJoin(s.queues[l], HangupsFor(s.peers, front, l),
                  if s.peers[last].loop == l && l != BASE then [Hangup(last)] else []);
    }
  }

  lemma AppendsJoin(a: seq<Task>, b: seq<Task>, c: seq<Task>)
    ensures (a + b) + c == a + (b + c)
  {
  }

  lemma OnePosted(s: Server, i: Id, l: LoopId)
    requires Known(s, i) && l < |s.queues|
    ensures var r := StopOne(s, i);
            && |r.queues| == |s.queues|
            && r.queues[l] == s.queues[l] + if s.peers[i].loop == l && l != BASE then [Hangup(i)] else []
  {
    assert s.queues[l] + [] == s.queues[l];
  }

  /** The loop of stop() takes its connections one after the other. */
  lemma {:induction false} LastStopped(s: Server, order: seq<Id>, id: Id)
    requires Known(s, id) && forall k | k in order :: Known(s, k)
    ensures forall k | k in order + [id] :: Known(s, k)
    ensures DoStop(s, order + [id]) == StopOne(DoStop(s, order), id)
    decreases |order|
  {
    if order == [] {
      assert order + [id] == [id];
    } else {
      assert forall k | k in order[1..] :: k in order && Known(s, k);
      assert (order + [id])[1..] == order[1..] + [id];
      LastStopped(StopOne(s, order[0]), order[1..], id);
    }
  }

  // ---- every step -----------------------------------------------------------------------------

  lemma WalkEffect(s: Server, order: seq<Id>)
    requires forall i | i in order :: Known(s, i)
    ensures var r := DoStop(s, order);
            && |r.queues| == |s.queues| && |r.peers| == |s.peers| && r.registry == s.registry
            && r.erased == s.erased && r.torndown == s.torndown
            && (forall l | 0 <= l < |s.queues| :: r.queues[l] == s.queues[l] + HangupsFor(s.peers, order, l))
            && (forall id: Id | Known(s, id) ::
                  r.peers[id] == if Walked(s.peers[id], id, order) then HungUp(s.peers[id]) else s.peers[id])
  {
    hide DoStop, HangupsFor, Walked, HungUp;
    QueuesKept(s, order);
    forall l | 0 <= l < |s.queues|
      ensures DoStop(s, order).queues[l] == s.queues[l] + HangupsFor(s.peers, order, l)
    {
      WalkPosts(s, order, l);
    }
    forall id: Id | Known(s, id)
      ensures DoStop(s, order).peers[id] ==
              if Walked(s.peers[id], id, order) then HungUp(s.peers[id]) else s.peers[id]
    {
      WalkHangsUp(s, order, id);
    }
  }

  lemma {:induction false} QueuesKept(s: Server, order: seq<Id>)
    requires forall i | i in order :: Known(s, i)
    ensures |DoStop(s, order).queues| == |s.queues|
    decreases |order|
  {
    if order != [] {
      assert forall id | id in order[1..] :: id in order && Known(s, id);
      QueuesKept(StopOne(s, order[0]), order[1..]);
    }
  }

  lemma AcceptMoves(names: Names, s: Server, step: Step)
    requires RegistryInv(names, s, {}) && Enabled(s, step) && step.Accept?
    ensures QueuesMove(s, Apply(names, s, step), step) && PeersMove(s, Apply(names, s, step), step)
  {
    hide Registered, TasksOk, Present, AllOrdered, ConnName;
    assert forall l | 0 <= l < |s.queues| :: s.queues[l] + [] == s.queues[l];
  }

  lemma CloseMoves(names: Names, s: Server, step: Step)
    requires RegistryInv(names, s, {}) && Enabled(s, step) && step.Close?
    ensures QueuesMove(s, Apply(names, s, step), step) && PeersMove(s, Apply(names, s, step), step)
  {
    hide TasksOk, Present, AllOrdered, ConnName;
    assert forall l | 0 <= l < |s.queues| :: s.queues[l] + [] == s.queues[l];
  }

  lemma CallMoves(names: Names, s: Server, step: Step)
    requires RegistryInv(names, s, {}) && Enabled(s, step) && !step.Accept? && !step.Close? && !step.Execute?
    ensures QueuesMove(s, Apply(names, s, step), step) && PeersMove(s, Apply(names, s, step), step)
    ensures EntriesMove(names, s, Apply(names, s, step), step)
  {
    hide Registered, TasksOk, Present, AllOrdered, ConnName, DoStop, HangupsFor;
    if step.StopCall? && step.onBase {
      WalkEffect(s, step.order);
    }
    assert forall l | 0 <= l < |s.queues| :: s.queues[l] + [] == s.queues[l];
  }

  lemma FunctorMoves(names: Names, s: Server, step: Step)
    requires RegistryInv(names, s, {}) && Enabled(s, step) && step.Execute?
    ensures QueuesMove(s, Apply(names, s, step), step) && PeersMove(s, Apply(names, s, step), step)
  {
    hide TasksOk, Present, AllOrdered, ConnName, DoStop, HangupsFor;
    var p, t := Pop(s, step.loop), s.queues[step.loop][0];
    assert TaskOk(s, step.loop, t) by { hide *; HeadOk(names, s, step.loop); }
    if t.StopAll? {
      WalkEffect(p, step.order);
    }
    assert forall l | 0 <= l < |s.queues| :: p.queues[l] + [] == p.queues[l];
  }

  lemma HeadOk(names: Names, s: Server, l: LoopId)
    requires RegistryInv(names, s, {}) && l < |s.queues| && s.queues[l] != []
    ensures TaskOk(s, l, s.queues[l][0])
  {
  }

  lemma EntriesFollow(names: Names, s: Server, step: Step)
    requires |names.ipPort| <= 51
    requires RegistryInv(names, s, {}) && Enabled(s, step) && (step.Accept? || step.Close? || step.Execute?)
    ensures EntriesMove(names, s, Apply(names, s, step), step)
  {
    hide Present, AllOrdered, ConnName, DoStop, TasksOk;
    match step
    case Accept(loop) => EnteredRegistered(names, s, loop);
    case Execute(l, order) => HeadOk(names, s, l);
    case _ =>
  }

  /** Every step, of any loop, in any state that can come up: each queue loses its head if its loop ran it
      and gains what the table says, each connection becomes what it says, a new one is entered and the
      others stay; the registry loses exactly the connections whose removal ran. */
  lemma StepEffect(names: Names, s: Server, step: Step)
    requires |names.ipPort| <= 51 && RegistryInv(names, s, {}) && Enabled(s, step)
    ensures var r := Apply(names, s, step);
            QueuesMove(s, r, step) && PeersMove(s, r, step) && EntriesMove(names, s, r, step)
  {
    hide *;
    match step
    case Accept(_) => AcceptMoves(names, s, step); EntriesFollow(names, s, step);
    case Close(_) => CloseMoves(names, s, step); EntriesFollow(names, s, step);
    case Execute(_, _) => FunctorMoves(names, s, step); EntriesFollow(names, s, step);
    case _ => CallMoves(names, s, step);
  }
}
