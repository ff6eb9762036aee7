/** The server's registry of connections, kept by the base loop while the connections live on I/O loops.

    Loops hand each other functors through queues that run in order (the hand-off of `LoopSpec`), and a
    functor for the loop it is on runs at once.  A connection is freed when its last reference goes: the
    registry and the functors that capture the shared pointer hold one, the functors that capture a bare
    `this` do not. */
module ServerSpec {
  import opened ConnectionSpec
  import opened ServerNames

  type Id = nat
  type LoopId = nat

  const BASE: LoopId := 0

  datatype Task =
    | Setup(id: Id)                  // connection_established; holds a reference
    | Remove(id: Id)                 // remove_connection_in_loop; holds a reference
    | Teardown(id: Id)               // connection_destroyed; holds a reference
    | Hangup(id: Id)                 // shutdown, from stop(); holds a reference
    | Notice(id: Id)                 // write-complete or high-water mark; captures `this` only
    | Message(id: Id, early: bool)   // send() on another thread; captures `this` only
    | StopAll                        // the body of stop()

  datatype Peer = Peer(state: State, loop: LoopId)

  datatype Names = Names(server: string, ipPort: string) {
    function Of(id: Id): string {
      ConnName(server, ipPort, id + 1)
    }
  }

  /** The connections in order of acceptance, connections_, and one queue for each loop.  `erased`,
      `torndown` and `stopped` remember whose Remove or Teardown has run, and whom a stop() found; a
      Message remembers whether it was queued before the Remove ran. */
  datatype Server = Server(
    peers: seq<Peer>,
    registry: map<string, Id>,
    queues: seq<seq<Task>>,
    erased: set<Id>,
    torndown: set<Id>,
    stopped: set<Id>,
    crashed: bool)

  datatype Step =
    | Accept(loop: LoopId)                    // new_connection; the thread pool chose `loop`
    | Execute(loop: LoopId, order: seq<Id>)   // a loop runs its next functor
    | Close(id: Id)                           // end of file, error or force_close on the connection's loop
    | HangupCall(id: Id)                      // shutdown() by the application on the connection's loop
    | Wrote(id: Id)                           // a complete write, or too full a buffer, on the connection's loop
    | SentElsewhere(id: Id)                   // send() on another thread queues its functor
    | StopCall(onBase: bool, order: seq<Id>)  // stop() on the base loop or on another thread

  // ---- what the functors do -------------------------------------------------------------------

  predicate Known(s: Server, id: Id) {
    id < |s.peers|
  }

  function Append(s: Server, l: LoopId, t: Task): Server {
    if l < |s.queues| then s.(queues := s.queues[l := s.queues[l] + [t]]) else s
  }

  function SetState(s: Server, id: Id, state: State): Server
    requires Known(s, id)
  {
    s.(peers := s.peers[id := s.peers[id].(state := state)])
  }

  /** The assertion of connection_established is that the connection is still CONNECTING. */
  function DoSetup(s: Server, id: Id): Server
    requires Known(s, id)
  {
    if s.peers[id].state == CONNECTING then SetState(s, id, CONNECTED) else s.(crashed := true)
  }

  /** The assertion of remove_connection_in_loop is that erase(name) found exactly one entry. */
  function DoRemove(names: Names, s: Server, id: Id): Server
    requires Known(s, id)
  {
    if names.Of(id) !in s.registry then s.(crashed := true)
    else
      Append(s.(registry := s.registry - {names.Of(id)}, erased := s.erased + {id}), s.peers[id].loop, Teardown(id))
  }

  /** handle_close and the close callback: remove_connection runs at once on the base loop only. */
  function DoClose(names: Names, s: Server, id: Id): Server
    requires Known(s, id)
  {
    var s1 := SetState(s, id, DISCONNECTED);
    if s.peers[id].loop == BASE then DoRemove(names, s1, id) else Append(s1, BASE, Remove(id))
  }

  function DoHangup(s: Server, id: Id): Server
    requires Known(s, id)
  {
    if s.peers[id].state == CONNECTED then SetState(s, id, DISCONNECTING) else s
  }

  function DoTeardown(names: Names, s: Server, id: Id): Server
    requires Known(s, id)
  {
    var s1 := s.(torndown := s.torndown + {id});
    if s.peers[id].state == CONNECTED then DoClose(names, s1, id) else s1
  }

  function StopOne(s: Server, id: Id): (r: Server)
    requires Known(s, id)
    ensures |r.peers| == |s.peers| && r.registry == s.registry
    ensures r.erased == s.erased && r.torndown == s.torndown
  {
    var s1 := s.(stopped := s.stopped + {id});
    if s.peers[id].loop == BASE then DoHangup(s1, id) else Append(s1, s.peers[id].loop, Hangup(id))
  }

  /** The loop over connections_ in stop(); `order` is the order of this iteration. */
  function DoStop(s: Server, order: seq<Id>): (r: Server)
    requires forall id | id in order :: Known(s, id)
    ensures |r.peers| == |s.peers| && r.registry == s.registry
    ensures r.erased == s.erased && r.torndown == s.torndown
    decreases |order|
  {
    if order == [] then s
    else
      assert forall id | id in order[1..] :: id in order && Known(s, id);
      DoStop(StopOne(s, order[0]), order[1..])
  }

  /** The connection just entered in the registry, its set-up still to be done. */
  function Entered(names: Names, s: Server, loop: LoopId): Server {
    s.(peers := s.peers + [Peer(CONNECTING, loop)], registry := s.registry[names.Of(|s.peers|) := |s.peers|])
  }

  function DoAccept(names: Names, s: Server, loop: LoopId): Server {
    var s1 := Entered(names, s, loop);
    if loop == BASE then DoSetup(s1, |s.peers|) else Append(s1, loop, Setup(|s.peers|))
  }

  function DoTask(names: Names, s: Server, t: Task, order: seq<Id>): Server
    requires t.StopAll? || Known(s, t.id)
    requires forall id | id in order :: Known(s, id)
  {
    match t
    case Setup(id) => DoSetup(s, id)
    case Remove(id) => DoRemove(names, s, id)
    case Teardown(id) => DoTeardown(names, s, id)
    case Hangup(id) => DoHangup(s, id)
    case Notice(_) => s
    case Message(_, _) => s
    case StopAll => DoStop(s, order)
  }

  function Pop(s: Server, l: LoopId): Server
    requires l < |s.queues| && s.queues[l] != []
  {
    s.(queues := s.queues[l := s.queues[l][1..]])
  }

  /** An order in which connections_ may be iterated. */
  ghost predicate IsOrder(order: seq<Id>, registry: map<string, Id>) {
    forall id :: id in order <==> id in registry.Values
  }

  ghost predicate Enabled(s: Server, step: Step) {
    && !s.crashed
    && match step
       case Accept(loop) => loop < |s.queues| && |s.peers| < INT_MAX
       case Execute(l, order) =>
         && l < |s.queues| && s.queues[l] != [] && (s.queues[l][0] == StopAll ==> IsOrder(order, s.registry))
         && (s.queues[l][0].StopAll? || Known(s, s.queues[l][0].id))
         && (forall id | id in order :: Known(s, id))
       case Close(id) => Known(s, id) && (s.peers[id].state == CONNECTED || s.peers[id].state == DISCONNECTING)
       case HangupCall(id) => Known(s, id)
       case Wrote(id) => Known(s, id) && (s.peers[id].state == CONNECTED || s.peers[id].state == DISCONNECTING)
       case SentElsewhere(id) => Known(s, id) && s.peers[id].state != CONNECTING
       case StopCall(_, order) => IsOrder(order, s.registry) && forall id | id in order :: Known(s, id)
  }

  ghost function Apply(names: Names, s: Server, step: Step): Server
    requires Enabled(s, step)
  {
    match step
    case Accept(loop) => DoAccept(names, s, loop)
    case Execute(l, order) => DoTask(names, Pop(s, l), s.queues[l][0], order)
    case Close(id) => DoClose(names, s, id)
    case HangupCall(id) => DoHangup(s, id)
    case Wrote(id) => Append(s, s.peers[id].loop, Notice(id))
    case SentElsewhere(id) => Append(s, s.peers[id].loop, Message(id, id !in s.erased))
    case StopCall(onBase, order) => if onBase then DoStop(s, order) else Append(s, BASE, StopAll)
  }

  ghost predicate Legal(names: Names, s: Server, steps: seq<Step>)
    decreases |steps|
  {
    steps == [] || (Enabled(s, steps[0]) && Legal(names, Apply(names, s, steps[0]), steps[1..]))
  }

  ghost function After(names: Names, s: Server, steps: seq<Step>): Server
    requires Legal(names, s, steps)
    decreases |steps|
  {
    if steps == [] then s else After(names, Apply(names, s, steps[0]), steps[1..])
  }

  function Idle(ioLoops: nat): Server {
    Server([], map[], seq(ioLoops + 1, _ => []), {}, {}, {}, false)
  }
}
