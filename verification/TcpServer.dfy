/** The server object: connections_, the counter behind the names, and the functors its loops have queued.

    Each method is proved to take the state where `ServerSpec` says, and its assertions to hold whenever
    the registry's invariant does. */
module TcpServers {
  import opened ConnectionSpec
  import opened ServerNames
  import opened ServerSpec
  import opened ServerSafety
  import opened ServerSteps

  class TcpServer {
    const names: Names
    var connections: map<string, Id>
    var nextConnId: nat
    var peers: seq<Peer>
    var queues: seq<seq<Task>>
    ghost var erased: set<Id>
    ghost var torndown: set<Id>
    ghost var stopped: set<Id>

    ghost function State(): Server
      reads this
    {
      Server(peers, connections, queues, erased, torndown, stopped, false)
    }

    /** The names can tell connections apart, and `hand` holds the functors taken but not yet run. */
    ghost predicate Valid(hand: set<Task>)
      reads this
    {
      |names.ipPort| <= 51 && nextConnId == |peers| + 1 && RegistryInv(names, State(), hand)
    }

    constructor (name: string, ipPort: string, ioLoops: nat)
      ensures State() == Idle(ioLoops) && names == Names(name, ipPort) && nextConnId == 1
      ensures Valid({}) <==> |ipPort| <= 51
    {
      names := Names(name, ipPort);
      connections, nextConnId, peers := map[], 1, [];
      queues := seq(ioLoops + 1, _ => []);
      erased, torndown, stopped := {}, {}, {};
    }

    method QueueInLoop(l: LoopId, t: Task)
      requires l < |queues|
      modifies this`queues
      ensures State() == Append(old(State()), l, t)
    {
      queues := queues[l := queues[l] + [t]];
    }

    method ConnectionEstablished(id: Id)
      requires id < |peers| && peers[id].state == CONNECTING
      modifies this`peers
      ensures State() == DoSetup(old(State()), id)
    {
      assert peers[id].state == CONNECTING;
      peers := peers[id := peers[id].(state := CONNECTED)];
    }

    method Shutdown(id: Id)
      requires id < |peers|
      modifies this`peers
      ensures State() == DoHangup(old(State()), id)
    {
      if peers[id].state == CONNECTED {
        peers := peers[id := peers[id].(state := DISCONNECTING)];
      }
    }

    method RemoveConnectionInLoop(id: Id)
      requires Valid({Remove(id)}) && id < |peers| && peers[id].state == DISCONNECTED
      requires id !in erased && Nowhere(State(), Remove(id))
      modifies this
      ensures Valid({}) && State() == DoRemove(names, old(State()), id) && nextConnId == old(nextConnId)
    {
      hide RegistryInv;
      RemoveKeepsInv(names, State(), id);
      FoundByName(names, State(), id);
      var name := names.Of(id);
      var n := if name in connections then 1 else 0;
      connections := connections - {name};
      erased := erased + {id};
      assert n == 1;
      QueueInLoop(peers[id].loop, Teardown(id));
    }

    method RemoveConnection(id: Id)
      requires Valid({Remove(id)}) && id < |peers| && peers[id].state == DISCONNECTED
      requires id !in erased && Nowhere(State(), Remove(id))
      modifies this
      ensures Valid({}) && nextConnId == old(nextConnId)
      ensures State() == if old(peers)[id].loop == BASE then DoRemove(names, old(State()), id)
                         else Append(old(State()), BASE, Remove(id))
    {
      if peers[id].loop == BASE {
        RemoveConnectionInLoop(id);
      } else {
        HandOverRemove(names, State(), id);
        QueueInLoop(BASE, Remove(id));
      }
    }

    method HandleClose(id: Id)
      requires Valid({}) && id < |peers|
      requires peers[id].state == CONNECTED || peers[id].state == DISCONNECTING
      modifies this
      ensures Valid({}) && State() == DoClose(names, old(State()), id) && nextConnId == old(nextConnId)
    {
      ClosedKeepsInv(names, State(), id);
      peers := peers[id := peers[id].(state := DISCONNECTED)];
      RemoveConnection(id);
    }

    /** The branch that closes a connection still CONNECTED is never taken here. */
    method ConnectionDestroyed(id: Id)
      requires Valid({Teardown(id)}) && id < |peers| && id in erased && Nowhere(State(), Teardown(id))
      modifies this
      ensures Valid({}) && State() == DoTeardown(names, old(State()), id) && nextConnId == old(nextConnId)
    {
      TeardownKeepsInv(names, State(), id);
      assert peers[id].state == DISCONNECTED;
      torndown := torndown + {id};
    }

    /** Whatever the address; the invariant, and with it a name of its own, needs one of at most 51
        characters. */
    method NewConnection(loop: LoopId) returns (name: string)
      requires nextConnId == |peers| + 1 && nextConnId <= INT_MAX && loop < |queues|
      modifies this
      ensures State() == DoAccept(names, old(State()), loop) && nextConnId == |peers| + 1 == old(nextConnId) + 1
      ensures name in connections && connections[name] == old(|peers|)
      ensures old(Valid({})) ==> Valid({}) && name !in old(connections)
    {
      hide RegistryInv;
      if Valid({}) {
        AcceptKeepsInv(names, State(), loop);
        NameIsFree(names, State(), loop);
      }
      var id := |peers|;
      name := ConnName(names.server, names.ipPort, nextConnId);
      nextConnId := nextConnId + 1;
      peers := peers + [Peer(CONNECTING, loop)];
      connections := connections[name := id];
      if loop == BASE {
        ConnectionEstablished(id);
      } else {
        QueueInLoop(loop, Setup(id));
      }
    }

    method StopConnection(id: Id)
      requires Valid({}) && id < |peers|
      modifies this
      ensures Valid({}) && State() == StopOne(old(State()), id)
      ensures nextConnId == old(nextConnId) && connections == old(connections)
    {
      StopOneKeepsInv(names, State(), id);
      hide RegistryInv;
      stopped := stopped + {id};
      if peers[id].loop == BASE {
        Shutdown(id);
      } else {
        QueueInLoop(peers[id].loop, Hangup(id));
      }
    }

    /** The body of stop(), on the base loop: every connection, in the map's own order. */
    method StopInLoop() returns (ghost order: seq<Id>)
      requires Valid({})
      modifies this
      ensures forall id | id in order :: id < |old(peers)|
      ensures Valid({}) && IsOrder(order, old(connections)) && State() == DoStop(old(State()), order)
      ensures nextConnId == old(nextConnId)
    {
      hide RegistryInv, DoStop, StopOne;
      ghost var s := State();
      order := [];
      StopNone(s);
      var left := connections.Keys;
      while left != {}
        invariant left <= connections.Keys && connections == old(connections)
        invariant Valid({}) && nextConnId == old(nextConnId)
        invariant forall id | id in order :: id < |s.peers|
        invariant State() == DoStop(s, order) && |s.peers| == |peers|
        invariant forall id :: id in order <==> exists n :: n in connections && n !in left && connections[n] == id
      {
        var name :| name in left;
        var id := connections[name];
        RegisteredIsKnown(names, State(), name);
        LastStopped(s, order, id);
        StopConnection(id);
        order := order + [id];
        left := left - {name};
      }
    }

    /** The loop `l` runs the functor at the head of its queue. */
    method RunNext(l: LoopId) returns (ghost order: seq<Id>)
      requires Valid({}) && l < |queues| && queues[l] != []
      modifies this
      ensures Enabled(old(State()), Execute(l, order))
      ensures Valid({}) && State() == Apply(names, old(State()), Execute(l, order))
    {
      ghost var s := State();
      hide RegistryInv, Nowhere;
      NextInHand(names, s, l);
      order := [];
      var t := queues[l][0];
      queues := queues[l := queues[l][1..]];
      match t {
        case Setup(id) =>
          SetupKeepsInv(names, State(), id);
          ConnectionEstablished(id);
        case Remove(id) => RemoveConnectionInLoop(id);
        case Teardown(id) => ConnectionDestroyed(id);
        case Hangup(id) =>
          HangupFunctorKeepsInv(names, s, l, id);
          Shutdown(id);
        case Notice(_) =>
        case Message(_, _) =>
        case StopAll => order := StopInLoop();
      }
    }
  }

  lemma FoundByName(names: Names, s: Server, id: Id)
    requires RegistryInv(names, s, {Remove(id)}) && Known(s, id) && id !in s.erased
    ensures names.Of(id) in s.registry && s.peers[id].loop < |s.queues|
  {
  }

  lemma NameIsFree(names: Names, s: Server, loop: LoopId)
    requires |names.ipPort| <= 51 && RegistryInv(names, s, {}) && |s.peers| < INT_MAX
    ensures names.Of(|s.peers|) !in s.registry
  {
    EnteredRegistered(names, s, loop);
  }

  lemma StopNone(s: Server)
    ensures DoStop(s, []) == s
  {
  }

  lemma RegisteredIsKnown(names: Names, s: Server, name: string)
    requires RegistryInv(names, s, {}) && name in s.registry
    ensures Known(s, s.registry[name])
  {
  }
}
