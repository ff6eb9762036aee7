/** What holds of a connection in every run: its ledger, its states, and exactly when it dies. */
module ConnectionSafety {
  import opened ConnectionSpec

  lemma BufferRestKeepsInv(cfg: Config, c: Conn, rest: string)
    requires Handled(cfg, c) && Noted(c) && c.wire + c.output + rest == c.accepted
    requires c.shuts != [] ==> c.state != CONNECTED
    ensures Inv(cfg, BufferRest(cfg, c, rest)) && BufferRest(cfg, c, rest).wire == c.wire
    ensures BufferRest(cfg, c, rest).crashed <==> c.crashed || (rest != "" && !c.Alive())
  {
    assert c.wire + (c.output + rest) == c.wire + c.output + rest;
  }

  lemma SendKeepsInv(cfg: Config, c: Conn, data: string, kernel: Written)
    requires Inv(cfg, c)
    ensures Inv(cfg, SendInLoop(cfg, c, data, kernel)) && Forward(c, SendInLoop(cfg, c, data, kernel))
    ensures SendInLoop(cfg, c, data, kernel).crashed <==> c.crashed || (data != "" && !c.Alive())
  {
    if !c.crashed {
      var c1 := c.(accepted := c.accepted + data);
      assert c1.wire + c1.output + data == c1.accepted;
      if c.state == CONNECTED && c.output == "" {
        match kernel
        case Sent(k) =>
          var n := Clamp(k, |data|);
          var c2 := c1.(wire := c.wire + data[..n]);
          assert c2.wire + c2.output + data[n..] == c2.accepted by {
            assert data[..n] + data[n..] == data;
            assert c.wire + c.output == c.wire;
          }
          var c3 := if n == |data| then QueueComplete(cfg, c2) else c2;
          assert n == |data| ==> c2.wire == c2.accepted;
          BufferRestKeepsInv(cfg, c3, data[n..]);
        case NotSent(e) =>
          BufferRestKeepsInv(cfg, c1, data);
      } else {
        BufferRestKeepsInv(cfg, c1, data);
      }
    }
  }

  /** A call from a callback never crashes: its own checks of the state stand in front. */
  lemma CallKeepsInv(cfg: Config, c: Conn, call: Call)
    requires Inv(cfg, c)
    ensures Inv(cfg, DoCall(cfg, c, call)) && Forward(c, DoCall(cfg, c, call))
    ensures DoCall(cfg, c, call).crashed == c.crashed
    ensures DoCall(cfg, c, call).Alive() <==> c.Alive() && (c.crashed || call != ForceClose)
  {
    match call
    case Send(data, kernel) =>
      SendKeepsInv(cfg, c, data, kernel);
      SendKeepsState(cfg, c, data, kernel);
      hide SendInLoop, Inv;
    case Shutdown =>
    case ForceClose =>
  }

  lemma SendKeepsState(cfg: Config, c: Conn, data: string, kernel: Written)
    ensures SendInLoop(cfg, c, data, kernel).state == c.state
  {
  }

  lemma {:induction false} CallsKeepInv(cfg: Config, c: Conn, calls: seq<Call>)
    requires Inv(cfg, c)
    ensures var c' := DoCalls(cfg, c, calls);
            && Inv(cfg, c') && Forward(c, c') && c'.crashed == c.crashed
            && (c'.Alive() <==> c.Alive() && (c.crashed || ForceClose !in calls))
    decreases |calls|
  {
    hide DoCall, Inv;
    if calls != [] {
      CallKeepsInv(cfg, c, calls[0]);
      CallsKeepInv(cfg, DoCall(cfg, c, calls[0]), calls[1..]);
      assert ForceClose in calls <==> calls[0] == ForceClose || ForceClose in calls[1..];
    }
  }

  lemma CloseKeepsInv(cfg: Config, c: Conn)
    requires Inv(cfg, c) && !c.crashed
    ensures Inv(cfg, HandleClose(cfg, c)) && Forward(c, HandleClose(cfg, c))
    ensures HandleClose(cfg, c).crashed <==> !c.Alive()
    ensures !HandleClose(cfg, c).Alive()
  {
  }

  /** Whether handling this read ends an open connection. */
  predicate ReadCloses(delivery: Delivery, reply: seq<Call>) {
    !delivery.Received? || delivery.bytes == "" || ForceClose in reply
  }

  lemma ReadKeepsInv(cfg: Config, c: Conn, delivery: Delivery, reply: seq<Call>)
    requires Inv(cfg, c) && !c.crashed
    ensures var c' := HandleRead(cfg, c, delivery, reply);
            && Inv(cfg, c') && Forward(c, c')
            && (c'.Alive() <==> c.Alive() && !ReadCloses(delivery, reply))
            && (c'.crashed <==> !c.Alive() && (!delivery.Received? || delivery.bytes == ""))
  {
    hide Inv, DoCalls, HandleClose;
    if delivery.Received? && delivery.bytes != "" {
      CallsKeepInv(cfg, c, reply);
    } else {
      CloseKeepsInv(cfg, c);
    }
  }

  lemma WriteKeepsInv(cfg: Config, c: Conn, kernel: Written)
    requires Inv(cfg, c) && !c.crashed
    ensures Inv(cfg, HandleWrite(cfg, c, kernel)) && Forward(c, HandleWrite(cfg, c, kernel))
    ensures HandleWrite(cfg, c, kernel).state == c.state && !HandleWrite(cfg, c, kernel).crashed
  {
    if c.state == CONNECTED && kernel.Sent? {
      var n := Clamp(kernel.count, |c.output|);
      assert c.output[..n] + c.output[n..] == c.output;
      assert (c.wire + c.output[..n]) + c.output[n..] == c.wire + c.output;
      assert c.output[n..] == "" ==> c.wire + c.output[..n] == c.accepted;
    }
  }

  /** The handler dies exactly when it is told of an error after its read has closed the connection, or
      when the event is stale and asks to close what is closed already. */
  lemma ReadyKeepsInv(cfg: Config, c: Conn, e: Event)
    requires Inv(cfg, c) && !c.crashed && e.Ready?
    ensures Inv(cfg, HandleReady(cfg, c, e)) && Forward(c, HandleReady(cfg, c, e))
    ensures HandleReady(cfg, c, e).crashed <==>
            if c.Alive() then e.error && e.read && ReadCloses(e.delivery, e.reply)
            else e.error || (e.read && (!e.delivery.Received? || e.delivery.bytes == ""))
  {
    hide Inv, HandleRead, HandleWrite, HandleClose;
    var c1 := if e.read then HandleRead(cfg, c, e.delivery, e.reply) else c;
    if e.read {
      ReadKeepsInv(cfg, c, e.delivery, e.reply);
    }
    if !c1.crashed {
      var c2 := if e.write then HandleWrite(cfg, c1, e.kernel) else c1;
      WriteKeepsInv(cfg, c1, e.kernel);
      if e.error {
        CloseKeepsInv(cfg, c2);
      }
    }
  }

  /** When one event ends the program, by a failed assertion or an exception of the poller. */
  predicate Fatal(c: Conn, e: Event) {
    match e
    case Called(_) => false
    case QueuedSend(data, _) => data != "" && !c.Alive()
    case Establish => c.state != CONNECTING
    case Destroy => false
    case Ready(read, _, error, delivery, reply, _) =>
      if c.Alive() then error && read && ReadCloses(delivery, reply)
      else error || (read && (!delivery.Received? || delivery.bytes == ""))
  }

  lemma StepKeepsInv(cfg: Config, c: Conn, e: Event)
    requires Inv(cfg, c)
    ensures Inv(cfg, Step(cfg, c, e)) && Forward(c, Step(cfg, c, e))
    ensures Step(cfg, c, e).crashed <==> c.crashed || Fatal(c, e)
  {
    if !c.crashed {
      match e
      case Called(call) => CallKeepsInv(cfg, c, call); hide Inv, DoCall;
      case QueuedSend(data, kernel) => SendKeepsInv(cfg, c, data, kernel); hide Inv, SendInLoop;
      case Establish =>
      case Destroy =>
      case Ready(_, _, _, _, _, _) => ReadyKeepsInv(cfg, c, e); hide Inv, HandleReady;
    }
  }

  /** Every run of a connection keeps the ledger, the registration, the write interest and the close
      callback in step with its state. */
  lemma {:induction false} RunKeepsInv(cfg: Config, events: seq<Event>)
    ensures Inv(cfg, Run(cfg, NEW_CONNECTION, events))
  {
    if events != [] {
      RunKeepsInv(cfg, events[..|events| - 1]);
      StepKeepsInv(cfg, Run(cfg, NEW_CONNECTION, events[..|events| - 1]), events[|events| - 1]);
      hide Inv, Step;
    } else {
      assert "" + "" == "";
    }
  }

  predicate FatalAt(cfg: Config, events: seq<Event>, i: nat)
    requires i < |events|
  {
    var c := Run(cfg, NEW_CONNECTION, events[..i]);
    !c.crashed && Fatal(c, events[i])
  }

  /** A run crashes exactly when one of its events is fatal to the connection as that event finds it. */
  lemma {:induction false} CrashExactly(cfg: Config, events: seq<Event>)
    ensures Run(cfg, NEW_CONNECTION, events).crashed <==> exists i | 0 <= i < |events| :: FatalAt(cfg, events, i)
  {
    if events != [] {
      var n := |events| - 1;
      var front := events[..n];
      var c := Run(cfg, NEW_CONNECTION, front);
      CrashExactly(cfg, front);
      RunKeepsInv(cfg, front);
      StepKeepsInv(cfg, c, events[n]);
      forall i | 0 <= i < n ensures FatalAt(cfg, events, i) == FatalAt(cfg, front, i) {
        assert front[..i] == events[..i];
      }
      assert FatalAt(cfg, events, n) <==> !c.crashed && Fatal(c, events[n]);
      hide Inv, Step, Fatal, FatalAt;
    }
  }

  lemma ForwardTwice(c: Conn, c1: Conn, c2: Conn)
    requires Forward(c, c1) && Forward(c1, c2)
    ensures Forward(c, c2)
  {
  }

  lemma {:induction false} RunGoesForward(cfg: Config, c: Conn, events: seq<Event>)
    requires Inv(cfg, c)
    ensures Inv(cfg, Run(cfg, c, events)) && Forward(c, Run(cfg, c, events))
  {
    hide Inv, Step, Forward;
    if events != [] {
      var m := Run(cfg, c, events[..|events| - 1]);
      RunGoesForward(cfg, c, events[..|events| - 1]);
      StepKeepsInv(cfg, m, events[|events| - 1]);
      ForwardTwice(c, m, Step(cfg, m, events[|events| - 1]));
    } else {
      ForwardSelf(c);
    }
  }

  lemma ForwardSelf(c: Conn)
    ensures Forward(c, c)
  {
  }

  /** In every run: the wire carries a prefix of the accepted messages and the buffer holds the rest;
      write-complete is queued only when everything accepted so far is written; SHUT_WR is issued at
      most once, when everything accepted is written, and nothing is written after it. */
  lemma OutputIsFaithful(cfg: Config, events: seq<Event>)
    ensures var c := Run(cfg, NEW_CONNECTION, events);
            && c.accepted == c.wire + c.output
            && (forall i | 0 <= i < |c.completes| :: c.completes[i].wire == c.completes[i].accepted)
            && |c.shuts| <= 1
            && (c.shuts != [] ==> c.shuts[0].accepted == c.shuts[0].wire == c.wire)
  {
    RunKeepsInv(cfg, events);
  }

  /** The branch of handle_write that was to finish a shutdown is never taken: after shutdown() the
      write side is closed if nothing was buffered at that moment, and otherwise never, nor is another
      byte of the buffer ever written. */
  lemma ShutdownClosesWriteSideIff(cfg: Config, c: Conn, events: seq<Event>)
    requires Inv(cfg, c) && !c.crashed && c.state == CONNECTED
    ensures var c' := Run(cfg, DoCall(cfg, c, Shutdown), events);
            && (c'.shuts != [] <==> c.output == "")
            && c'.wire == c.wire
            && (c.output != "" ==> c'.wire < c'.accepted)
  {
    CallKeepsInv(cfg, c, Shutdown);
    var c1 := DoCall(cfg, c, Shutdown);
    assert c1.state == DISCONNECTING && c1.wire == c.wire && c1.accepted == c.accepted;
    assert c1.shuts != [] <==> c.output == "";
    RunGoesForward(cfg, c1, events);
    assert c.output != "" ==> |c.wire| < |c.accepted|;
    hide Run, DoCall;
  }

  /** The high-water callback is queued exactly by the send that lifts the buffer from below the mark to
      it or beyond, and is told the new length. */
  lemma AlarmOnCrossing(cfg: Config, c: Conn, data: string, kernel: Written)
    requires !c.crashed
    ensures var c' := SendInLoop(cfg, c, data, kernel);
            c'.alarms == if cfg.highWater && |c.output| < cfg.mark <= |c'.output| then c.alarms + [|c'.output|]
                         else c.alarms
  {
  }

  /** End of file and an error told in one event: the run ends in a failed assertion. */
  lemma ErrorAfterEndOfFileCrashes(cfg: Config)
    ensures Run(cfg, NEW_CONNECTION, [Establish, Ready(true, false, true, Received(""), [], Sent(0))]).crashed
  {
    var e := Ready(true, false, true, Received(""), [], Sent(0));
    assert [Establish, e][..1] == [Establish] && [Establish][..0] == [];
    assert Run(cfg, NEW_CONNECTION, [Establish]) == Step(cfg, NEW_CONNECTION, Establish);
  }

  /** shutdown() with a byte still buffered: the write side stays open and the byte is never written. */
  lemma BufferedByteIsLost(cfg: Config, events: seq<Event>)
    ensures var c := Run(cfg, NEW_CONNECTION, [Establish, Called(Send("x", NotSent(WouldBlock)))]);
            var c' := Run(cfg, DoCall(cfg, c, Shutdown), events);
            c.accepted == "x" && c'.shuts == [] && c'.wire == ""
  {
    var before := [Establish, Called(Send("x", NotSent(WouldBlock)))];
    assert before[..1] == [Establish] && [Establish][..0] == [];
    assert Run(cfg, NEW_CONNECTION, [Establish]) == Step(cfg, NEW_CONNECTION, Establish);
    RunKeepsInv(cfg, before);
    ShutdownClosesWriteSideIff(cfg, Run(cfg, NEW_CONNECTION, before), events);
  }
}
