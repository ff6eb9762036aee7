/** The connection object: its methods update state, output buffer and poller interest step by step.

    Each is proved to take the object where `ConnectionSpec` says.  `crashed` stands for the failed
    assertion or the exception after which nothing runs any more. */
module TcpConnections {
  import B = Buffers
  import opened ConnectionSpec

  class TcpConnection {
    const cfg: Config
    const output: B.Buffer
    var state: State
    var registered: bool
    var writeInterest: bool
    var crashed: bool
    ghost var wire: string
    ghost var accepted: string
    ghost var completes: seq<Note>
    ghost var shuts: seq<Note>
    ghost var alarms: seq<nat>
    ghost var closes: nat

    ghost predicate Valid()
      reads this, output
    {
      output.Valid()
    }

    ghost function Value(): Conn
      requires Valid()
      reads this, output, output.data
    {
      Conn(state, registered, writeInterest, output.Contents(), wire, accepted,
           completes, shuts, alarms, closes, crashed)
    }

    constructor (cfg: Config)
      ensures Valid() && fresh(output) && fresh(output.data) && Value() == NEW_CONNECTION && this.cfg == cfg
    {
      this.cfg := cfg;
      output := new B.Buffer();
      state, registered, writeInterest, crashed := CONNECTING, false, false, false;
      wire, accepted, completes, shuts, alarms, closes := "", "", [], [], [], 0;
    }

    method QueueWriteComplete()
      requires Valid()
      modifies this`completes
      ensures Valid() && Value() == QueueComplete(cfg, old(Value()))
    {
      if cfg.writeComplete {
        completes := completes + [Note(wire, accepted)];
      }
    }

    method BufferRemaining(rest: string)
      requires Valid()
      modifies this`alarms, this`writeInterest, this`crashed, output, output.data
      ensures Valid() && (output.data == old(output.data) || fresh(output.data))
      ensures Value() == BufferRest(cfg, old(Value()), rest)
    {
      if rest != "" {
        var oldLen := output.ReadableBytes();
        if cfg.highWater && oldLen + |rest| >= cfg.mark && oldLen < cfg.mark {
          alarms := alarms + [oldLen + |rest|];
        }
        output.Append(rest);
        if registered {
          writeInterest := true;
        } else {
          crashed := true;
        }
      }
    }

    method SendInLoop(data: string, kernel: Written)
      requires Valid() && !crashed
      modifies this, output, output.data
      ensures Valid() && (output.data == old(output.data) || fresh(output.data))
      ensures Value() == ConnectionSpec.SendInLoop(cfg, old(Value()), data, kernel)
    {
      hide BufferRest;
      var nwrote := 0;
      var fault := false;
      if state == CONNECTED && output.ReadableBytes() == 0 {
        match kernel
        case Sent(k) =>
          nwrote := Clamp(k, |data|);
          wire, accepted := wire + data[..nwrote], accepted + data;
          if nwrote == |data| {
            QueueWriteComplete();
          }
        case NotSent(e) =>
          fault := e == BrokenPipe || e == ConnectionReset;
          accepted := if fault then accepted else accepted + data;
      } else {
        accepted := accepted + data;
      }
      if !fault {
        assert nwrote == 0 ==> data[nwrote..] == data;
        BufferRemaining(data[nwrote..]);
      }
    }

    method ShutdownInLoop()
      requires Valid()
      modifies this`shuts
      ensures Valid() && Value() == ConnectionSpec.ShutdownInLoop(old(Value()))
    {
      if output.ReadableBytes() == 0 {
        shuts := shuts + [Note(wire, accepted)];
      }
    }

    method Shutdown()
      requires Valid()
      modifies this`state, this`shuts
      ensures Valid() && Value() == DoShutdown(old(Value()))
    {
      if state == CONNECTED {
        state := DISCONNECTING;
        ShutdownInLoop();
      }
    }

    method HandleClose()
      requires Valid()
      modifies this
      ensures Valid() && Value() == ConnectionSpec.HandleClose(cfg, old(Value()))
    {
      if state != CONNECTED && state != DISCONNECTING {
        crashed := true;
        return;
      }
      state := DISCONNECTED;
      registered, writeInterest := false, false;
      closes := if cfg.close then closes + 1 else closes;
    }

    method ForceClose()
      requires Valid()
      modifies this
      ensures Valid() && Value() == DoForceClose(cfg, old(Value()))
    {
      if state == CONNECTED || state == DISCONNECTING {
        state := DISCONNECTING;
        HandleClose();
      }
    }

    method ConnectionEstablished()
      requires Valid() && !crashed
      modifies this
      ensures Valid() && Value() == Step(cfg, old(Value()), Establish)
    {
      if state != CONNECTING {
        crashed := true;
        return;
      }
      state := CONNECTED;
      registered, writeInterest := true, false;
    }

    method ConnectionDestroyed()
      requires Valid() && !crashed
      modifies this
      ensures Valid() && Value() == Step(cfg, old(Value()), Destroy)
    {
      if state == CONNECTED {
        state := DISCONNECTED;
        registered, writeInterest := false, false;
        closes := if cfg.close then closes + 1 else closes;
      }
    }

    /** The calls a message callback makes on its connection, one after the other. */
    method Callback(calls: seq<Call>)
      requires Valid() && !crashed
      modifies this, output, output.data
      ensures Valid() && (output.data == old(output.data) || fresh(output.data))
      ensures Value() == DoCalls(cfg, old(Value()), calls)
    {
      hide ConnectionSpec.SendInLoop, DoShutdown, DoForceClose;
      for i := 0 to |calls|
        invariant Valid() && (output.data == old(output.data) || fresh(output.data))
        invariant DoCalls(cfg, Value(), calls[i..]) == DoCalls(cfg, old(Value()), calls)
      {
        assert calls[i..][1..] == calls[i + 1..];
        if !crashed {
          match calls[i]
          case Send(data, kernel) =>
            if state == CONNECTED {
              SendInLoop(data, kernel);
            }
          case Shutdown => Shutdown();
          case ForceClose => ForceClose();
        }
      }
    }

    method HandleRead(delivery: Delivery, reply: seq<Call>)
      requires Valid() && !crashed
      modifies this, output, output.data
      ensures Valid() && (output.data == old(output.data) || fresh(output.data))
      ensures Value() == ConnectionSpec.HandleRead(cfg, old(Value()), delivery, reply)
    {
      hide DoCalls, ConnectionSpec.HandleClose;
      match delivery
      case Received(bytes) =>
        if bytes != "" {
          Callback(reply);
        } else {
          HandleClose();
        }
      case ReadError =>
        HandleClose();
    }

    method HandleWrite(kernel: Written)
      requires Valid() && !crashed
      modifies this, output
      ensures Valid() && output.data == old(output.data)
      ensures Value() == ConnectionSpec.HandleWrite(cfg, old(Value()), kernel)
      ensures old(state) == CONNECTED && kernel.Sent? ==>
                var buffered := old(output.Contents());
                var k := if kernel.count <= |buffered| then kernel.count else |buffered|;
                && wire == old(wire) + buffered[..k] && output.Contents() == buffered[k..]
                && (writeInterest <==> old(writeInterest) && !(k > 0 && k == |buffered|))
    {
      if state == CONNECTED && kernel.Sent? {
        ghost var before := output.Contents();
        var count := Clamp(kernel.count, output.ReadableBytes());
        var n, _ := output.WriteFd(B.Wrote(count));
        wire := wire + before[..n];
        if n > 0 {
          if output.ReadableBytes() == 0 {
            writeInterest := false;
            QueueWriteComplete();
            if state == DISCONNECTING {
              assert false;
            }
          }
        } else {
          assert wire == old(wire) && output.Contents() == before;
        }
      }
    }

    /** The handler registered with the poller. */
    method HandleReady(e: Event)
      requires Valid() && !crashed && e.Ready?
      modifies this, output, output.data
      ensures Valid() && (output.data == old(output.data) || fresh(output.data))
      ensures Value() == Step(cfg, old(Value()), e)
    {
      hide ConnectionSpec.HandleRead, ConnectionSpec.HandleWrite, ConnectionSpec.HandleClose;
      if e.read {
        HandleRead(e.delivery, e.reply);
      }
      if e.write && !crashed {
        HandleWrite(e.kernel);
      }
      if e.error && !crashed {
        HandleClose();
      }
    }
  }
}
