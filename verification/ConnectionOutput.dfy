/** What each event does to a connection: which state it leaves, which bytes reach the wire, which stay in
    the buffer, and which callbacks are queued. */
module ConnectionOutput {
  import opened ConnectionSpec
  import opened ConnectionSafety

  // ---- states ---------------------------------------------------------------------------------

  /** Some call of the reply asks for a shutdown. */
  predicate ReadShutsDown(delivery: Delivery, reply: seq<Call>) {
    delivery.Received? && delivery.bytes != "" && Shutdown in reply
  }

  /** The state an event leaves, unless it is fatal. */
  function NextState(s: State, e: Event): State {
    match e
    case Called(Send(_, _)) => s
    case Called(Shutdown) => if s == CONNECTED then DISCONNECTING else s
    case Called(ForceClose) => if s == CONNECTED || s == DISCONNECTING then DISCONNECTED else s
    case QueuedSend(_, _) => s
    case Establish => CONNECTED
    case Destroy => if s == CONNECTED then DISCONNECTED else s
    case Ready(read, _, error, delivery, reply, _) =>
      if s != CONNECTED && s != DISCONNECTING then s
      else if error || (read && ReadCloses(delivery, reply)) then DISCONNECTED
      else if read && ReadShutsDown(delivery, reply) then DISCONNECTING
      else s
  }

  lemma CallState(cfg: Config, c: Conn, call: Call)
    requires !c.crashed
    ensures DoCall(cfg, c, call).state == NextState(c.state, Called(call))
  {
    hide BufferRest, QueueComplete;
    if call.Send? {
      SendKeepsState(cfg, c, call.data, call.kernel);
    }
  }

  lemma {:induction false} CallsState(cfg: Config, c: Conn, calls: seq<Call>)
    requires Inv(cfg, c) && !c.crashed
    ensures DoCalls(cfg, c, calls).state ==
            if !c.Alive() then c.state
            else if ForceClose in calls then DISCONNECTED
            else if Shutdown in calls then DISCONNECTING
            else c.state
    decreases |calls|
  {
    hide DoCall, Inv;
    if calls != [] {
      CallState(cfg, c, calls[0]);
      CallKeepsInv(cfg, c, calls[0]);
      CallsState(cfg, DoCall(cfg, c, calls[0]), calls[1..]);
      assert forall call :: call in calls <==> call == calls[0] || call in calls[1..];
    }
  }

  lemma ReadState(cfg: Config, c: Conn, e: Event)
    requires Inv(cfg, c) && !c.crashed && e.Ready? && e.read
    ensures HandleRead(cfg, c, e.delivery, e.reply).state == NextState(c.state, e.(write := false, error := false))
  {
    hide Inv, DoCalls;
    CallsState(cfg, c, e.reply);
  }

  /** Every event leaves the state the table says. */
  lemma StateAfter(cfg: Config, c: Conn, e: Event)
    requires Inv(cfg, c) && !c.crashed && !Fatal(c, e)
    ensures Step(cfg, c, e).state == NextState(c.state, e)
  {
    StepKeepsInv(cfg, c, e);
    hide Inv, DoCalls, HandleRead, HandleWrite, SendInLoop, DoCall;
    match e
    case Called(call) => CallState(cfg, c, call);
    case QueuedSend(data, kernel) => SendKeepsState(cfg, c, data, kernel);
    case Ready(read, write, error, delivery, reply, kernel) =>
      var c1 := if read then HandleRead(cfg, c, delivery, reply) else c;
      if read {
        ReadState(cfg, c, e);
        ReadKeepsInv(cfg, c, delivery, reply);
      }
      WriteKeepsInv(cfg, c1, kernel);
    case _ =>
  }

  // ---- sending --------------------------------------------------------------------------------

  /** The bytes a send hands to the kernel at once: none unless nothing is buffered before them. */
  function WrittenAtOnce(c: Conn, data: string, kernel: Written): nat {
    if c.state != CONNECTED || c.output != "" || kernel.NotSent? then 0
    else if kernel.count <= |data| then kernel.count else |data|
  }

  /** A send loses its data only when nothing was buffered and the kernel says that the peer is gone. */
  predicate Dropped(c: Conn, kernel: Written) {
    c.state == CONNECTED && c.output == "" && (kernel == NotSent(BrokenPipe) || kernel == NotSent(ConnectionReset))
  }

  /** send_in_loop takes over the data, or drops all of it: what the kernel took is on the wire, the rest
      joins the buffer, and write-complete is queued exactly when the kernel took all at once. */
  lemma SendEffect(cfg: Config, c: Conn, data: string, kernel: Written)
    requires Inv(cfg, c) && !c.crashed
    ensures var c', n := SendInLoop(cfg, c, data, kernel), WrittenAtOnce(c, data, kernel);
            if Dropped(c, kernel) then c' == c
            else
              && c'.accepted == c.accepted + data
              && c'.wire == c.wire + data[..n] && c'.output == c.output + data[n..]
              && c'.completes ==
                 (if cfg.writeComplete && c.state == CONNECTED && c.output == "" && kernel.Sent? && n == |data|
                  then c.completes + [Note(c'.wire, c'.accepted)] else c.completes)
              && (c.Alive() ==> (c'.writeInterest <==> c'.output != ""))
              && c'.state == c.state && c'.shuts == c.shuts && c'.closes == c.closes && c'.registered == c.registered
  {
    assert c.wire + "" == c.wire && c.output + "" == c.output && data[0..] == data && data[..0] == "";
    SendKeepsInv(cfg, c, data, kernel);
  }

  /** An application that calls send() on its loop thread: only a CONNECTED connection listens. */
  lemma SendCallEffect(cfg: Config, c: Conn, data: string, kernel: Written)
    requires !c.crashed
    ensures Step(cfg, c, Called(Send(data, kernel))) ==
            if c.state == CONNECTED then Step(cfg, c, QueuedSend(data, kernel)) else c
  {
    hide SendInLoop;
  }

  // ---- write events ---------------------------------------------------------------------------

  /** An event that reports the socket writable and nothing else. */
  predicate WriteEvent(e: Event) {
    e.Ready? && !e.read && e.write && !e.error
  }

  /** A write event moves what the kernel takes from the front of the buffer to the wire.  Write interest
      goes off and write-complete is queued exactly when that was something and nothing is left.  Any other
      state than CONNECTED, and a failed write, leave all as it was. */
  lemma WriteEffect(cfg: Config, c: Conn, e: Event)
    requires Inv(cfg, c) && !c.crashed && WriteEvent(e)
    ensures var c' := Step(cfg, c, e);
            if c.state != CONNECTED || e.kernel.NotSent? then c' == c
            else
              var k := if e.kernel.count <= |c.output| then e.kernel.count else |c.output|;
              && c'.wire == c.wire + c.output[..k] && c'.output == c.output[k..]
              && (c'.writeInterest <==> c.writeInterest && !(k > 0 && k == |c.output|))
              && c'.completes ==
                 (if cfg.writeComplete && k > 0 && k == |c.output| then c.completes + [Note(c'.wire, c'.accepted)]
                  else c.completes)
              && c' == c.(wire := c'.wire, output := c'.output, writeInterest := c'.writeInterest,
                          completes := c'.completes)
  {
    if c.state == CONNECTED && e.kernel.Sent? && Clamp(e.kernel.count, |c.output|) == 0 {
      assert c.output[..0] == "" && c.wire + "" == c.wire && c.output[0..] == c.output;
    }
  }

  /** A write event that the kernel answers with a count. */
  predicate Takes(e: Event) {
    WriteEvent(e) && e.kernel.Sent?
  }

  predicate AllTake(events: seq<Event>) {
    forall i | 0 <= i < |events| :: Takes(events[i])
  }

  /** How many bytes the kernel is ready to take over a list of write events. */
  function Capacity(events: seq<Event>): nat
    requires AllTake(events)
  {
    if events == [] then 0 else Capacity(events[..|events| - 1]) + events[|events| - 1].kernel.count
  }

  /** Where the kernel has taken `n` bytes of what was buffered in `c`. */
  predicate Drained(cfg: Config, c: Conn, c': Conn, n: nat) {
    && c'.accepted == c.accepted && c'.state == CONNECTED && !c'.crashed && |c.wire| <= |c.accepted|
    && c'.wire == (if n < |c.accepted| - |c.wire| then c.accepted[..|c.wire| + n] else c.accepted)
    && c'.output == (if n < |c.output| then c.output[n..] else "")
    && c'.completes == (if cfg.writeComplete && c.output != "" && n >= |c.output|
                        then c.completes + [Note(c.accepted, c.accepted)] else c.completes)
  }

  /** Over any list of write events the wire follows the accepted bytes as far as the kernel takes them;
      everything is out exactly when it takes as much as was buffered, and write-complete is then queued
      once. */
  lemma {:induction false} BufferDrains(cfg: Config, c: Conn, events: seq<Event>)
    requires Inv(cfg, c) && !c.crashed && c.state == CONNECTED && AllTake(events)
    ensures Drained(cfg, c, Run(cfg, c, events), Capacity(events)) && Inv(cfg, Run(cfg, c, events))
  {
    hide Inv, Step, Drained, Takes;
    if events == [] {
      NothingTaken(cfg, c);
    } else {
      var front, e := events[..|events| - 1], events[|events| - 1];
      LedgerOf(cfg, c);
      BufferDrains(cfg, c, front);
      MoreTaken(cfg, c, Run(cfg, c, front), Capacity(front), e);
    }
  }

  lemma NothingTaken(cfg: Config, c: Conn)
    requires Inv(cfg, c) && !c.crashed && c.state == CONNECTED
    ensures Drained(cfg, c, c, 0)
  {
    assert c.output[0..] == c.output && c.accepted[..|c.wire|] == c.wire;
  }

  lemma MoreTaken(cfg: Config, c: Conn, m: Conn, n: nat, e: Event)
    requires Drained(cfg, c, m, n) && Inv(cfg, m) && Takes(e) && c.wire + c.output == c.accepted
    ensures Drained(cfg, c, Step(cfg, m, e), n + e.kernel.count) && Inv(cfg, Step(cfg, m, e))
  {
    hide Inv, Step;
    WriteEffect(cfg, m, e);
    StepKeepsInv(cfg, m, e);
    var k := e.kernel.count;
    if n < |c.output| {
      MoreWritten(c.wire, c.output, c.accepted, n, k);
      assert k >= |m.output| ==> m.output[..|m.output|] == m.output && m.output[|m.output|..] == "";
    } else {
      assert m.output[..0] == "" && m.output[0..] == "" && m.wire + "" == m.wire;
    }
  }

  lemma LedgerOf(cfg: Config, c: Conn)
    requires Inv(cfg, c)
    ensures c.wire + c.output == c.accepted
  {
  }

  lemma MoreWritten(wire: string, output: string, accepted: string, n: nat, k: nat)
    requires wire + output == accepted
    ensures n < |output| ==>
              var now, rest := accepted[..|wire| + n], output[n..];
              && (k < |rest| ==> now + rest[..k] == accepted[..|wire| + (n + k)] && rest[k..] == output[n + k..])
              && (k >= |rest| ==> now + rest == accepted)
  {
  }

  /** In particular, as many write events as there are bytes buffered, each taking at least one, leave
      nothing behind: every accepted byte is on the wire, in order. */
  lemma EveryByteIsWritten(cfg: Config, c: Conn, events: seq<Event>)
    requires Inv(cfg, c) && !c.crashed && c.state == CONNECTED && |events| >= |c.output|
    requires AllTake(events) && forall i | 0 <= i < |events| :: Takes(events[i]) && events[i].kernel.count >= 1
    ensures var c' := Run(cfg, c, events);
            c'.wire == c'.accepted == c.accepted && c'.output == "" && !c'.writeInterest
  {
    LedgerOf(cfg, c);
    BufferDrains(cfg, c, events);
    CapacityBound(events);
    hide Run, Capacity, AllTake, Inv;
    InterestOf(cfg, Run(cfg, c, events));
  }

  lemma {:induction false} CapacityBound(events: seq<Event>)
    requires AllTake(events) && forall i | 0 <= i < |events| :: Takes(events[i]) && events[i].kernel.count >= 1
    ensures Capacity(events) >= |events|
  {
    if events != [] {
      CapacityBound(events[..|events| - 1]);
    }
  }

  lemma InterestOf(cfg: Config, c: Conn)
    requires Inv(cfg, c) && !c.crashed && c.Alive()
    ensures c.writeInterest <==> c.output != ""
  {
  }

  // ---- the other events -----------------------------------------------------------------------

  /** The registered handler does what its parts would do as events of their own: read, write, error. */
  lemma ReadyIsThreeEvents(cfg: Config, c: Conn, e: Event)
    requires e.Ready?
    ensures Step(cfg, c, e) ==
            var c1 := Step(cfg, c, e.(write := false, error := false));
            var c2 := Step(cfg, c1, e.(read := false, error := false));
            Step(cfg, c2, e.(read := false, write := false))
  {
    hide HandleRead, HandleWrite, HandleClose;
  }

  function AsEvents(calls: seq<Call>): seq<Event> {
    if calls == [] then [] else AsEvents(calls[..|calls| - 1]) + [Called(calls[|calls| - 1])]
  }

  /** Data goes to the message callback, whose calls take effect one after the other. */
  lemma ReplyIsItsCalls(cfg: Config, c: Conn, e: Event)
    requires e.Ready? && e.read && !e.write && !e.error && e.delivery.Received? && e.delivery.bytes != "" && !c.crashed
    ensures Step(cfg, c, e) == Run(cfg, c, AsEvents(e.reply))
  {
    hide Run, DoCalls;
    CallsAreEvents(cfg, c, e.reply);
  }

  lemma {:induction false} CallsAreEvents(cfg: Config, c: Conn, calls: seq<Call>)
    ensures DoCalls(cfg, c, calls) == Run(cfg, c, AsEvents(calls))
    decreases |calls|
  {
    hide DoCall;
    if calls != [] {
      var front, last := calls[..|calls| - 1], calls[|calls| - 1];
      CallsAreEvents(cfg, c, front);
      LastCall(cfg, c, calls);
      assert AsEvents(calls)[..|AsEvents(calls)| - 1] == AsEvents(front);
      CrashedStays(cfg, DoCalls(cfg, c, front), last);
    }
  }

  lemma CrashedStays(cfg: Config, c: Conn, call: Call)
    ensures DoCall(cfg, c, call) == Step(cfg, c, Called(call))
  {
    hide SendInLoop;
  }

  lemma {:induction false} LastCall(cfg: Config, c: Conn, calls: seq<Call>)
    requires calls != []
    ensures DoCalls(cfg, c, calls) == DoCall(cfg, DoCalls(cfg, c, calls[..|calls| - 1]), calls[|calls| - 1])
    decreases |calls|
  {
    hide DoCall;
    if |calls| > 1 {
      LastCall(cfg, DoCall(cfg, c, calls[0]), calls[1..]);
      assert calls[1..][..|calls| - 2] == calls[..|calls| - 1][1..];
    }
  }

  /** What ends an open connection. */
  predicate EndsIt(e: Event) {
    match e
    case Called(call) => call == ForceClose
    case Ready(read, write, error, delivery, _, _) =>
      !write && (if error then !read else read && (delivery == ReadError || delivery == Received("")))
    case _ => false
  }

  /** End of file, a read error, an error event and force_close() all do the same to an open connection:
      it is DISCONNECTED and unknown to the poller, the close callback has been called once more, and its
      bytes stay where they were.  Tearing down a CONNECTED one does that too. */
  lemma CloseEffect(cfg: Config, c: Conn, e: Event)
    requires !c.crashed && ((EndsIt(e) && c.Alive()) || (e == Destroy && c.state == CONNECTED))
    ensures Step(cfg, c, e) == c.(state := DISCONNECTED, registered := false, writeInterest := false,
                                  closes := c.closes + if cfg.close then 1 else 0)
  {
    hide DoCalls, HandleWrite;
  }

  /** connection_established registers for reading alone; shutdown() on a CONNECTED connection moves it to
      DISCONNECTING and closes the write side at once if nothing is buffered.  Neither touches a byte. */
  lemma OpenAndShutdownEffect(cfg: Config, c: Conn)
    requires !c.crashed
    ensures c.state == CONNECTING ==>
              Step(cfg, c, Establish) == c.(state := CONNECTED, registered := true, writeInterest := false)
    ensures Step(cfg, c, Called(Shutdown)) ==
            if c.state != CONNECTED then c
            else c.(state := DISCONNECTING,
                    shuts := if c.output == "" then c.shuts + [Note(c.wire, c.accepted)] else c.shuts)
    ensures !c.Alive() ==> Step(cfg, c, Called(ForceClose)) == c
    ensures c.state != CONNECTED ==> Step(cfg, c, Destroy) == c
  {
  }
}
