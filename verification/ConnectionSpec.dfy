/** One TCP connection on its loop thread: its states, its output bytes, and the ways it can die.

    The socket, the poller and the application are the environment: each call carries the kernel's
    answer, and each delivery of data the calls the message callback makes in reply. */
module ConnectionSpec {
  datatype State = CONNECTING | CONNECTED | DISCONNECTING | DISCONNECTED

  datatype Errno = WouldBlock | BrokenPipe | ConnectionReset | OtherErrno

  /** What write() answered; a count beyond what was offered stands for all of it. */
  datatype Written = Sent(count: nat) | NotSent(errno: Errno)

  /** What the read delivered; Received("") is end of file. */
  datatype Delivery = Received(bytes: string) | ReadError

  /** What a callback on the loop thread may ask of its connection. */
  datatype Call = Send(data: string, kernel: Written) | Shutdown | ForceClose

  /** One thing that happens on the loop thread. */
  datatype Event =
    | Called(call: Call)
    | QueuedSend(data: string, kernel: Written)   // the functor another thread's send() left behind
    | Establish
    | Destroy
    | Ready(read: bool, write: bool, error: bool, delivery: Delivery, reply: seq<Call>, kernel: Written)

  /** Which callbacks are set, and the high-water mark. */
  datatype Config = Config(writeComplete: bool, close: bool, highWater: bool, mark: nat)

  /** What had been written, and what accepted, at one moment. */
  datatype Note = Note(wire: string, accepted: string)

  /** `wire` is what the kernel took, `accepted` every message taken over from the application, and
      `crashed` the end by a failed assertion or by an exception of the poller. */
  datatype Conn = Conn(
    state: State,
    registered: bool,
    writeInterest: bool,
    output: string,
    wire: string,
    accepted: string,
    completes: seq<Note>,
    shuts: seq<Note>,
    alarms: seq<nat>,
    closes: nat,
    crashed: bool)
  {
    function Moment(): Note {
      Note(wire, accepted)
    }

    predicate Alive() {
      state == CONNECTED || state == DISCONNECTING
    }
  }

  const NEW_CONNECTION := Conn(CONNECTING, false, false, "", "", "", [], [], [], 0, false)

  function Clamp(n: nat, limit: nat): nat {
    if n <= limit then n else limit
  }

  // ---- sending --------------------------------------------------------------------------------

  function QueueComplete(cfg: Config, c: Conn): Conn {
    if cfg.writeComplete then c.(completes := c.completes + [c.Moment()]) else c
  }

  /** Whether the high-water callback is queued when `more` bytes join `before` buffered ones. */
  predicate Crosses(cfg: Config, before: nat, more: nat) {
    cfg.highWater && before < cfg.mark <= before + more
  }

  /** The tail of send_in_loop: buffer what the kernel did not take, and ask for writability. */
  function BufferRest(cfg: Config, c: Conn, rest: string): Conn {
    if rest == "" then c
    else
      var before := |c.output|;
      var c1 := c.(output := c.output + rest,
                   alarms := if Crosses(cfg, before, |rest|) then c.alarms + [before + |rest|] else c.alarms);
      if c.registered then c1.(writeInterest := true) else c1.(crashed := true)
  }

  function SendInLoop(cfg: Config, c: Conn, data: string, kernel: Written): Conn {
    if c.crashed then c
    else if c.state == CONNECTED && c.output == "" then
      (match kernel
       case Sent(k) =>
         var n := Clamp(k, |data|);
         var c1 := c.(wire := c.wire + data[..n], accepted := c.accepted + data);
         BufferRest(cfg, if n == |data| then QueueComplete(cfg, c1) else c1, data[n..])
       case NotSent(e) =>
         if e == BrokenPipe || e == ConnectionReset then c
         else BufferRest(cfg, c.(accepted := c.accepted + data), data))
    else
      BufferRest(cfg, c.(accepted := c.accepted + data), data)
  }

  // ---- closing --------------------------------------------------------------------------------

  function ShutdownInLoop(c: Conn): Conn {
    if c.output == "" then c.(shuts := c.shuts + [c.Moment()]) else c
  }

  function DoShutdown(c: Conn): Conn {
    if c.state == CONNECTED then ShutdownInLoop(c.(state := DISCONNECTING)) else c
  }

  function Unregister(cfg: Config, c: Conn): Conn {
    c.(state := DISCONNECTED, registered := false, writeInterest := false,
       closes := if cfg.close then c.closes + 1 else c.closes)
  }

  /** handle_close asserts that the connection is still alive. */
  function HandleClose(cfg: Config, c: Conn): Conn {
    if c.Alive() then Unregister(cfg, c) else c.(crashed := true)
  }

  function DoForceClose(cfg: Config, c: Conn): Conn {
    if c.Alive() then HandleClose(cfg, c.(state := DISCONNECTING)) else c
  }

  function DoCall(cfg: Config, c: Conn, call: Call): Conn {
    if c.crashed then c
    else
      match call
      case Send(data, kernel) => if c.state == CONNECTED then SendInLoop(cfg, c, data, kernel) else c
      case Shutdown => DoShutdown(c)
      case ForceClose => DoForceClose(cfg, c)
  }

  function DoCalls(cfg: Config, c: Conn, calls: seq<Call>): Conn
    decreases |calls|
  {
    if calls == [] then c else DoCalls(cfg, DoCall(cfg, c, calls[0]), calls[1..])
  }

  // ---- events ---------------------------------------------------------------------------------

  /** end of file and a read error both close the connection; data goes to the message callback. */
  function HandleRead(cfg: Config, c: Conn, delivery: Delivery, reply: seq<Call>): Conn {
    if delivery.Received? && delivery.bytes != "" then DoCalls(cfg, c, reply) else HandleClose(cfg, c)
  }

  /** Only a CONNECTED connection drains its buffer. */
  function HandleWrite(cfg: Config, c: Conn, kernel: Written): Conn {
    if c.state != CONNECTED || kernel.NotSent? then c
    else
      var n := Clamp(kernel.count, |c.output|);
      if n == 0 then c
      else
        var c1 := c.(wire := c.wire + c.output[..n], output := c.output[n..]);
        if c1.output != "" then c1
        else
          var c2 := QueueComplete(cfg, c1.(writeInterest := false));
          if c2.state == DISCONNECTING then ShutdownInLoop(c2) else c2
  }

  /** The handler registered with the poller: read, then write, then error. */
  function HandleReady(cfg: Config, c: Conn, e: Event): Conn
    requires e.Ready?
  {
    var c1 := if e.read then HandleRead(cfg, c, e.delivery, e.reply) else c;
    var c2 := if e.write && !c1.crashed then HandleWrite(cfg, c1, e.kernel) else c1;
    if e.error && !c2.crashed then HandleClose(cfg, c2) else c2
  }

  function Step(cfg: Config, c: Conn, e: Event): Conn {
    if c.crashed then c
    else
      match e
      case Called(call) => DoCall(cfg, c, call)
      case QueuedSend(data, kernel) => SendInLoop(cfg, c, data, kernel)
      case Establish =>
        if c.state == CONNECTING then c.(state := CONNECTED, registered := true, writeInterest := false)
        else c.(crashed := true)
      case Destroy => if c.state == CONNECTED then Unregister(cfg, c) else c
      case Ready(_, _, _, _, _, _) => HandleReady(cfg, c, e)
  }

  function Run(cfg: Config, c: Conn, events: seq<Event>): Conn {
    if events == [] then c
    else Step(cfg, Run(cfg, c, events[..|events| - 1]), events[|events| - 1])
  }

  // ---- the invariant --------------------------------------------------------------------------

  /** The ledger: written bytes followed by buffered ones are the accepted messages, in order. */
  predicate Ledger(c: Conn) {
    c.wire + c.output == c.accepted
  }

  predicate Handled(cfg: Config, c: Conn) {
    && (c.registered <==> c.Alive())
    && (c.registered && !c.crashed ==> (c.writeInterest <==> c.output != ""))
    && c.closes == (if cfg.close && c.state == DISCONNECTED then 1 else 0)
    && (c.state == CONNECTING && !c.crashed ==> c.output == "")
  }

  predicate Noted(c: Conn) {
    && (forall i | 0 <= i < |c.completes| :: c.completes[i].wire == c.completes[i].accepted)
    && |c.shuts| <= 1
    && (forall i | 0 <= i < |c.shuts| :: c.shuts[i].wire == c.shuts[i].accepted == c.wire)
    && (c.shuts != [] ==> c.state == DISCONNECTING || c.state == DISCONNECTED)
  }

  predicate Inv(cfg: Config, c: Conn) {
    Ledger(c) && Handled(cfg, c) && Noted(c)
  }

  function Rank(s: State): nat {
    match s
    case CONNECTING => 0
    case CONNECTED => 1
    case DISCONNECTING => 2
    case DISCONNECTED => 3
  }

  /** States only move forward; bytes on the wire stay, and once the connection has left CONNECTED no
      byte joins them and no SHUT_WR is issued any more. */
  predicate Forward(c: Conn, c': Conn) {
    && Rank(c.state) <= Rank(c'.state)
    && c.wire <= c'.wire && c.accepted <= c'.accepted
    && (Rank(c.state) >= Rank(DISCONNECTING) ==> c'.wire == c.wire && c'.shuts == c.shuts)
    && (c.crashed ==> c' == c)
  }
}
