/** The event loop's hand-off of functors between threads, as steps of a state machine.

    Any number of threads push functors, ask the loop to quit, and write to the eventfd; the loop thread
    polls, reads the eventfd, swaps the pending vector out and runs it.  A step is what one thread does
    between two points at which another may interfere: the mutex makes push and swap atomic, and the
    kernel does the same for reads and writes of the counter. */
module LoopSpec {
  type Thread = nat
  type Functor = nat

  const LOOP_THREAD: Thread := 0

  /** The greatest value of an eventfd counter: a write that would exceed it fails and is ignored. */
  const COUNTER_MAX: nat := 0xFFFF_FFFF_FFFF_FFFE

  /** Where the loop thread stands.  `wake` says that the eventfd is among the events it has yet to
      handle in this turn. */
  datatype Pc =
    | Outside
    | AtCheck
    | AtPoll
    | AtTimers(wake: bool)
    | AtEvents(wake: bool)
    | AtSwap
    | InBatch

  /** `waking` holds the threads between their push (or their setting of quit_) and their wake_up. */
  datatype Loop = Loop(
    pc: Pc,
    quit: bool,
    pending: seq<Functor>,
    batch: seq<Functor>,
    executed: seq<Functor>,
    enqueued: seq<Functor>,
    counter: nat,
    waking: set<Thread>)

  datatype Step =
    | Start                               // loop() is entered
    | Check                               // while (!quit_)
    | PollInterrupted                     // EINTR: around again without handling anything
    | PollFailed                          // any other error leaves the loop
    | PollReturns(wake: bool)             // by an event, the eventfd among them or not, or by timeout
    | TimersDone
    | ReadCounter                         // handle_wake_up
    | EventsDone
    | Swap                                // do_pending_functors takes the vector
    | RunFunctor
    | BatchDone
    | Push(thread: Thread, f: Functor)    // queue_in_loop, under the mutex
    | SetQuit(thread: Thread)             // quit()
    | WakeUp(thread: Thread)              // the write that follows either

  const INITIAL := Loop(Outside, false, [], [], [], [], 0, {})

  /** The loop thread runs callbacks, or is not in loop() at all: it may call into its own loop. */
  predicate MayCall(s: Loop, t: Thread) {
    t !in s.waking && (t == LOOP_THREAD ==> s.pc.Outside? || s.pc.AtTimers? || s.pc.AtEvents? || s.pc.InBatch?)
  }

  predicate Enabled(s: Loop, step: Step) {
    match step
    case Start => s.pc == Outside && LOOP_THREAD !in s.waking
    case Check => s.pc == AtCheck
    case PollInterrupted => s.pc == AtPoll
    case PollFailed => s.pc == AtPoll
    case PollReturns(wake) => s.pc == AtPoll && (wake ==> s.counter > 0)
    case TimersDone => s.pc.AtTimers? && LOOP_THREAD !in s.waking
    case ReadCounter => s.pc == AtEvents(true) && LOOP_THREAD !in s.waking
    case EventsDone => s.pc == AtEvents(false) && LOOP_THREAD !in s.waking
    case Swap => s.pc == AtSwap
    case RunFunctor => s.pc == InBatch && s.batch != [] && LOOP_THREAD !in s.waking
    case BatchDone => s.pc == InBatch && s.batch == [] && LOOP_THREAD !in s.waking
    case Push(t, _) => MayCall(s, t)
    case SetQuit(t) => MayCall(s, t)
    case WakeUp(t) => t in s.waking
  }

  function Apply(s: Loop, step: Step): Loop {
    match step
    case Start => s.(pc := AtCheck, quit := false)
    case Check => s.(pc := if s.quit then Outside else AtPoll)
    case PollInterrupted => s.(pc := AtCheck)
    case PollFailed => s.(pc := Outside)
    case PollReturns(wake) => s.(pc := AtTimers(wake))
    case TimersDone => if s.pc.AtTimers? then s.(pc := AtEvents(s.pc.wake)) else s
    case ReadCounter => s.(pc := AtEvents(false), counter := 0)
    case EventsDone => s.(pc := AtSwap)
    case Swap => s.(pc := InBatch, batch := s.pending, pending := [])
    case RunFunctor =>
      if s.batch != [] then s.(executed := s.executed + [s.batch[0]], batch := s.batch[1..]) else s
    case BatchDone => s.(pc := AtCheck)
    case Push(t, f) => s.(pending := s.pending + [f], enqueued := s.enqueued + [f], waking := s.waking + {t})
    case SetQuit(t) => s.(quit := true, waking := if t == LOOP_THREAD then s.waking else s.waking + {t})
    case WakeUp(t) =>
      s.(counter := if s.counter < COUNTER_MAX then s.counter + 1 else s.counter, waking := s.waking - {t})
  }

  function After(s: Loop, steps: seq<Step>): Loop {
    if steps == [] then s else Apply(After(s, steps[..|steps| - 1]), steps[|steps| - 1])
  }

  predicate Legal(s: Loop, steps: seq<Step>) {
    steps == [] ||
    (Legal(s, steps[..|steps| - 1]) && Enabled(After(s, steps[..|steps| - 1]), steps[|steps| - 1]))
  }

  // ---- what every step keeps ------------------------------------------------------------------

  /** The functors started, then those of the batch in hand, then those pending, are the ones ever
      enqueued, in that order. */
  predicate HandOff(s: Loop) {
    s.executed + s.batch + s.pending == s.enqueued && (s.batch != [] ==> s.pc == InBatch)
  }

  /** Work that nobody is about to pick up has a wake-up behind it. */
  predicate Announced(s: Loop) {
    && (s.pending != [] ==>
          s.counter > 0 || s.waking != {} || s.pc.AtTimers? || s.pc.AtEvents? || s.pc.AtSwap?)
    && (s.quit && s.pc == AtPoll ==> s.counter > 0 || s.waking != {})
  }

  predicate Bookkept(s: Loop) {
    && s.counter <= COUNTER_MAX
    && (s.pc == AtTimers(true) || s.pc == AtEvents(true) ==> s.counter > 0)
    && (s.pc.AtCheck? || s.pc.AtPoll? || s.pc.AtSwap? ==> LOOP_THREAD !in s.waking)
  }

  predicate Inv(s: Loop) {
    HandOff(s) && Announced(s) && Bookkept(s)
  }

  lemma StepKeepsInv(s: Loop, step: Step)
    requires Inv(s) && Enabled(s, step)
    ensures Inv(Apply(s, step))
  {
    match step
    case Swap => assert s.executed + s.pending + [] == s.enqueued;
    case RunFunctor => MoveFront(s.executed, s.batch);
    case Push(t, f) =>
      assert s.executed + s.batch + (s.pending + [f]) == s.executed + s.batch + s.pending + [f];
      assert t in Apply(s, step).waking;
    case SetQuit(t) =>
      assert t != LOOP_THREAD ==> t in Apply(s, step).waking;
    case _ =>
  }

  lemma {:induction false} RunKeepsInv(steps: seq<Step>)
    requires Legal(INITIAL, steps)
    ensures Inv(After(INITIAL, steps))
  {
    if steps != [] {
      RunKeepsInv(steps[..|steps| - 1]);
      StepKeepsInv(After(INITIAL, steps[..|steps| - 1]), steps[|steps| - 1]);
    }
  }

  // ---- no wake-up is lost ---------------------------------------------------------------------

  /** poll may block: none of the descriptors it waits for need be ready. */
  predicate MaySleep(s: Loop) {
    s.pc == AtPoll && s.counter == 0
  }

  /** In every interleaving of any number of threads, a loop that may sleep has nothing to do, or some
      other thread still owes it the write that will wake it. */
  lemma NoLostWakeUp(steps: seq<Step>)
    requires Legal(INITIAL, steps) && MaySleep(After(INITIAL, steps))
    ensures var s := After(INITIAL, steps);
            (s.pending == [] && !s.quit) || exists t :: t in s.waking && t != LOOP_THREAD && Enabled(s, WakeUp(t))
  {
    RunKeepsInv(steps);
    var s := After(INITIAL, steps);
    if s.pending != [] || s.quit {
      var t :| t in s.waking;
      assert t != LOOP_THREAD && Enabled(s, WakeUp(t));
    }
  }

  /** The write a sleeping loop is owed, by the thread `t`; none if the counter already holds one. */
  function Owed(s: Loop, t: Thread): seq<Step> {
    if s.counter == 0 then [WakeUp(t)] else []
  }

  /** From there nobody has to push or call anything more: the write owed by any thread between its push
      and its wake-up, one turn of the loop and the batch it takes run everything enqueued so far. */
  lemma PendingWorkRuns(s: Loop, t: Thread)
    requires Inv(s) && s.pc == AtPoll && (s.counter == 0 ==> t in s.waking)
    ensures s.pending != [] && s.counter == 0 ==> s.waking != {}
    ensures var steps := Owed(s, t) + TURN + seq(|s.pending|, _ => RunFunctor);
            && Legal(s, steps) && After(s, steps).executed == s.enqueued
            && After(s, steps).batch == [] && After(s, steps).pc == InBatch
            && LOOP_THREAD !in After(s, steps).waking && After(s, steps).quit == s.quit
  {
    AtPollInv(s);
    hide After, Legal, Inv;
    var r := WriteDelivered(s, t);
    r := OneTurn(s, r);
    BatchRuns(s, r);
  }

  lemma AtPollInv(s: Loop)
    requires Inv(s) && s.pc == AtPoll
    ensures s.executed + s.pending == s.enqueued && LOOP_THREAD !in s.waking
    ensures (s.pending != [] || s.quit) && s.counter == 0 ==> s.waking != {}
  {
    assert s.batch == [] && s.executed + [] + s.pending == s.executed + s.pending;
  }

  lemma WriteDelivered(s: Loop, t: Thread) returns (steps: seq<Step>)
    requires s.counter == 0 ==> t in s.waking
    ensures steps == Owed(s, t) && Legal(s, steps) && After(s, steps).counter > 0
    ensures After(s, steps) == s.(counter := After(s, steps).counter, waking := After(s, steps).waking)
    ensures After(s, steps).waking <= s.waking
  {
    hide After, Legal;
    steps := Nothing(s);
    if s.counter == 0 {
      steps := Extend(s, steps, WakeUp(t));
    }
    assert steps == Owed(s, t);
  }

  /** And a quit in effect takes the loop out: after that turn and batch, back to the check and outside. */
  lemma QuitLeaves(s: Loop, t: Thread)
    requires Inv(s) && s.pc == AtPoll && s.quit && (s.counter == 0 ==> t in s.waking)
    ensures s.counter == 0 ==> s.waking != {}
    ensures var steps := Owed(s, t) + TURN + seq(|s.pending|, _ => RunFunctor) + [BatchDone] + [Check];
            Legal(s, steps) && After(s, steps).pc == Outside
  {
    AtPollInv(s);
    PendingWorkRuns(s, t);
    hide After, Legal, Inv;
    var r := Owed(s, t) + TURN + seq(|s.pending|, _ => RunFunctor);
    r := Extend(s, r, BatchDone);
    r := Extend(s, r, Check);
  }

  const TURN: seq<Step> := [PollReturns(true), TimersDone, ReadCounter, EventsDone, Swap]

  /** One turn of the loop thread, from a poll woken by the eventfd to the swapped-out batch. */
  lemma OneTurn(s: Loop, steps: seq<Step>) returns (more: seq<Step>)
    requires Legal(s, steps)
    requires var m := After(s, steps); m.pc == AtPoll && m.counter > 0 && LOOP_THREAD !in m.waking
    ensures more == steps + TURN && Legal(s, more)
    ensures var m := After(s, steps);
            After(s, more) == m.(pc := InBatch, counter := 0, batch := m.pending, pending := [])
  {
    hide After, Legal;
    var m := After(s, steps);
    more := Extend(s, steps, PollReturns(true));
    more := Extend(s, more, TimersDone);
    assert After(s, more) == m.(pc := AtEvents(true));
    more := Extend(s, more, ReadCounter);
    more := Extend(s, more, EventsDone);
    assert After(s, more) == m.(pc := AtSwap, counter := 0);
    more := Extend(s, more, Swap);
    assert more == steps + TURN;
  }

  lemma {:induction false} BatchRuns(s: Loop, steps: seq<Step>)
    requires Legal(s, steps) && After(s, steps).pc == InBatch && LOOP_THREAD !in After(s, steps).waking
    ensures var m := After(s, steps);
            var all := steps + seq(|m.batch|, _ => RunFunctor);
            && Legal(s, all)
            && After(s, all) == m.(executed := m.executed + m.batch, batch := [])
    decreases |After(s, steps).batch|
  {
    hide After, Legal;
    var m := After(s, steps);
    if m.batch == [] {
      assert steps + seq(0, _ => RunFunctor) == steps && m.executed + [] == m.executed;
    } else {
      var _ := Extend(s, steps, RunFunctor);
      BatchRuns(s, steps + [RunFunctor]);
      assert steps + [RunFunctor] + seq(|m.batch| - 1, _ => RunFunctor) == steps + seq(|m.batch|, _ => RunFunctor);
      MoveFront(m.executed, m.batch);
    }
  }

  /** handle_wake_up never reads an empty counter. */
  lemma ReadNeverFails(steps: seq<Step>)
    requires Legal(INITIAL, steps) && Enabled(After(INITIAL, steps), ReadCounter)
    ensures After(INITIAL, steps).counter > 0
  {
    RunKeepsInv(steps);
  }

  // ---- hand-off is exactly once and in order --------------------------------------------------

  /** In every interleaving the functors run are a prefix of those enqueued, none twice and none out of
      turn, and the rest are waiting: in the batch, then in the pending vector. */
  lemma FunctorsRunInOrder(steps: seq<Step>)
    requires Legal(INITIAL, steps)
    ensures var s := After(INITIAL, steps);
            && s.executed <= s.enqueued
            && s.enqueued[|s.executed|..] == s.batch + s.pending
  {
    RunKeepsInv(steps);
    hide After, Legal;
    var s := After(INITIAL, steps);
    FirstPart(s.executed, s.batch, s.pending);
  }

  lemma FirstPart(a: seq<Functor>, b: seq<Functor>, c: seq<Functor>)
    ensures a <= a + b + c && (a + b + c)[|a|..] == b + c
  {
  }

  /** Starting the front functor of a batch leaves executed-then-batch as it was. */
  lemma MoveFront(done: seq<Functor>, batch: seq<Functor>)
    requires batch != []
    ensures (done + [batch[0]]) + batch[1..] == done + batch
  {
  }

  predicate StaysInBatch(s: Loop, steps: seq<Step>) {
    s.pc == InBatch && (steps == [] || (StaysInBatch(s, steps[..|steps| - 1]) && After(s, steps).pc == InBatch))
  }

  function CountRuns(steps: seq<Step>): nat {
    if steps == [] then 0
    else CountRuns(steps[..|steps| - 1]) + if steps[|steps| - 1] == RunFunctor then 1 else 0
  }

  /** Whatever is pushed while a batch runs, by its own functors or by other threads, goes to the next
      one: the batch in hand only shrinks, one functor a run, so it ends. */
  lemma {:induction false} BatchIsFixed(s: Loop, steps: seq<Step>)
    requires Legal(s, steps) && StaysInBatch(s, steps)
    ensures var s' := After(s, steps);
            && s'.executed + s'.batch == s.executed + s.batch
            && s.pending <= s'.pending
            && |s'.batch| + CountRuns(steps) == |s.batch|
  {
    if steps != [] {
      var front := steps[..|steps| - 1];
      BatchIsFixed(s, front);
      var m := After(s, front);
      if steps[|steps| - 1] == RunFunctor {
        MoveFront(m.executed, m.batch);
      }
    }
  }

  function PushedBy(step: Step): seq<Functor> {
    match step
    case Push(_, f) => [f]
    case _ => []
  }

  /** The functors of the pushes, by whatever thread. */
  function Pushed(steps: seq<Step>): seq<Functor> {
    if steps == [] then [] else Pushed(steps[..|steps| - 1]) + PushedBy(steps[|steps| - 1])
  }

  /** What was enqueued is what was pushed, by all threads, in the order of the critical sections; and as
      many functors have been started as the loop thread took run steps. */
  lemma {:induction false} PushesAreEnqueued(steps: seq<Step>)
    requires Legal(INITIAL, steps)
    ensures After(INITIAL, steps).enqueued == Pushed(steps)
    ensures |After(INITIAL, steps).executed| == CountRuns(steps)
  {
    hide Apply, Enabled, PushedBy;
    if steps != [] {
      PushesAreEnqueued(steps[..|steps| - 1]);
      StepPushes(After(INITIAL, steps[..|steps| - 1]), steps[|steps| - 1]);
    }
  }

  lemma StepPushes(s: Loop, step: Step)
    requires Enabled(s, step)
    ensures Apply(s, step).enqueued == s.enqueued + PushedBy(step)
    ensures |Apply(s, step).executed| == |s.executed| + if step == RunFunctor then 1 else 0
  {
    assert s.enqueued + [] == s.enqueued;
  }

  // ---- quitting -------------------------------------------------------------------------------

  /** A quit() has been called since loop() was last entered. */
  predicate QuitSinceStart(steps: seq<Step>) {
    steps != [] &&
    (steps[|steps| - 1].SetQuit? || (!steps[|steps| - 1].Start? && QuitSinceStart(steps[..|steps| - 1])))
  }

  /** A quit() is in effect exactly when no entry into loop() followed it. */
  lemma {:induction false} QuitInEffectIff(steps: seq<Step>)
    requires Legal(INITIAL, steps)
    ensures After(INITIAL, steps).quit <==> QuitSinceStart(steps)
  {
    if steps != [] {
      QuitInEffectIff(steps[..|steps| - 1]);
    }
  }

  /** A quit() that another thread completes before loop() is entered is lost: here the loop may sleep
      for ever, with the call returned, its wake-up consumed and no thread owing another. */
  lemma EarlyQuitIsLost()
    ensures exists steps: seq<Step> :: Legal(INITIAL, steps) && SetQuit(1) in steps &&
                            MaySleep(After(INITIAL, steps)) && After(INITIAL, steps).waking == {}
  {
    var early := QuitBeforeLoop();
    hide After, Legal, Enabled, Apply;
    var r := OneTurn(INITIAL, early);
    TurnThenSleep(r);
    assert r[0] == SetQuit(1);
  }

  lemma QuitBeforeLoop() returns (steps: seq<Step>)
    ensures steps != [] && steps[0] == SetQuit(1) && Legal(INITIAL, steps)
    ensures After(INITIAL, steps) == INITIAL.(pc := AtPoll, counter := 1)
  {
    hide After, Legal;
    steps := Nothing(INITIAL);
    steps := Extend(INITIAL, steps, SetQuit(1));
    steps := Extend(INITIAL, steps, WakeUp(1));
    steps := Extend(INITIAL, steps, Start);
    steps := Extend(INITIAL, steps, Check);
  }

  lemma TurnThenSleep(steps: seq<Step>)
    requires steps != [] && Legal(INITIAL, steps) && After(INITIAL, steps) == INITIAL.(pc := InBatch)
    ensures exists more: seq<Step> :: Legal(INITIAL, more) && steps[0] in more &&
                            MaySleep(After(INITIAL, more)) && After(INITIAL, more).waking == {}
  {
    hide After, Legal;
    var more := Extend(INITIAL, steps, BatchDone);
    more := Extend(INITIAL, more, Check);
    assert more[0] == steps[0];
  }

  lemma Nothing(s: Loop) returns (steps: seq<Step>)
    ensures steps == [] && Legal(s, steps) && After(s, steps) == s
  {
    steps := [];
  }

  lemma Extend(s: Loop, steps: seq<Step>, step: Step) returns (more: seq<Step>)
    requires Legal(s, steps) && Enabled(After(s, steps), step)
    ensures more == steps + [step] && Legal(s, more) && After(s, more) == Apply(After(s, steps), step)
  {
    more := steps + [step];
    assert more[..|steps|] == steps;
  }
}
