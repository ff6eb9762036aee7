/** The event loop object, as its own thread runs it.

    `loop()` is a real loop here: over the results of poll, which the environment supplies, and inside it
    the one over the swapped-out vector, whose functors call back into the loop.  Each method is proved to
    be a legal run of the machine in `LoopSpec`, whose theorems therefore hold of it. */
module EventLoops {
  import opened LoopSpec

  /** What a functor may ask of its loop. */
  datatype Call = Enqueue(f: Functor) | AskQuit

  type Script = Functor -> seq<Call>

  /** The outcomes of poll; `Ready` is any return without error, by events or by timeout. */
  datatype Poll = Interrupted | Failed | Ready

  function Enqueued(calls: seq<Call>): seq<Functor> {
    if calls == [] then []
    else Enqueued(calls[..|calls| - 1]) + match calls[|calls| - 1] case Enqueue(f) => [f] case AskQuit => []
  }

  /** What the functors of a batch enqueue, one after the other. */
  function AllEnqueued(script: Script, batch: seq<Functor>): seq<Functor> {
    if batch == [] then [] else AllEnqueued(script, batch[..|batch| - 1]) + Enqueued(script(batch[|batch| - 1]))
  }

  /** The functors named by the calls, one for each, in the order of the calls. */
  lemma {:induction false} EnqueuedInOrder(call: Call, rest: seq<Call>)
    ensures Enqueued([]) == []
    ensures Enqueued([call] + rest) == (if call.Enqueue? then [call.f] else []) + Enqueued(rest)
  {
    var calls := [call] + rest;
    if rest == [] {
      assert calls == [call] && calls[..0] == [];
    } else {
      EnqueuedInOrder(call, rest[..|rest| - 1]);
      assert calls[..|calls| - 1] == [call] + rest[..|rest| - 1];
    }
  }

  lemma {:induction false} AllEnqueuedInOrder(script: Script, f: Functor, rest: seq<Functor>)
    ensures AllEnqueued(script, []) == []
    ensures AllEnqueued(script, [f] + rest) == Enqueued(script(f)) + AllEnqueued(script, rest)
  {
    hide Enqueued;
    var batch := [f] + rest;
    if rest == [] {
      assert batch == [f] && batch[..0] == [];
    } else {
      AllEnqueuedInOrder(script, f, rest[..|rest| - 1]);
      assert batch[..|batch| - 1] == [f] + rest[..|rest| - 1];
    }
  }

  /** Some functor of the batch asks its loop to quit. */
  predicate AsksToQuit(script: Script, batch: seq<Functor>) {
    exists f | f in batch :: AskQuit in script(f)
  }

  /** That many units written to an empty eventfd. */
  function Units(writes: nat): nat {
    if writes <= COUNTER_MAX then writes else COUNTER_MAX
  }

  /** What is pending after `n` turns of the loop: each runs all that was, and keeps what those enqueue. */
  function PendingAfter(script: Script, pending: seq<Functor>, n: nat): seq<Functor> {
    if n == 0 then pending else AllEnqueued(script, PendingAfter(script, pending, n - 1))
  }

  /** What those turns run, in order. */
  function RunIn(script: Script, pending: seq<Functor>, n: nat): seq<Functor> {
    if n == 0 then [] else RunIn(script, pending, n - 1) + PendingAfter(script, pending, n - 1)
  }

  /** The turns taken: the polls that returned without error. */
  function Turns(polls: seq<Poll>): nat {
    if polls == [] then 0 else Turns(polls[..|polls| - 1]) + if polls[|polls| - 1] == Ready then 1 else 0
  }

  lemma UnitsAdd(counter: nat, a: nat, b: nat)
    requires counter <= COUNTER_MAX
    ensures Units(Units(counter + a) + b) == Units(counter + (a + b)) <= COUNTER_MAX && Units(counter) == counter
  {
  }

  lemma OneMoreCall(calls: seq<Call>, i: nat)
    requires i < |calls|
    ensures Enqueued(calls[..i + 1]) ==
            Enqueued(calls[..i]) + match calls[i] case Enqueue(f) => [f] case AskQuit => []
    ensures AskQuit in calls[..i + 1] <==> AskQuit in calls[..i] || calls[i] == AskQuit
  {
    assert calls[..i + 1] == calls[..i] + [calls[i]] && calls[..i + 1][..i] == calls[..i];
  }

  lemma OneMoreFunctor(script: Script, batch: seq<Functor>, i: nat)
    requires i < |batch|
    ensures AllEnqueued(script, batch[..i + 1]) == AllEnqueued(script, batch[..i]) + Enqueued(script(batch[i]))
    ensures AsksToQuit(script, batch[..i + 1]) <==>
              AsksToQuit(script, batch[..i]) || AskQuit in script(batch[i])
  {
    var front, more := batch[..i], batch[..i + 1];
    assert more[i] == batch[i] && more[..i] == front;
    assert forall f :: f in more <==> f in front || f == batch[i];
  }

  /** From `s0` to `s1` the loop has taken `n` turns, of which only the last could be asked to be the last. */
  predicate Ran(script: Script, s0: Loop, s1: Loop, n: nat) {
    && s1.executed == s0.executed + RunIn(script, s0.pending, n)
    && s1.pending == PendingAfter(script, s0.pending, n)
    && s1.counter == (if n == 0 then s0.counter else Units(|s1.pending|))
    && (s1.quit <==> AsksToQuit(script, RunIn(script, s0.pending, n)))
    && (n > 0 ==> !AsksToQuit(script, RunIn(script, s0.pending, n - 1)))
  }

  lemma RanStill(script: Script, s0: Loop, s1: Loop, s2: Loop, n: nat)
    requires Ran(script, s0, s1, n) && s2 == s1.(pc := s2.pc)
    ensures Ran(script, s0, s2, n)
  {
  }

  lemma NoTurnYet(script: Script, s0: Loop, s1: Loop)
    requires s1.executed == s0.executed && s1.pending == s0.pending && s1.counter == s0.counter && !s1.quit
    ensures Ran(script, s0, s1, 0)
  {
    var none: seq<Functor> := [];
    assert s0.executed + none == s0.executed;
  }

  lemma OneMoreTurn(script: Script, s0: Loop, s1: Loop, s2: Loop, n: nat)
    requires Ran(script, s0, s1, n) && !s1.quit
    requires s2.executed == s1.executed + s1.pending && s2.pending == AllEnqueued(script, s1.pending)
    requires s2.counter == Units(|s2.pending|) && (s2.quit <==> AsksToQuit(script, s1.pending))
    ensures Ran(script, s0, s2, n + 1)
  {
    hide AllEnqueued, Units;
    var ran := RunIn(script, s0.pending, n);
    assert s0.executed + ran + s1.pending == s0.executed + (ran + s1.pending);
    assert forall f :: f in ran + s1.pending <==> f in ran || f in s1.pending;
  }

  /** The polls a run of the machine went through, in order. */
  function Outcomes(steps: seq<Step>): seq<Poll> {
    if steps == [] then []
    else
      var last := steps[|steps| - 1];
      Outcomes(steps[..|steps| - 1]) +
      (if last.PollInterrupted? then [Interrupted] else if last.PollFailed? then [Failed]
       else if last.PollReturns? then [Ready] else [])
  }

  lemma NothingYet()
    ensures Outcomes([]) == []
  {
  }

  lemma Add(s: Loop, steps: seq<Step>, step: Step) returns (more: seq<Step>)
    requires Legal(s, steps) && Enabled(After(s, steps), step)
    ensures more == steps + [step] && Legal(s, more) && After(s, more) == Apply(After(s, steps), step)
    ensures step.PollInterrupted? ==> Outcomes(more) == Outcomes(steps) + [Interrupted]
    ensures step.PollFailed? ==> Outcomes(more) == Outcomes(steps) + [Failed]
    ensures step.PollReturns? ==> Outcomes(more) == Outcomes(steps) + [Ready]
    ensures !step.PollInterrupted? && !step.PollFailed? && !step.PollReturns? ==> Outcomes(more) == Outcomes(steps)
  {
    hide After, Legal;
    more := Extend(s, steps, step);
    assert more[..|steps|] == steps;
  }

  class EventLoop {
    var pending: seq<Functor>
    var quit: bool
    var looping: bool
    var counter: nat
    ghost var pc: Pc
    ghost var batch: seq<Functor>
    ghost var executed: seq<Functor>
    ghost var enqueued: seq<Functor>

    /** No other thread interferes: none owes a wake-up. */
    ghost function State(): Loop
      reads this
    {
      Loop(pc, quit, pending, batch, executed, enqueued, counter, {})
    }

    ghost predicate Valid()
      reads this
    {
      Inv(State()) && (looping <==> pc != Outside)
    }

    constructor ()
      ensures Valid() && State() == INITIAL
    {
      pending, quit, looping, counter := [], false, false, 0;
      pc, batch, executed, enqueued := Outside, [], [], [];
    }

    method WakeUp()
      modifies this`counter
      ensures counter == if old(counter) < 0xFFFF_FFFF_FFFF_FFFE then old(counter) + 1 else old(counter)
    {
      if counter < COUNTER_MAX {
        counter := counter + 1;
      }
    }

    /** The state is the one these steps lead to from `s`. */
    ghost predicate Reached(s: Loop, steps: seq<Step>)
      reads this
    {
      Valid() && Legal(s, steps) && State() == After(s, steps)
    }

    method QueueInLoop(f: Functor, ghost s: Loop, ghost before: seq<Step>) returns (ghost steps: seq<Step>)
      requires Reached(s, before) && MayCall(State(), LOOP_THREAD)
      modifies this`pending, this`enqueued, this`counter
      ensures Reached(s, steps) && steps == before + [Push(LOOP_THREAD, f)] + [Step.WakeUp(LOOP_THREAD)]
      ensures pending == old(pending) + [f] && Outcomes(steps) == Outcomes(before)
      ensures counter > 0 && counter == Units(old(counter) + 1)
    {
      hide After, Legal, Inv, Outcomes, Apply, Enabled;
      ghost var was := State();
      PushAndWake(was, f);
      steps := Add(s, before, Push(LOOP_THREAD, f));
      steps := Add(s, steps, Step.WakeUp(LOOP_THREAD));
      pending := pending + [f];
      enqueued := enqueued + [f];
      WakeUp();
    }

    /** On the loop thread: no wake-up is needed. */
    method Quit(ghost s: Loop, ghost before: seq<Step>) returns (ghost steps: seq<Step>)
      requires Reached(s, before) && MayCall(State(), LOOP_THREAD)
      modifies this`quit
      ensures Reached(s, steps) && quit && Outcomes(steps) == Outcomes(before)
    {
      hide After, Legal, Outcomes;
      StepKeepsInv(State(), SetQuit(LOOP_THREAD));
      steps := Add(s, before, SetQuit(LOOP_THREAD));
      quit := true;
    }

    method HandleWakeUp(ghost s: Loop, ghost before: seq<Step>) returns (ghost steps: seq<Step>)
      requires Reached(s, before) && pc == AtEvents(true)
      modifies this`counter, this`pc
      ensures Reached(s, steps) && counter == 0 && pc == AtEvents(false) && Outcomes(steps) == Outcomes(before)
    {
      hide After, Legal, Outcomes;
      StepKeepsInv(State(), ReadCounter);
      steps := Add(s, before, ReadCounter);
      counter := 0;
      pc := AtEvents(false);
    }

    /** A functor runs: it makes its calls. */
    method RunFunctor(calls: seq<Call>, ghost s: Loop, ghost before: seq<Step>) returns (ghost steps: seq<Step>)
      requires Reached(s, before) && pc == InBatch && batch != []
      modifies this`pending, this`enqueued, this`counter, this`quit, this`batch, this`executed
      ensures Reached(s, steps) && batch == old(batch)[1..] && executed == old(executed) + [old(batch)[0]]
      ensures pending == old(pending) + Enqueued(calls) && (quit <==> old(quit) || AskQuit in calls)
      ensures counter == Units(old(counter) + |Enqueued(calls)|) && Outcomes(steps) == Outcomes(before)
    {
      hide After, Legal, Inv, Outcomes, Enqueued, Units;
      CounterFits(State());
      UnitsAdd(counter, 0, 0);
      StepKeepsInv(State(), Step.RunFunctor);
      steps := Add(s, before, Step.RunFunctor);
      executed := executed + [batch[0]];
      batch := batch[1..];
      NoCalls(calls);
      for i := 0 to |calls|
        invariant Reached(s, steps) && pc == InBatch && Outcomes(steps) == Outcomes(before)
        invariant batch == old(batch)[1..] && executed == old(executed) + [old(batch)[0]]
        invariant pending == old(pending) + Enqueued(calls[..i]) && (quit <==> old(quit) || AskQuit in calls[..i])
        invariant counter == Units(old(counter) + |Enqueued(calls[..i])|)
      {
        OneMoreCall(calls, i);
        UnitsAdd(old(counter), |Enqueued(calls[..i])|, 1);
        match calls[i] {
          case Enqueue(f) => steps := QueueInLoop(f, s, steps);
          case AskQuit => steps := Quit(s, steps);
        }
      }
      assert calls[..|calls|] == calls;
    }

    lemma CounterReached(s: Loop, steps: seq<Step>)
      requires Reached(s, steps)
      ensures counter <= COUNTER_MAX
    {
    }

    /** The loop over the vector swapped out. */
    method RunBatch(functors: seq<Functor>, script: Script, ghost s: Loop, ghost before: seq<Step>)
      returns (ghost steps: seq<Step>)
      requires Reached(s, before) && pc == InBatch && batch == functors && pending == []
      modifies this`pending, this`enqueued, this`counter, this`quit, this`batch, this`executed
      ensures Reached(s, steps) && batch == [] && Outcomes(steps) == Outcomes(before)
      ensures executed == old(executed) + functors && pending == AllEnqueued(script, functors)
      ensures counter == Units(old(counter) + |pending|) && (quit <==> old(quit) || AsksToQuit(script, functors))
    {
      hide *;
      CounterReached(s, before);
      UnitsAdd(counter, 0, 0);
      steps := before;
      NoFunctors(script, functors);
      assert executed + functors[..0] == executed;
      for i := 0 to |functors|
        invariant Reached(s, steps) && pc == InBatch && batch == functors[i..] && Outcomes(steps) == Outcomes(before)
        invariant executed == old(executed) + functors[..i] && pending == AllEnqueued(script, functors[..i])
        invariant counter == Units(old(counter) + |pending|)
        invariant quit <==> old(quit) || AsksToQuit(script, functors[..i])
      {
        OneMoreFunctor(script, functors, i);
        UnitsAdd(old(counter), |pending|, |Enqueued(script(functors[i]))|);
        assert executed + [functors[i]] == old(executed) + functors[..i + 1];
        steps := RunFunctor(script(functors[i]), s, steps);
      }
      assert functors[..|functors|] == functors;
    }

    /** The vector is swapped out and run; what its functors enqueue waits for the next turn. */
    method DoPendingFunctors(script: Script, ghost s: Loop, ghost before: seq<Step>) returns (ghost steps: seq<Step>)
      requires Reached(s, before) && pc == AtSwap
      modifies this`pending, this`enqueued, this`counter, this`quit, this`batch, this`executed, this`pc
      ensures Reached(s, steps) && pc == AtCheck && Outcomes(steps) == Outcomes(before)
      ensures executed == old(executed) + old(pending) && pending == AllEnqueued(script, old(pending))
      ensures counter == Units(old(counter) + |pending|) && (quit <==> old(quit) || AsksToQuit(script, old(pending)))
    {
      hide After, Legal, Inv, AllEnqueued, Outcomes, AsksToQuit;
      StepKeepsInv(State(), Swap);
      steps := Add(s, before, Swap);
      var functors := pending;
      pending, batch, pc := [], pending, InBatch;
      steps := RunBatch(functors, script, s, steps);
      StepKeepsInv(State(), BatchDone);
      steps := Add(s, steps, BatchDone);
      pc := AtCheck;
    }

    /** while (!quit_) */
    method CheckQuit(ghost s: Loop, ghost before: seq<Step>) returns (ghost steps: seq<Step>)
      requires Reached(s, before) && pc == AtCheck
      modifies this`pc, this`looping
      ensures Reached(s, steps) && Outcomes(steps) == Outcomes(before)
      ensures pc == if quit then Outside else AtPoll
    {
      hide After, Legal, Inv, Outcomes;
      StepKeepsInv(State(), Check);
      steps := Add(s, before, Check);
      looping, pc := !quit, if quit then Outside else AtPoll;
    }

    /** poll returned an error: EINTR goes around again, any other leaves the loop. */
    method PollFails(interrupted: bool, ghost s: Loop, ghost before: seq<Step>) returns (ghost steps: seq<Step>)
      requires Reached(s, before) && pc == AtPoll
      modifies this`pc, this`looping
      ensures Reached(s, steps) && pc == if interrupted then AtCheck else Outside
      ensures Outcomes(steps) == Outcomes(before) + [if interrupted then Interrupted else Failed]
    {
      hide After, Legal, Inv, Outcomes;
      ghost var step := if interrupted then PollInterrupted else PollFailed;
      StepKeepsInv(State(), step);
      steps := Add(s, before, step);
      looping, pc := interrupted, if interrupted then AtCheck else Outside;
    }

    /** loop(): until quit, a failed poll, or the end of the polls the environment supplies. */
    method Run(polls: seq<Poll>, script: Script) returns (ghost steps: seq<Step>, done: bool)
      requires Valid() && !looping
      modifies this
      ensures Reached(old(State()), steps)
      ensures Outcomes(steps) <= polls && forall i | 0 <= i < |Outcomes(steps)| - 1 :: polls[i] != Failed
      ensures Ran(script, old(State()), State(), Turns(Outcomes(steps)))
      ensures done ==> !looping && (quit || Failed in Outcomes(steps))
      ensures !done ==> looping && pc == AtCheck && !quit && Outcomes(steps) == polls && Failed !in polls
    {
      ghost var s := State();
      hide After, Legal, Outcomes, Inv, Ran, AllEnqueued, AsksToQuit, Enqueued, Units;
      steps := Nothing(s);
      NothingYet();
      StepKeepsInv(s, Start);
      steps := Add(s, steps, Start);
      looping, quit, pc := true, false, AtCheck;
      var i := 0;
      ghost var n: nat := 0;
      NoTurnYet(script, s, State());
      while !quit && i < |polls|
        invariant i <= |polls| && Reached(s, steps) && pc == AtCheck && looping
        invariant Outcomes(steps) == polls[..i] && Failed !in polls[..i] && n == Turns(polls[..i])
        invariant Ran(script, s, State(), n)
      {
        assert polls[..i + 1] == polls[..i] + [polls[i]] && polls[..i + 1][..i] == polls[..i];
        ghost var before := State();
        steps := CheckQuit(s, steps);
        match polls[i] {
          case Interrupted =>
            steps := PollFails(true, s, steps);
            RanStill(script, s, before, State(), n);
          case Failed =>
            steps := PollFails(false, s, steps);
            RanStill(script, s, before, State(), n);
            return steps, true;
          case Ready =>
            steps := Turn(script, s, steps);
            OneMoreTurn(script, s, before, State(), n);
            n := n + 1;
        }
        i := i + 1;
      }
      done := quit;
      ghost var ended := State();
      if quit {
        steps := CheckQuit(s, steps);
        RanStill(script, s, ended, State(), n);
      }
    }

    /** From a poll that returned to the end of the turn. */
    method Turn(script: Script, ghost s: Loop, ghost before: seq<Step>) returns (ghost steps: seq<Step>)
      requires Reached(s, before) && pc == AtPoll
      modifies this`pending, this`enqueued, this`counter, this`quit, this`batch, this`executed, this`pc
      ensures Reached(s, steps) && pc == AtCheck && Outcomes(steps) == Outcomes(before) + [Ready]
      ensures executed == old(executed) + old(pending) && pending == AllEnqueued(script, old(pending))
      ensures quit <==> old(quit) || AsksToQuit(script, old(pending))
      ensures counter == Units(|pending|) && (counter > 0 <==> pending != [])
    {
      hide After, Legal, Inv, Outcomes, AsksToQuit, AllEnqueued;
      steps := HandleEvents(s, before);
      steps := DoPendingFunctors(script, s, steps);
    }

    /** The events poll reported: the eventfd is one of them while its counter is positive. */
    method HandleEvents(ghost s: Loop, ghost before: seq<Step>) returns (ghost steps: seq<Step>)
      requires Reached(s, before) && pc == AtPoll
      modifies this`counter, this`pc
      ensures Reached(s, steps) && pc == AtSwap && counter == 0 && Outcomes(steps) == Outcomes(before) + [Ready]
    {
      hide After, Legal, Inv, Outcomes;
      var wake := counter > 0;
      StepKeepsInv(State(), PollReturns(wake));
      steps := Add(s, before, PollReturns(wake));
      pc := AtTimers(wake);
      StepKeepsInv(State(), TimersDone);
      steps := Add(s, steps, TimersDone);
      pc := AtEvents(wake);
      if wake {
        steps := HandleWakeUp(s, steps);
      }
      StepKeepsInv(State(), EventsDone);
      steps := Add(s, steps, EventsDone);
      pc := AtSwap;
    }
  }

  lemma PushAndWake(s: Loop, f: Functor)
    requires Inv(s) && s.waking == {} && MayCall(s, LOOP_THREAD)
    ensures var pushed := Apply(s, Push(LOOP_THREAD, f));
            var woken := Apply(pushed, Step.WakeUp(LOOP_THREAD));
            && Enabled(s, Push(LOOP_THREAD, f)) && Enabled(pushed, Step.WakeUp(LOOP_THREAD))
            && Inv(woken) && woken.counter == Units(s.counter + 1) > 0
            && woken == s.(pending := s.pending + [f], enqueued := s.enqueued + [f], counter := woken.counter)
            && woken.counter == if s.counter < COUNTER_MAX then s.counter + 1 else s.counter
  {
    CounterFits(s);
    var pushed := Apply(s, Push(LOOP_THREAD, f));
    hide Inv;
    StepKeepsInv(s, Push(LOOP_THREAD, f));
    StepKeepsInv(pushed, Step.WakeUp(LOOP_THREAD));
  }

  lemma CounterFits(s: Loop)
    requires Inv(s)
    ensures s.counter <= COUNTER_MAX
  {
  }

  lemma NoCalls(calls: seq<Call>)
    ensures Enqueued(calls[..0]) == [] && AskQuit !in calls[..0]
  {
  }

  lemma NoFunctors(script: Script, batch: seq<Functor>)
    ensures AllEnqueued(script, batch[..0]) == [] && !AsksToQuit(script, batch[..0])
  {
  }
}
