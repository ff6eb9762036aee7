/** Whole lives of the timer queue: passes with reentrant callbacks, and the history of firings. */
module TimerHistory {
  import opened TimerSpec
  import opened TimerSafety

  // ---- passes ---------------------------------------------------------------------------------

  /** The batch of a pass in progress, and the timers in it, are out of reach of add and cancel. */
  ghost predicate BatchKept(q: Queue, q': Queue) {
    && q'.batch == q.batch && q'.begun == q.begun && q'.log == q.log
    && (forall a | a in Held(q.batch) && a in q.heap :: a in q'.heap && q'.heap[a] == q.heap[a])
    && q.deleted <= q'.deleted && q.ticks <= q'.ticks && q.created <= q'.created
  }

  ghost function DoOp(env: Env, q: Queue, op: Op): (r: Queue)
    requires ValidEnv(env) && Inv(q)
    ensures Inv(r) && BatchKept(q, r)
  {
    match op
    case Add(delay, interval) =>
      AddTimerKeepsInv(env, q, delay, interval);
      AddTimerKeepsBatch(env, q, delay, interval);
      AddTimer(env, q, delay, interval)
    case Cancel(id) =>
      CancelTimerKeepsInv(q, id);
      CancelTimerKeepsBatch(q, id);
      CancelTimer(q, id)
  }

  lemma AddTimerKeepsBatch(env: Env, q: Queue, delay: real, interval: real)
    requires ValidEnv(env) && Inv(q)
    ensures BatchKept(q, AddTimer(env, q, delay, interval))
  {
    hide Sorted, InsertEntry, Numbers, UpTo, Held;
  }

  lemma CancelTimerKeepsBatch(q: Queue, id: nat)
    requires Inv(q)
    ensures BatchKept(q, CancelTimer(q, id))
  {
    hide Sorted, RemoveEntry, Numbers, UpTo;
    if HasActive(q, id) {
      assert FindActive(q, id) in Idle(q);
    }
  }

  ghost function RunScript(env: Env, q: Queue, ops: seq<Op>): (r: Queue)
    requires ValidEnv(env) && Inv(q)
    ensures Inv(r) && BatchKept(q, r)
    decreases |ops|
  {
    if ops == [] then q else RunScript(env, DoOp(env, q, ops[0]), ops[1..])
  }

  /** The loop that runs every entry of the batch; the n-th run ever asks for env.script(n). */
  ghost function RunBatch(env: Env, q: Queue, now: real): (r: Queue)
    requires ValidEnv(env) && Inv(q)
    ensures Inv(r) && r.batch == q.batch && r.begun == |r.batch| && q.ticks <= r.ticks
    decreases |q.batch| - q.begun
  {
    if q.begun == |q.batch| then q
    else
      BeginRunKeepsInv(q, now);
      var q1 := BeginRun(q, now);
      RunBatch(env, RunScript(env, q1, env.script(|q.log|)), now)
  }

  ghost function ReturnBatch(q: Queue, now: real): (r: Queue)
    requires Inv(q) && q.begun == |q.batch|
    ensures Inv(r) && r.batch == [] && q.ticks == r.ticks
    decreases |q.batch|
  {
    if q.batch == [] then q
    else
      ReturnTimerKeepsInv(q, now);
      ReturnBatch(ReturnTimer(q, now), now)
  }

  /** The start of a pass: one clock reading, and the due timers taken out of both indices. */
  ghost function BeginPass(env: Env, q: Queue): (r: Queue)
    requires ValidEnv(env) && Inv(q) && q.batch == []
    ensures Inv(r) && BatchDue(r, env.clock(q.ticks))
    ensures r.batch == q.timers[..DueCount(q.timers, env.clock(q.ticks))] && r.begun == 0
    ensures r.log == q.log && r.deleted == q.deleted && r.heap == q.heap
    ensures r.created == q.created && r.ticks == q.ticks + 1
  {
    var q1 := q.(ticks := q.ticks + 1);
    assert Inv(q1) by {
      hide Sorted, Numbers, UpTo, BatchOk, Held;
    }
    TakeExpiredKeepsInv(q1, env.clock(q.ticks));
    TakeExpired(q1, env.clock(q.ticks))
  }

  ghost predicate BatchDue(q: Queue, now: real) {
    forall e | e in q.batch :: e.when <= now
  }

  /** process_expired_timers */
  ghost function Pass(env: Env, q: Queue): (r: Queue)
    requires ValidEnv(env) && Inv(q) && q.batch == []
    ensures Inv(r) && r.batch == [] && q.ticks <= r.ticks
  {
    var now := env.clock(q.ticks);
    ReturnBatch(RunBatch(env, BeginPass(env, q), now), now)
  }

  datatype Event = Outside(op: Op) | TimerPass

  ghost function Step(env: Env, q: Queue, e: Event): (r: Queue)
    requires ValidEnv(env) && Inv(q) && q.batch == []
    ensures Inv(r) && r.batch == [] && q.ticks <= r.ticks
  {
    match e
    case Outside(op) => DoOp(env, q, op)
    case TimerPass => Pass(env, q)
  }

  ghost function Life(env: Env, q: Queue, events: seq<Event>): (r: Queue)
    requires ValidEnv(env) && Inv(q) && q.batch == []
    ensures Inv(r) && r.batch == []
    decreases |events|
  {
    if events == [] then q
    else
      var front := events[..|events| - 1];
      Step(env, Life(env, q, front), events[|events| - 1])
  }

  // ---- which timers a pass runs ---------------------------------------------------------------

  function RunsOf(h: Heap, batch: seq<Entry>, now: real): (runs: seq<Run>)
    requires forall e | e in batch :: e.timer in h
    ensures |runs| == |batch|
    ensures forall i | 0 <= i < |batch| :: runs[i] == Run(h[batch[i].timer], now)
  {
    seq(|batch|, i requires 0 <= i < |batch| => Run(h[batch[i].timer], now))
  }

  lemma RunsOfStep(h: Heap, h': Heap, batch: seq<Entry>, now: real)
    requires batch != [] && forall e | e in batch :: e.timer in h
    requires forall e | e in batch[1..] :: e.timer in h' && h'[e.timer] == h[e.timer]
    ensures RunsOf(h, batch, now) == [Run(h[batch[0].timer], now)] + RunsOf(h', batch[1..], now)
  {
    forall i | 0 < i < |batch| ensures RunsOf(h, batch, now)[i] == RunsOf(h', batch[1..], now)[i - 1] {
      assert batch[i] in batch[1..];
    }
  }

  lemma ScriptKeepsBatch(env: Env, q: Queue, now: real)
    requires ValidEnv(env) && Inv(q) && q.begun < |q.batch| && q.batch[q.begun].timer in q.heap
    requires Inv(BeginRun(q, now))
    ensures var q2 := RunScript(env, BeginRun(q, now), env.script(|q.log|));
            && q2.batch == q.batch && q2.begun == q.begun + 1
            && q2.log == q.log + [Run(q.heap[q.batch[q.begun].timer], now)]
            && forall e | e in q.batch :: e.timer in q.heap && e.timer in q2.heap && q2.heap[e.timer] == q.heap[e.timer]
  {
    hide RunScript, IndicesAgree, Numbered;
    assert forall e | e in q.batch :: e.timer in Held(q.batch);
  }

  lemma Glue(a: seq<Run>, r: Run, b: seq<Run>)
    ensures (a + [r]) + b == a + ([r] + b)
  {
  }

  lemma {:induction false} BatchRunsInOrder(env: Env, q: Queue, now: real)
    requires ValidEnv(env) && Inv(q)
    ensures forall e | e in q.batch[q.begun..] :: e.timer in q.heap
    ensures RunBatch(env, q, now).log == q.log + RunsOf(q.heap, q.batch[q.begun..], now)
    decreases |q.batch| - q.begun
  {
    var rest := q.batch[q.begun..];
    assert forall e | e in rest :: e in q.batch && e.timer in q.heap by {
      hide IndicesAgree, Numbered;
    }
    hide Inv, RunScript, RunsOf;
    if rest != [] {
      BeginRunKeepsInv(q, now);
      ScriptKeepsBatch(env, q, now);
      var q2 := RunScript(env, BeginRun(q, now), env.script(|q.log|));
      assert RunBatch(env, q, now) == RunBatch(env, q2, now);
      BatchRunsInOrder(env, q2, now);
      assert rest[1..] == q.batch[q.begun + 1..];
      RunsOfStep(q.heap, q2.heap, rest, now);
      assert rest[0] == q.batch[q.begun];
      Glue(q.log, Run(q.heap[rest[0].timer], now), RunsOf(q2.heap, rest[1..], now));
      hide *;
    }
  }

  lemma {:induction false} ReturningLogsNothing(q: Queue, now: real)
    requires Inv(q) && q.begun == |q.batch|
    ensures ReturnBatch(q, now).log == q.log && q.deleted <= ReturnBatch(q, now).deleted
    decreases |q.batch|
  {
    if q.batch != [] {
      ReturnTimerKeepsInv(q, now);
      hide Inv;
      ReturningLogsNothing(ReturnTimer(q, now), now);
    }
  }

  /** A pass runs exactly the timers whose deadline is reached, once each, in the order of the set,
      whatever the callbacks add or cancel meanwhile. */
  lemma PassRunsExactlyDue(env: Env, q: Queue)
    requires ValidEnv(env) && Inv(q) && q.batch == []
    ensures var now := env.clock(q.ticks);
            var due := q.timers[..DueCount(q.timers, now)];
            && (forall e :: e in due <==> e in q.timers && e.when <= now)
            && Sorted(due)
            && Pass(env, q).log == q.log + RunsOf(q.heap, due, now)
  {
    var now := env.clock(q.ticks);
    IndexSorted(q, now);
    hide Inv, BeginPass, RunBatch, ReturnBatch, DueCount, RunsOf, Sorted;
    var q2 := BeginPass(env, q);
    BatchRunsInOrder(env, q2, now);
    assert q2.batch[q2.begun..] == q2.batch;
    ReturningLogsNothing(RunBatch(env, q2, now), now);
  }

  lemma IndexSorted(q: Queue, now: real)
    requires Inv(q)
    ensures Sorted(q.timers[..DueCount(q.timers, now)])
    ensures forall e :: e in q.timers[..DueCount(q.timers, now)] <==> e in q.timers && e.when <= now
  {
    PrefixSorted(q.timers, DueCount(q.timers, now));
    DueExactly(q.timers, now);
  }

  lemma {:induction false} PrefixSorted(s: seq<Entry>, k: nat)
    requires Sorted(s) && k <= |s|
    ensures Sorted(s[..k])
  {
    if k > 0 {
      PrefixSorted(s[1..], k - 1);
      assert s[..k][1..] == s[1..][..k - 1];
    }
  }

  // ---- firing history -------------------------------------------------------------------------

  /** The callback of timer `a` has been started in the pass in progress. */
  ghost predicate Begun(q: Queue, a: Address) {
    exists i | 0 <= i < |q.batch| :: i < q.begun && q.batch[i].timer == a
  }

  /** What one recorded run says about its timer, as long as that timer lives. */
  ghost predicate Settled(q: Queue, r: Run, a: Address)
    requires a in q.heap
  {
    && q.heap[a].interval == r.timer.interval
    && (Begun(q, a) || (r.timer.Repeats() && r.passTime + r.timer.interval <= q.heap[a].when))
  }

  ghost predicate RunOk(q: Queue, r: Run, bound: real) {
    && r.timer.when <= r.passTime <= bound
    && r.timer.sequence <= q.created
    && (forall a | a in q.heap && q.heap[a].sequence == r.timer.sequence :: Settled(q, r, a))
  }

  /** Two runs of one timer: it repeats, and the passes are at least its interval apart. */
  ghost predicate Spaced(log: seq<Run>) {
    forall i, j | 0 <= i < j < |log| && log[i].timer.sequence == log[j].timer.sequence ::
      log[i].timer.Repeats() && log[i].passTime + log[i].timer.interval <= log[j].passTime
  }

  ghost predicate History(q: Queue, bound: real) {
    (forall i | 0 <= i < |q.log| :: RunOk(q, q.log[i], bound)) && Spaced(q.log)
  }

  lemma HistoryFrame(q: Queue, q': Queue, bound: real, bound': real)
    requires History(q, bound) && bound <= bound'
    requires q'.log == q.log && q.created <= q'.created
    requires forall a | a in q'.heap && q'.heap[a].sequence <= q.created :: a in q.heap && q'.heap[a] == q.heap[a]
    requires forall a | a in q'.heap && Begun(q, a) :: Begun(q', a)
    ensures History(q', bound')
  {
    forall i | 0 <= i < |q.log| ensures RunOk(q', q'.log[i], bound') {
      var r := q.log[i];
      assert RunOk(q, r, bound);
      forall a | a in q'.heap && q'.heap[a].sequence == r.timer.sequence ensures Settled(q', r, a) {
        assert Settled(q, r, a);
      }
    }
  }

  lemma OpKeepsHistory(env: Env, q: Queue, op: Op, bound: real)
    requires ValidEnv(env) && Inv(q) && History(q, bound)
    ensures History(DoOp(env, q, op), bound)
  {
    var q' := DoOp(env, q, op);
    assert forall a | a in q'.heap && q'.heap[a].sequence <= q.created :: a in q.heap && q'.heap[a] == q.heap[a] by {
      hide Inv, Sorted, InsertEntry, RemoveEntry, ValidEnv;
    }
    hide Inv, Spaced, RunOk;
    HistoryFrame(q, q', bound, bound);
  }

  lemma {:induction false} ScriptKeepsHistory(env: Env, q: Queue, ops: seq<Op>, bound: real)
    requires ValidEnv(env) && Inv(q) && History(q, bound)
    ensures History(RunScript(env, q, ops), bound)
    decreases |ops|
  {
    hide Inv, History, ValidEnv;
    if ops != [] {
      OpKeepsHistory(env, q, ops[0], bound);
      ScriptKeepsHistory(env, DoOp(env, q, ops[0]), ops[1..], bound);
    }
  }

  /** A run is recorded no earlier than its deadline, and an interval after any earlier one. */
  lemma BeginRunKeepsHistory(q: Queue, now: real)
    requires Inv(q) && History(q, now) && BatchDue(q, now) && q.begun < |q.batch|
    requires q.batch[q.begun].timer in q.heap
    ensures History(BeginRun(q, now), now)
  {
    var e, q' := q.batch[q.begun], BeginRun(q, now);
    var r := Run(q.heap[e.timer], now);
    assert e in q.batch;
    assert q.heap[e.timer].sequence in Numbers(q.heap);
    assert !Begun(q, e.timer);
    assert Begun(q', e.timer);
    hide IndicesAgree, UpTo, Numbers;
    forall i | 0 <= i < |q.log| ensures RunOk(q', q.log[i], now) {
      assert RunOk(q, q.log[i], now);
      assert forall a | a in q.heap && Begun(q, a) :: Begun(q', a);
      assert forall a | a in q.heap && Settled(q, q.log[i], a) :: Settled(q', q.log[i], a);
    }
    forall i | 0 <= i < |q.log| && q.log[i].timer.sequence == r.timer.sequence
      ensures q.log[i].timer.Repeats() && q.log[i].passTime + q.log[i].timer.interval <= now
    {
      assert RunOk(q, q.log[i], now);
      assert Settled(q, q.log[i], e.timer);
    }
    assert RunOk(q', r, now);
  }

  lemma ReturnTimerKeepsHistory(q: Queue, now: real)
    requires Inv(q) && History(q, now) && q.begun == |q.batch| > 0 && q.batch[0].timer in q.heap
    ensures History(ReturnTimer(q, now), now)
  {
    var a0, q' := q.batch[0].timer, ReturnTimer(q, now);
    hide IndicesAgree, Numbered, InsertEntry, Sorted;
    assert q'.log == q.log && q'.created == q.created;
    forall i | 0 <= i < |q.log| ensures RunOk(q', q'.log[i], now) {
      var r := q.log[i];
      assert RunOk(q, r, now);
      forall a | a in q'.heap && q'.heap[a].sequence == r.timer.sequence ensures Settled(q', r, a) {
        assert Settled(q, r, a);
        if a != a0 && Begun(q, a) {
          var k :| 0 <= k < |q.batch| && k < q.begun && q.batch[k].timer == a;
          assert q'.batch[k - 1].timer == a;
        }
      }
    }
  }

  lemma {:induction false} RunBatchKeepsHistory(env: Env, q: Queue, now: real)
    requires ValidEnv(env) && Inv(q) && History(q, now) && BatchDue(q, now)
    ensures History(RunBatch(env, q, now), now)
    decreases |q.batch| - q.begun
  {
    assert q.begun <= |q.batch|;
    hide Inv, History, ValidEnv;
    if q.begun < |q.batch| {
      BeginRunKeepsInv(q, now);
      BeginRunKeepsHistory(q, now);
      var q1 := BeginRun(q, now);
      var ops := env.script(|q.log|);
      ScriptKeepsHistory(env, q1, ops, now);
      RunBatchKeepsHistory(env, RunScript(env, q1, ops), now);
    }
  }

  lemma {:induction false} ReturnBatchKeepsHistory(q: Queue, now: real)
    requires Inv(q) && History(q, now) && q.begun == |q.batch|
    ensures History(ReturnBatch(q, now), now)
    decreases |q.batch|
  {
    hide Inv, History;
    if q.batch != [] {
      ReturnTimerKeepsInv(q, now);
      ReturnTimerKeepsHistory(q, now);
      ReturnBatchKeepsHistory(ReturnTimer(q, now), now);
    }
  }

  lemma PassKeepsHistory(env: Env, q: Queue)
    requires ValidEnv(env) && Inv(q) && q.batch == [] && History(q, env.clock(q.ticks))
    ensures History(Pass(env, q), env.clock(Pass(env, q).ticks))
  {
    var now := env.clock(q.ticks);
    hide Inv, RunOk, Spaced, BeginPass, RunBatch, ReturnBatch, DueCount;
    var q2 := BeginPass(env, q);
    HistoryFrame(q, q2, now, now);
    RunBatchKeepsHistory(env, q2, now);
    var q3 := RunBatch(env, q2, now);
    ReturnBatchKeepsHistory(q3, now);
    var q4 := ReturnBatch(q3, now);
    assert now <= env.clock(q4.ticks);
    HistoryFrame(q4, q4, now, env.clock(q4.ticks));
  }

  lemma StepKeepsHistory(env: Env, q: Queue, e: Event)
    requires ValidEnv(env) && Inv(q) && q.batch == [] && History(q, env.clock(q.ticks))
    ensures History(Step(env, q, e), env.clock(Step(env, q, e).ticks))
  {
    match e
    case Outside(op) =>
      OpKeepsHistory(env, q, op, env.clock(q.ticks));
      hide Inv, RunOk, Spaced, DoOp;
      var q' := DoOp(env, q, op);
      HistoryFrame(q', q', env.clock(q.ticks), env.clock(q'.ticks));
    case TimerPass =>
      PassKeepsHistory(env, q);
  }

  /** For every life of a queue: no timer ran before its deadline, a one-shot timer ran at most once,
      and two runs of a repeating timer are at least its interval apart. */
  lemma {:induction false} FiringHistory(env: Env, events: seq<Event>)
    requires ValidEnv(env)
    ensures Inv(EMPTY)
    ensures var log := Life(env, EMPTY, events).log;
            && (forall i | 0 <= i < |log| :: log[i].timer.when <= log[i].passTime)
            && (forall i, j | 0 <= i < j < |log| && log[i].timer.sequence == log[j].timer.sequence ::
                  log[i].timer.Repeats() && log[i].passTime + log[i].timer.interval <= log[j].passTime)
  {
    assert Inv(EMPTY);
    LifeHasHistory(env, events);
    assert forall i | 0 <= i < |Life(env, EMPTY, events).log| ::
        RunOk(Life(env, EMPTY, events), Life(env, EMPTY, events).log[i], env.clock(Life(env, EMPTY, events).ticks));
  }

  lemma {:induction false} LifeHasHistory(env: Env, events: seq<Event>)
    requires ValidEnv(env) && Inv(EMPTY)
    ensures var q := Life(env, EMPTY, events); History(q, env.clock(q.ticks))
    decreases |events|
  {
    if events != [] {
      var front := events[..|events| - 1];
      LifeHasHistory(env, front);
      StepKeepsHistory(env, Life(env, EMPTY, front), events[|events| - 1]);
    }
  }

  /** For every life of a queue, between passes: each number ever given out is live in both indices or
      deleted, never both, and nothing else is allocated, so no timer leaks or is deleted twice. */
  lemma OwnershipBetweenPasses(env: Env, events: seq<Event>)
    requires ValidEnv(env)
    ensures Inv(EMPTY)
    ensures var q := Life(env, EMPTY, events);
            && q.heap.Keys == Idle(q)
            && (forall e: Entry :: e in q.timers <==> e.timer in q.heap && q.heap[e.timer].when == e.when)
            && (forall x: Active :: x in q.active <==> x.timer in q.heap && q.heap[x.timer].sequence == x.sequence)
            && Numbers(q.heap) !! q.deleted
            && Numbers(q.heap) + q.deleted == UpTo(q.created)
  {
    assert Inv(EMPTY);
    var q := Life(env, EMPTY, events);
    assert Held(q.batch) == {};
    hide Sorted, Numbers, UpTo;
    forall e: Entry | e.timer in q.heap && q.heap[e.timer].when == e.when ensures e in q.timers {
      assert e.timer in Idle(q);
    }
    forall x: Active | x.timer in q.heap && q.heap[x.timer].sequence == x.sequence ensures x in q.active {
      assert x.timer in Idle(q);
      var y :| y in q.active && y.timer == x.timer;
      assert y == x;
    }
  }

  // ---- what a cancellation achieves -----------------------------------------------------------

  /** Cancelling takes effect exactly when the timer is in the indices: then the timer is gone for good,
      and otherwise - in particular for a timer of the batch being run - nothing changes. */
  lemma CancelTakesEffectIff(q: Queue, id: nat)
    requires Inv(q)
    ensures HasActive(q, id) <==> exists a :: a in Idle(q) && a in q.heap && q.heap[a].sequence == id
    ensures HasActive(q, id) ==> id in CancelTimer(q, id).deleted && id !in Numbers(CancelTimer(q, id).heap)
    ensures !HasActive(q, id) ==> CancelTimer(q, id) == q
    ensures forall a | a in Held(q.batch) && a in q.heap :: !HasActive(q, q.heap[a].sequence)
  {
    hide Sorted, RemoveEntry, UpTo;
    if HasActive(q, id) {
      var a := FindActive(q, id);
      assert a in Idle(q);
    }
    forall a | a in Idle(q) && a in q.heap && q.heap[a].sequence == id ensures HasActive(q, id) {
      var x :| x in q.active && x.timer == a;
      assert x == Active(a, id);
    }
    assert forall x | x in q.active :: x.timer in Idle(q) && q.heap[x.timer].sequence == x.sequence;
  }

  // ---- what becomes of a timer that was run ---------------------------------------------------

  /** In both indices, under this deadline. */
  ghost predicate ArmedAt(q: Queue, a: Address, t: Timer) {
    a in q.heap && q.heap[a] == t && Entry(t.when, a) in q.timers && Active(a, t.sequence) in q.active
  }

  /** What reset makes of a timer run in the pass of time `now`. */
  ghost predicate GoneOn(q: Queue, a: Address, t: Timer, now: real) {
    if t.interval > 0.0 then ArmedAt(q, a, t.(when := now + t.interval)) else t.sequence in q.deleted
  }

  lemma FrontGoesOn(q: Queue, now: real)
    requires q.batch != [] && q.begun > 0 && q.batch[0].timer in q.heap
    ensures GoneOn(ReturnTimer(q, now), q.batch[0].timer, q.heap[q.batch[0].timer], now)
  {
    hide Sorted;
  }

  /** Returning one timer of the batch leaves every other as it is. */
  lemma OthersUntouched(q: Queue, a: Address, now: real)
    requires q.batch != [] && q.begun > 0 && q.batch[0].timer in q.heap && q.batch[0].timer != a
    ensures q.deleted <= ReturnTimer(q, now).deleted && ReturnTimer(q, now).batch == q.batch[1..]
    ensures forall t :: ArmedAt(q, a, t) ==> ArmedAt(ReturnTimer(q, now), a, t)
    ensures a in q.heap ==> a in ReturnTimer(q, now).heap && ReturnTimer(q, now).heap[a] == q.heap[a]
  {
    hide Sorted;
  }

  /** The batch and the indices share no timer, and the batch holds none twice. */
  lemma FrontApart(q: Queue)
    requires Inv(q) && q.batch != []
    ensures q.batch[0].timer in q.heap
    ensures forall a, t | ArmedAt(q, a, t) :: a != q.batch[0].timer
    ensures forall i | 0 < i < |q.batch| :: q.batch[i].timer != q.batch[0].timer && q.batch[i].timer in q.heap
  {
    hide Numbered, Sorted;
    assert q.batch[0] in q.batch;
    forall a, t | ArmedAt(q, a, t)
      ensures a != q.batch[0].timer
    {
      assert a in Idle(q) && q.batch[0].timer in Held(q.batch);
    }
    assert forall i | 0 < i < |q.batch| :: q.batch[i] in q.batch;
  }

  lemma {:induction false} StaysArmed(q: Queue, now: real, a: Address, t: Timer)
    requires Inv(q) && q.begun == |q.batch| && ArmedAt(q, a, t)
    ensures ArmedAt(ReturnBatch(q, now), a, t)
    decreases |q.batch|
  {
    if q.batch != [] {
      FrontApart(q);
      ReturnTimerKeepsInv(q, now);
      OthersUntouched(q, a, now);
      hide Inv, ArmedAt;
      StaysArmed(ReturnTimer(q, now), now, a, t);
    }
  }

  lemma {:induction false} ReturnGoesOn(q: Queue, now: real, i: nat)
    requires Inv(q) && q.begun == |q.batch| && i < |q.batch|
    ensures q.batch[i].timer in q.heap
    ensures GoneOn(ReturnBatch(q, now), q.batch[i].timer, q.heap[q.batch[i].timer], now)
    decreases |q.batch|
  {
    hide Inv, ArmedAt, GoneOn, ReturnTimer;
    FrontApart(q);
    BeginsReturned(q, now);
    if i == 0 {
      FrontStaysGone(q, now);
    } else {
      OthersUntouched(q, q.batch[i].timer, now);
      ReturnGoesOn(ReturnTimer(q, now), now, i - 1);
    }
  }

  lemma FrontStaysGone(q: Queue, now: real)
    requires Inv(q) && q.begun == |q.batch| > 0 && q.batch[0].timer in q.heap
    ensures GoneOn(ReturnBatch(q, now), q.batch[0].timer, q.heap[q.batch[0].timer], now)
  {
    hide Inv, ArmedAt;
    ReturnTimerKeepsInv(q, now);
    FrontGoesOn(q, now);
    var a, t, q1 := q.batch[0].timer, q.heap[q.batch[0].timer], ReturnTimer(q, now);
    BeginsReturned(q, now);
    if t.Repeats() {
      StaysArmed(q1, now, a, t.Restart(now));
    } else {
      ReturningLogsNothing(q1, now);
    }
  }

  lemma BeginsReturned(q: Queue, now: real)
    requires Inv(q) && q.begun == |q.batch| > 0 && q.batch[0].timer in q.heap
    ensures Inv(ReturnTimer(q, now)) && ReturnTimer(q, now).begun == |ReturnTimer(q, now).batch|
    ensures ReturnBatch(q, now) == ReturnBatch(ReturnTimer(q, now), now)
  {
    ReturnTimerKeepsInv(q, now);
    hide Inv;
  }

  lemma {:induction false} BatchHeapKept(env: Env, q: Queue, now: real)
    requires ValidEnv(env) && Inv(q)
    ensures forall e | e in q.batch && e.timer in q.heap ::
              e.timer in RunBatch(env, q, now).heap && RunBatch(env, q, now).heap[e.timer] == q.heap[e.timer]
    decreases |q.batch| - q.begun
  {
    assert q.begun <= |q.batch|;
    BatchAllocated(q);
    hide Inv, RunScript;
    if q.begun < |q.batch| {
      BeginRunKeepsInv(q, now);
      ScriptKeepsBatch(env, q, now);
      BatchHeapKept(env, RunScript(env, BeginRun(q, now), env.script(|q.log|)), now);
    }
  }

  lemma BatchAllocated(q: Queue)
    requires Inv(q)
    ensures forall e | e in q.batch :: e.timer in q.heap
  {
    hide IndicesAgree, Numbered;
  }

  /** For every queue and whatever the callbacks of the pass add or cancel, themselves or each other: a
      repeating timer that a pass runs is armed again at its address, one interval after the pass, and a
      one-shot timer is deleted. */
  lemma RunTimersGoOn(env: Env, q: Queue, e: Entry)
    requires ValidEnv(env) && Inv(q) && q.batch == []
    requires e in q.timers && e.when <= env.clock(q.ticks)
    ensures e.timer in q.heap
    ensures GoneOn(Pass(env, q), e.timer, q.heap[e.timer], env.clock(q.ticks))
  {
    var now := env.clock(q.ticks);
    IndexSorted(q, now);
    var q2 := BeginPass(env, q);
    hide Inv, BeginPass, RunBatch, ReturnBatch, DueCount, Sorted, GoneOn;
    var i :| 0 <= i < |q2.batch| && q2.batch[i] == e;
    BatchAllocated(q2);
    BatchHeapKept(env, q2, now);
    ReturnGoesOn(RunBatch(env, q2, now), now, i);
  }

  /** The log has only grown, and not by a run of a timer deleted before. */
  ghost predicate NoRunsOfDeleted(q: Queue, q': Queue) {
    && q.log <= q'.log && q.deleted <= q'.deleted
    && forall i | |q.log| <= i < |q'.log| :: q'.log[i].timer.sequence !in q.deleted
  }

  lemma NoRunsThenNoRuns(q: Queue, q1: Queue, q2: Queue)
    requires NoRunsOfDeleted(q, q1) && NoRunsOfDeleted(q1, q2)
    ensures NoRunsOfDeleted(q, q2)
  {
  }

  lemma OneRunOfLive(env: Env, q: Queue, now: real)
    requires ValidEnv(env) && Inv(q) && q.begun < |q.batch| && q.batch[q.begun].timer in q.heap
    requires Inv(BeginRun(q, now))
    ensures NoRunsOfDeleted(q, RunScript(env, BeginRun(q, now), env.script(|q.log|)))
  {
    LiveNotDeleted(q, q.batch[q.begun].timer);
    hide Inv, RunScript;
  }

  lemma {:induction false} BatchRunsNoDeleted(env: Env, q: Queue, now: real)
    requires ValidEnv(env) && Inv(q)
    ensures NoRunsOfDeleted(q, RunBatch(env, q, now))
    decreases |q.batch| - q.begun
  {
    assert q.begun <= |q.batch|;
    if q.begun < |q.batch| {
      hide Inv, RunScript, NoRunsOfDeleted;
      BeginRunKeepsInv(q, now);
      OneRunOfLive(env, q, now);
      var q2 := RunScript(env, BeginRun(q, now), env.script(|q.log|));
      BatchRunsNoDeleted(env, q2, now);
      NoRunsThenNoRuns(q, q2, RunBatch(env, q2, now));
    }
  }

  lemma LiveNotDeleted(q: Queue, a: Address)
    requires Inv(q) && a in q.heap
    ensures q.heap[a].sequence !in q.deleted
  {
    hide IndicesAgree, Owned;
    assert q.heap[a].sequence in Numbers(q.heap);
  }

  lemma StepRunsNoDeleted(env: Env, q: Queue, e: Event)
    requires ValidEnv(env) && Inv(q) && q.batch == []
    ensures NoRunsOfDeleted(q, Step(env, q, e))
  {
    match e
    case Outside(op) =>
    case TimerPass =>
      var now := env.clock(q.ticks);
      hide Inv, BeginPass, RunBatch, ReturnBatch, DueCount;
      var q2 := BeginPass(env, q);
      BatchRunsNoDeleted(env, q2, now);
      ReturningLogsNothing(RunBatch(env, q2, now), now);
  }

  /** A cancellation that took effect is final, made by a callback in mid-pass or between passes: not in
      the rest of that callback, nor in the rest of the pass, nor in any later life does the timer run. */
  lemma CancelIsFinal(env: Env, q: Queue, id: nat, ops: seq<Op>, now: real, events: seq<Event>)
    requires ValidEnv(env) && Inv(q) && HasActive(q, id)
    ensures Inv(CancelTimer(q, id)) && CancelTimer(q, id).log == q.log
    ensures var q1 := RunScript(env, CancelTimer(q, id), ops);
            var q2 := Life(env, ReturnBatch(RunBatch(env, q1, now), now), events);
            q.log <= q2.log && forall i | |q.log| <= i < |q2.log| :: q2.log[i].timer.sequence != id
  {
    CancelTimerKeepsInv(q, id);
    CancelTakesEffectIff(q, id);
    CancelTimerKeepsBatch(q, id);
    hide Inv, CancelTimer, RunScript;
    var q0 := CancelTimer(q, id);
    var q1 := RunScript(env, q0, ops);
    var q2 := RunBatch(env, q1, now);
    var q3 := ReturnBatch(q2, now);
    assert NoRunsOfDeleted(q0, q1);
    BatchRunsNoDeleted(env, q1, now);
    ReturningLogsNothing(q2, now);
    assert NoRunsOfDeleted(q2, q3);
    LifeRunsNoDeleted(env, q3, events);
    NoRunsThenNoRuns(q0, q1, q2);
    NoRunsThenNoRuns(q0, q2, q3);
    NoRunsThenNoRuns(q0, q3, Life(env, q3, events));
  }

  lemma {:induction false} LifeRunsNoDeleted(env: Env, q: Queue, events: seq<Event>)
    requires ValidEnv(env) && Inv(q) && q.batch == []
    ensures NoRunsOfDeleted(q, Life(env, q, events))
    decreases |events|
  {
    hide Inv;
    if events != [] {
      var front := events[..|events| - 1];
      LifeRunsNoDeleted(env, q, front);
      StepRunsNoDeleted(env, Life(env, q, front), events[|events| - 1]);
    }
  }

  // ---- the poll timeout -----------------------------------------------------------------------

  /** get_next_timeout, in milliseconds, for the clock reading `now`. */
  function NextTimeout(timers: seq<Entry>, now: real): int {
    if timers == [] then -1
    else if timers[0].when <= now then 0
    else ((timers[0].when - now) * 1000.0).Floor
  }

  /** The loop sleeps without limit exactly when no timer is held, never past a deadline, and at most a
      millisecond less than the earliest one allows. */
  lemma TimeoutIsSound(q: Queue, now: real)
    requires Inv(q) && q.batch == []
    ensures var ms := NextTimeout(q.timers, now);
            && (ms == -1 <==> q.heap == map[])
            && (ms != -1 ==> ms >= 0)
            && (forall a | a in q.heap :: ms == 0 || now + ms as real / 1000.0 <= q.heap[a].when)
            && (q.heap != map[] ==>
                  exists a :: a in q.heap && q.heap[a].when < now + (ms as real + 1.0) / 1000.0)
  {
    assert Held(q.batch) == {};
    if q.timers == [] {
      assert forall a :: a !in q.heap;
    } else {
      var e := q.timers[0];
      assert e in q.timers && e.timer in q.heap;
      forall a | a in q.heap ensures e.when <= q.heap[a].when {
        assert a in Idle(q);
        var f := Entry(q.heap[a].when, a);
        assert f in q.timers;
        assert f == e || f in q.timers[1..];
      }
      hide Inv;
      var x := (e.when - now) * 1000.0;
      assert x.Floor as real <= x < x.Floor as real + 1.0;
    }
  }
}
