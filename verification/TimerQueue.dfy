/** The timer queue object: two indices, a heap of timers, and callbacks that reenter it.

    Each method is proved to take the state where `TimerSpec` and `TimerHistory` say. */
module Timers {
  import opened Options
  import opened TimerSpec
  import opened TimerSafety
  import opened TimerHistory
  import opened TimerBook

  class TimerQueue {
    const env: Env
    var heap: Heap
    var timers: seq<Entry>
    var active: set<Active>
    var created: nat
    var ticks: nat
    var runs: nat
    ghost var batch: seq<Entry>
    ghost var begun: nat
    ghost var deleted: set<nat>
    ghost var log: seq<Run>

    ghost function State(): Queue
      reads this
    {
      Queue(heap, timers, active, created, ticks, batch, begun, deleted, log)
    }

    ghost predicate Valid()
      reads this
    {
      ValidEnv(env) && Inv(State()) && runs == |log|
    }

    constructor (env: Env)
      requires ValidEnv(env)
      ensures Valid() && State() == EMPTY && this.env == env
    {
      this.env := env;
      heap, timers, active, created, ticks, runs := map[], [], {}, 0, 0, 0;
      batch, begun, deleted, log := [], 0, {}, [];
    }

    method Insert(a: Address) returns (earliestChanged: bool)
      requires a in heap
      modifies this`timers, this`active
      ensures State() == TimerSpec.Insert(old(State()), a)
      ensures earliestChanged <==> old(timers) == [] || heap[a].when < old(timers)[0].when
    {
      var when := heap[a].when;
      earliestChanged := timers == [] || when < timers[0].when;
      timers := InsertEntry(timers, Entry(when, a));
      active := active + {Active(a, heap[a].sequence)};
    }

    method AddTimer(delay: real, interval: real) returns (id: nat)
      requires Valid()
      modifies this
      ensures Valid() && runs == old(runs)
      ensures id == old(created) + 1
      ensures State() == DoOp(env, old(State()), Add(delay, interval))
      ensures exists a: Address ::
                var t := Timer(env.clock(old(ticks)) + delay, interval, id);
                a !in old(heap) && heap == old(heap)[a := t] && ArmedAt(State(), a, t)
    {
      hide Inv, InsertEntry;
      ghost var before := State();
      ghost var _ := AddTimerEffect(env, before, delay, interval);
      id := created + 1;
      var a := env.malloc(id, heap);
      heap := heap[a := Timer(env.clock(ticks) + delay, interval, id)];
      created, ticks := id, ticks + 1;
      var earliestChanged := Insert(a);
      assert State() == DoOp(env, before, Add(delay, interval));
    }

    /** The linear search of the active set, in whatever order the set is iterated. */
    method FindNumber(id: nat) returns (r: Option<Active>)
      ensures r.Some? ==> r.value in active && r.value.sequence == id
      ensures r.None? ==> forall x | x in active :: x.sequence != id
    {
      var rest := active;
      while rest != {}
        invariant rest <= active
        invariant forall x | x in active && x !in rest :: x.sequence != id
        decreases |rest|
      {
        var x :| x in rest;
        if x.sequence == id {
          return Some(x);
        }
        rest := rest - {x};
      }
      return None;
    }

    method CancelTimer(id: nat)
      requires Valid()
      modifies this
      ensures Valid() && runs == old(runs)
      ensures State() == DoOp(env, old(State()), Cancel(id))
    {
      ghost var before := State();
      assert ActiveAllocated(before) by {
        hide Owned, Numbered, Sorted;
      }
      hide Inv, RemoveEntry;
      var found := FindNumber(id);
      if found.Some? {
        FoundByNumber(before, found.value);
        Erase(found.value);
      }
      assert State() == DoOp(env, before, Cancel(id));
    }

    method Erase(x: Active)
      requires x in active && x.timer in heap && heap[x.timer].sequence == x.sequence
      requires ActiveAllocated(State()) && HasActive(State(), x.sequence) && FindActive(State(), x.sequence) == x.timer
      modifies this`active, this`timers, this`deleted, this`heap
      ensures State() == TimerSpec.CancelTimer(old(State()), x.sequence)
    {
      hide RemoveEntry;
      active := active - {x};
      timers := RemoveEntry(timers, Entry(heap[x.timer].when, x.timer));
      deleted := deleted + {heap[x.timer].sequence};
      heap := heap - {x.timer};
    }

    method CountDue(now: real) returns (k: nat)
      ensures k == DueCount(timers, now)
    {
      k := 0;
      while k < |timers| && timers[k].when <= now
        invariant k <= |timers|
        invariant DueCount(timers, now) == k + DueCount(timers[k..], now)
      {
        assert timers[k..][1..] == timers[k + 1..];
        k := k + 1;
      }
    }

    method DropActive(expired: seq<Entry>)
      requires forall e | e in expired :: e.timer in heap
      modifies this`active
      ensures active == old(active) - ActiveOf(heap, expired)
    {
      for i := 0 to |expired|
        invariant active == old(active) - ActiveOf(heap, expired[..i])
      {
        assert expired[..i + 1] == expired[..i] + [expired[i]];
        active := active - {Active(expired[i].timer, heap[expired[i].timer].sequence)};
      }
      assert expired[..|expired|] == expired;
    }

    method GetExpired(now: real) returns (expired: seq<Entry>)
      requires Valid() && batch == []
      modifies this`timers, this`active, this`batch, this`begun
      ensures State() == TakeExpired(old(State()), now)
      ensures expired == batch
    {
      hide Inv, ActiveOf, DueCount;
      TimersAllocated(State());
      var k := CountDue(now);
      expired := timers[..k];
      timers := timers[k..];
      batch, begun := expired, 0;
      DropActive(expired);
    }

    /** One callback: whatever it asks of the queue happens while the batch is out. */
    method RunCallback()
      requires Valid() && runs > 0
      modifies this
      ensures Valid() && runs == old(runs)
      ensures State() == RunScript(env, old(State()), env.script(runs - 1))
    {
      hide Inv, DoOp;
      ghost var before := State();
      var ops := env.script(runs - 1);
      for i := 0 to |ops|
        invariant Valid() && runs == old(runs)
        invariant RunScript(env, State(), ops[i..]) == RunScript(env, before, ops)
      {
        assert ops[i..][1..] == ops[i + 1..];
        match ops[i]
        case Add(delay, interval) => var _ := AddTimer(delay, interval);
        case Cancel(id) => CancelTimer(id);
      }
    }

    method ReturnFront(a: Address, now: real)
      requires batch != [] && begun > 0 && batch[0].timer == a && a in heap
      modifies this`batch, this`begun, this`heap, this`timers, this`active, this`deleted
      ensures State() == ReturnTimer(old(State()), now)
    {
      hide InsertEntry;
      batch, begun := batch[1..], begun - 1;
      if heap[a].Repeats() {
        heap := heap[a := heap[a].Restart(now)];
        var _ := Insert(a);
      } else {
        deleted := deleted + {heap[a].sequence};
        heap := heap - {a};
      }
    }

    /** Re-arm or delete each timer of the batch. */
    method Reset(expired: seq<Entry>, now: real)
      requires Valid() && begun == |batch| && batch == expired
      modifies this
      ensures Valid() && runs == old(runs)
      ensures State() == ReturnBatch(old(State()), now)
    {
      hide Inv, ReturnBatch, ReturnTimer;
      ghost var before := State();
      for i := 0 to |expired|
        invariant Valid() && runs == old(runs) && batch == expired[i..] && begun == |batch|
        invariant ReturnBatch(State(), now) == ReturnBatch(before, now)
      {
        ghost var turn := State();
        ReturnTimerKeepsInv(turn, now);
        ReturnOne(turn, now);
        ReturnKeepsRest(turn, now);
        assert expired[i..][1..] == expired[i + 1..];
        ReturnFront(expired[i].timer, now);
      }
      ReturnNone(State(), now);
    }

    method RunExpired(expired: seq<Entry>, now: real)
      requires Valid() && begun == 0 && batch == expired
      modifies this
      ensures Valid() && begun == |batch| && batch == expired
      ensures State() == RunBatch(env, old(State()), now)
    {
      hide Inv, RunBatch, RunScript;
      ghost var q := State();
      for i := 0 to |expired|
        invariant Valid() && begun == i && batch == expired
        invariant RunBatch(env, State(), now) == RunBatch(env, q, now)
      {
        ghost var turn := State();
        BeginRunKeepsInv(turn, now);
        begun, log := begun + 1, log + [Run(heap[expired[i].timer], now)];
        runs := runs + 1;
        assert State() == BeginRun(turn, now);
        RunCallback();
        RunOne(env, turn, now);
      }
      RunNone(env, State(), now);
    }

    method ProcessExpiredTimers()
      requires Valid() && batch == []
      modifies this
      ensures Valid() && batch == []
      ensures State() == Pass(env, old(State()))
    {
      ghost var before := State();
      ghost var q := BeginPass(env, before);
      var now := env.clock(ticks);
      ticks := ticks + 1;
      ClockRead(before, State());
      var expired := GetExpired(now);
      assert State() == q;
      hide Inv, BeginPass, RunBatch, ReturnBatch, TakeExpired;
      RunExpired(expired, now);
      Reset(expired, now);
    }

    method GetNextTimeout() returns (ms: int)
      requires Valid() && batch == []
      modifies this`ticks
      ensures Valid() && old(ticks) <= ticks
      ensures ms == NextTimeout(timers, env.clock(old(ticks)))
    {
      ghost var before := State();
      hide Inv;
      if timers == [] {
        return -1;
      }
      var nextExpire := timers[0].when;
      var now := env.clock(ticks);
      ticks := ticks + 1;
      ClockRead(before, State());
      if nextExpire <= now {
        return 0;
      }
      return ((nextExpire - now) * 1000.0).Floor;
    }
  }

  lemma TimersAllocated(q: Queue)
    requires Inv(q)
    ensures forall e | e in q.timers :: e.timer in q.heap
  {
    hide Owned, Numbered, Sorted;
  }

  lemma ClockRead(q: Queue, q': Queue)
    requires Inv(q) && q' == q.(ticks := q.ticks + 1)
    ensures Inv(q')
  {
    hide Sorted, Numbers, UpTo, BatchOk, Held;
  }

  lemma ReturnOne(q: Queue, now: real)
    requires Inv(q) && q.begun == |q.batch| > 0 && q.batch[0].timer in q.heap && Inv(ReturnTimer(q, now))
    ensures ReturnBatch(q, now) == ReturnBatch(ReturnTimer(q, now), now)
  {
    hide Inv, ReturnTimer;
  }

  lemma ReturnKeepsRest(q: Queue, now: real)
    requires q.batch != [] && q.begun > 0 && q.batch[0].timer in q.heap
    ensures var q' := ReturnTimer(q, now);
            q'.batch == q.batch[1..] && q'.begun == q.begun - 1 && q'.log == q.log
  {
    hide InsertEntry;
  }

  lemma ReturnNone(q: Queue, now: real)
    requires Inv(q) && q.batch == [] && q.begun == 0
    ensures ReturnBatch(q, now) == q
  {
    hide Inv;
  }

  lemma RunOne(env: Env, q: Queue, now: real)
    requires ValidEnv(env) && Inv(q) && q.begun < |q.batch| && q.batch[q.begun].timer in q.heap
    requires Inv(BeginRun(q, now))
    ensures RunBatch(env, q, now) ==
            RunBatch(env, RunScript(env, BeginRun(q, now), env.script(|q.log|)), now)
  {
    hide Inv, RunScript;
  }

  lemma RunNone(env: Env, q: Queue, now: real)
    requires ValidEnv(env) && Inv(q) && q.begun == |q.batch|
    ensures RunBatch(env, q, now) == q
  {
    hide Inv;
  }
}
