/** The timer queue as a simple book: which numbers are due when, without addresses, indices or ownership.

    Every operation, every pass and every life of the queue does to the timers in it what a few lines do
    to the book. */
module TimerBook {
  import opened TimerSpec
  import opened TimerSafety
  import opened TimerHistory

  // ---- the book -------------------------------------------------------------------------------

  datatype Plan = Plan(when: real, interval: real)

  /** The plan of each number waiting, how many numbers were given out, how often the clock was read,
      and how many callbacks have been started. */
  datatype Book = Book(plans: map<nat, Plan>, created: nat, ticks: nat, runs: nat)

  function BookOp(env: Env, b: Book, op: Op): Book {
    match op
    case Add(delay, interval) =>
      b.(plans := b.plans[b.created + 1 := Plan(env.clock(b.ticks) + delay, interval)],
         created := b.created + 1, ticks := b.ticks + 1)
    case Cancel(id) => b.(plans := b.plans - {id})
  }

  function BookOps(env: Env, b: Book, ops: seq<Op>): Book {
    if ops == [] then b else BookOp(env, BookOps(env, b, ops[..|ops| - 1]), ops[|ops| - 1])
  }

  /** The next `n` callbacks, one after the other. */
  function BookRuns(env: Env, b: Book, n: nat): Book {
    if n == 0 then b
    else
      var before := BookRuns(env, b, n - 1);
      BookOps(env, before.(runs := before.runs + 1), env.script(before.runs))
  }

  function Due(plans: map<nat, Plan>, now: real): map<nat, Plan> {
    map id | id in plans && plans[id].when <= now :: plans[id]
  }

  function Rearmed(due: map<nat, Plan>, now: real): map<nat, Plan> {
    map id | id in due && due[id].interval > 0.0 :: Plan(now + due[id].interval, due[id].interval)
  }

  /** The numbers due leave the book. */
  function WithoutDue(b: Book, now: real): Book {
    b.(plans := b.plans - Due(b.plans, now).Keys, ticks := b.ticks + 1)
  }

  /** A pass: the numbers due leave, as many callbacks run, and the repeating ones come back. */
  function BookPass(env: Env, b: Book): Book {
    var now := env.clock(b.ticks);
    var b1 := BookRuns(env, WithoutDue(b, now), |Due(b.plans, now)|);
    b1.(plans := b1.plans + Rearmed(Due(b.plans, now), now))
  }

  function BookStep(env: Env, b: Book, e: Event): Book {
    match e
    case Outside(op) => BookOp(env, b, op)
    case TimerPass => BookPass(env, b)
  }

  function BookLife(env: Env, b: Book, events: seq<Event>): Book {
    if events == [] then b
    else BookStep(env, BookLife(env, b, events[..|events| - 1]), events[|events| - 1])
  }

  // ---- the book of a queue --------------------------------------------------------------------

  function PlanAt(t: Timer): Plan {
    Plan(t.when, t.interval)
  }

  function ActiveNumbers(active: set<Active>): set<nat> {
    set x | x in active :: x.sequence
  }

  ghost function PlansOf(q: Queue): map<nat, Plan>
    requires ActiveAllocated(q)
  {
    map id | id in ActiveNumbers(q.active) :: PlanAt(q.heap[FindActive(q, id)])
  }

  /** The timers in the indices, by number; those of the batch in hand are not among them. */
  ghost function BookOf(q: Queue): Book
    requires Inv(q)
  {
    ActiveInHeap(q);
    Book(PlansOf(q), q.created, q.ticks, |q.log|)
  }

  lemma ActiveInHeap(q: Queue)
    requires Inv(q)
    ensures ActiveAllocated(q)
  {
    hide Owned, Numbered, Sorted;
  }

  lemma PlanFound(q: Queue, x: Active)
    requires Inv(q) && x in q.active
    ensures x.timer in q.heap && q.heap[x.timer].sequence == x.sequence
    ensures x.sequence in BookOf(q).plans && BookOf(q).plans[x.sequence] == PlanAt(q.heap[x.timer])
  {
    FoundByNumber(q, x);
    hide Inv, PlanAt;
    assert x.sequence in ActiveNumbers(q.active);
  }

  /** A book that holds what the indices hold, and no more, is the book of the queue. */
  lemma PlansAre(q: Queue, m: map<nat, Plan>)
    requires Inv(q)
    requires forall x | x in q.active ::
               x.timer in q.heap && x.sequence in m && m[x.sequence] == PlanAt(q.heap[x.timer])
    requires forall id | id in m :: id in ActiveNumbers(q.active)
    ensures BookOf(q).plans == m
  {
    hide Inv, PlanAt;
    ActiveInHeap(q);
    var plans := BookOf(q).plans;
    forall id | id in ActiveNumbers(q.active) ensures id in m && plans[id] == m[id] {
      var x :| x in q.active && x.sequence == id;
      PlanFound(q, x);
    }
    assert plans.Keys == m.Keys;
  }

  // ---- single operations ----------------------------------------------------------------------

  lemma NumberGiven(q: Queue, a: Address)
    requires Inv(q) && a in q.heap
    ensures 0 < q.heap[a].sequence <= q.created
  {
    hide IndicesAgree, Owned;
    assert q.heap[a].sequence in Numbers(q.heap);
  }

  /** add_timer: at an address not in use a timer due `delay` from the clock reading, entered in both
      indices under the next number; every other timer and entry stays as it was. */
  lemma AddTimerEffect(env: Env, q: Queue, delay: real, interval: real) returns (a: Address)
    requires ValidEnv(env) && Inv(q)
    ensures var q' := DoOp(env, q, Add(delay, interval));
            var t := Timer(env.clock(q.ticks) + delay, interval, q.created + 1);
            && a !in q.heap && q'.heap == q.heap[a := t] && ArmedAt(q', a, t)
            && (forall e: Entry :: e in q'.timers <==> e in q.timers || e == Entry(t.when, a))
            && q'.active == q.active + {Active(a, t.sequence)}
            && q' == q.(heap := q'.heap, timers := q'.timers, active := q'.active,
                        created := q.created + 1, ticks := q.ticks + 1)
  {
    hide Inv, Sorted;
    a := env.malloc(q.created + 1, q.heap);
  }

  /** cancel_timer: the timer of that number, if it is in the indices, and nothing else goes. */
  lemma CancelEffect(env: Env, q: Queue, a: Address, id: nat)
    requires ValidEnv(env) && Inv(q) && Active(a, id) in q.active
    ensures var q' := DoOp(env, q, Cancel(id));
            && a in q.heap && q'.heap == q.heap - {a} && q'.active == q.active - {Active(a, id)}
            && (forall e: Entry :: e in q'.timers <==> e in q.timers && e != Entry(q.heap[a].when, a))
            && q' == q.(heap := q'.heap, timers := q'.timers, active := q'.active, deleted := q.deleted + {id})
  {
    FoundByNumber(q, Active(a, id));
    hide Inv, Sorted;
  }

  /** A timer entered under a number that the indices do not hold, at an address they do not. */
  lemma PlansGrow(q: Queue, q': Queue, a: Address, t: Timer)
    requires Inv(q) && Inv(q') && q'.heap == q.heap[a := t] && q'.active == q.active + {Active(a, t.sequence)}
    requires forall x | x in q.active :: x.timer != a && x.sequence != t.sequence
    ensures BookOf(q').plans == BookOf(q).plans[t.sequence := PlanAt(t)]
  {
    hide Inv, PlanAt, BookOf;
    var n, m := t.sequence, BookOf(q).plans[t.sequence := PlanAt(t)];
    forall x | x in q'.active
      ensures x.timer in q'.heap && x.sequence in m && m[x.sequence] == PlanAt(q'.heap[x.timer])
    {
      if x in q.active {
        PlanFound(q, x);
      }
    }
    assert Active(a, n) in q'.active;
    forall id | id in m ensures id in ActiveNumbers(q'.active) {
      if id != n {
        NumberHeld(q, id);
        assert Active(FindActive(q, id), id) in q'.active;
      }
    }
    PlansAre(q', m);
  }

  lemma AddRefines(env: Env, q: Queue, delay: real, interval: real)
    requires ValidEnv(env) && Inv(q)
    ensures BookOf(DoOp(env, q, Add(delay, interval))) == BookOp(env, BookOf(q), Add(delay, interval))
  {
    hide *;
    var q' := DoOp(env, q, Add(delay, interval));
    AddGrows(env, q, q', delay, interval);
    BookFields(q);
    BookFields(q');
    BookAdds(env, BookOf(q), delay, interval);
  }

  lemma AddGrows(env: Env, q: Queue, q': Queue, delay: real, interval: real)
    requires ValidEnv(env) && Inv(q) && Inv(q') && q' == DoOp(env, q, Add(delay, interval))
    ensures q'.created == q.created + 1 && q'.ticks == q.ticks + 1 && q'.log == q.log
    ensures BookOf(q').plans ==
            BookOf(q).plans[q.created + 1 := Plan(env.clock(q.ticks) + delay, interval)]
  {
    hide Inv, DoOp, PlansOf, BookOf, ArmedAt, ValidEnv;
    var t := Timer(env.clock(q.ticks) + delay, interval, q.created + 1);
    var a := AddTimerEffect(env, q, delay, interval);
    NewNumber(q, a);
    PlansGrow(q, q', a, t);
  }

  lemma NewNumber(q: Queue, a: Address)
    requires Inv(q) && a !in q.heap
    ensures forall x | x in q.active :: x.timer != a && x.sequence != q.created + 1
  {
    hide Inv, BookOf;
    forall x | x in q.active ensures x.timer != a && x.sequence != q.created + 1 {
      PlanFound(q, x);
      NumberGiven(q, x.timer);
    }
  }

  lemma BookFields(q: Queue)
    requires Inv(q)
    ensures var b := BookOf(q); b == Book(b.plans, q.created, q.ticks, |q.log|)
  {
    hide Inv;
  }

  lemma BookAdds(env: Env, b: Book, delay: real, interval: real)
    ensures BookOp(env, b, Add(delay, interval)) ==
            Book(b.plans[b.created + 1 := Plan(env.clock(b.ticks) + delay, interval)],
                 b.created + 1, b.ticks + 1, b.runs)
  {
  }

  lemma CancelRefines(env: Env, q: Queue, id: nat)
    requires ValidEnv(env) && Inv(q)
    ensures BookOf(DoOp(env, q, Cancel(id))) == BookOp(env, BookOf(q), Cancel(id))
  {
    hide Inv, DoOp, PlansOf, BookOf, ValidEnv, CancelTimer;
    NumberHeld(q, id);
    if HasActive(q, id) {
      var x := Active(FindActive(q, id), id);
      CancelEffect(env, q, x.timer, id);
      forall y | y in q.active && y != x ensures y.timer in q.heap && y.timer != x.timer {
        OneNumber(q, x, y);
      }
      PlansShrink(q, DoOp(env, q, Cancel(id)), {x});
    } else {
      CancelTakesEffectIff(q, id);
      CancelIs(env, q, id);
      assert BookOf(q).plans - {id} == BookOf(q).plans;
    }
    BookFields(q);
    BookFields(DoOp(env, q, Cancel(id)));
  }

  lemma CancelIs(env: Env, q: Queue, id: nat)
    requires ValidEnv(env) && Inv(q)
    ensures ActiveAllocated(q) && DoOp(env, q, Cancel(id)) == CancelTimer(q, id)
  {
    ActiveInHeap(q);
    hide Inv, CancelTimer;
  }

  /** Entries that leave the indices take their numbers with them. */
  lemma PlansShrink(q: Queue, q': Queue, gone: set<Active>)
    requires Inv(q) && Inv(q') && gone <= q.active && q'.active == q.active - gone
    requires forall x | x in q'.active :: x.timer in q.heap && x.timer in q'.heap && q'.heap[x.timer] == q.heap[x.timer]
    ensures BookOf(q').plans == BookOf(q).plans - ActiveNumbers(gone)
  {
    hide Inv, BookOf, PlanAt;
    var m: map<nat, Plan> := BookOf(q).plans - ActiveNumbers(gone);
    forall x | x in q'.active
      ensures x.timer in q'.heap && x.sequence in m && m[x.sequence] == PlanAt(q'.heap[x.timer])
    {
      PlanFound(q, x);
      forall y | y in gone ensures y.sequence != x.sequence {
        OneNumber(q, x, y);
      }
    }
    forall n | n in m ensures n in ActiveNumbers(q'.active) {
      NumberHeld(q, n);
      var x := Active(FindActive(q, n), n);
      assert x !in gone;
      assert x in q'.active;
    }
    PlansAre(q', m);
  }

  lemma NumberHeld(q: Queue, id: nat)
    requires Inv(q)
    ensures id in BookOf(q).plans <==> HasActive(q, id)
  {
    hide Inv;
    if HasActive(q, id) {
      assert Active(FindActive(q, id), id).sequence in ActiveNumbers(q.active);
    }
    if id in BookOf(q).plans {
      var x :| x in q.active && x.sequence == id;
      assert Active(x.timer, id) in q.active;
    }
  }

  /** A number is in the indices once, and under one address. */
  lemma OneNumber(q: Queue, x: Active, y: Active)
    requires Inv(q) && x in q.active && y in q.active
    ensures x.timer in q.heap && y.timer in q.heap
    ensures x.sequence == y.sequence || x.timer == y.timer ==> x == y
  {
    FoundByNumber(q, x);
    FoundByNumber(q, y);
    hide Inv;
  }

  lemma OpRefines(env: Env, q: Queue, op: Op)
    requires ValidEnv(env) && Inv(q)
    ensures BookOf(DoOp(env, q, op)) == BookOp(env, BookOf(q), op)
  {
    match op
    case Add(delay, interval) => AddRefines(env, q, delay, interval);
    case Cancel(id) => CancelRefines(env, q, id);
  }

  // ---- callbacks ------------------------------------------------------------------------------

  lemma {:induction false} FirstOp(env: Env, b: Book, ops: seq<Op>)
    requires ops != []
    ensures BookOps(env, b, ops) == BookOps(env, BookOp(env, b, ops[0]), ops[1..])
  {
    hide BookOp;
    if |ops| > 1 {
      FirstOp(env, b, ops[..|ops| - 1]);
      assert ops[..|ops| - 1][1..] == ops[1..][..|ops| - 2];
    }
  }

  lemma {:induction false} ScriptRefines(env: Env, q: Queue, ops: seq<Op>)
    requires ValidEnv(env) && Inv(q)
    ensures BookOf(RunScript(env, q, ops)) == BookOps(env, BookOf(q), ops)
    decreases |ops|
  {
    hide Inv, BookOf, BookOp, DoOp;
    if ops != [] {
      OpRefines(env, q, ops[0]);
      ScriptRefines(env, DoOp(env, q, ops[0]), ops[1..]);
      FirstOp(env, BookOf(q), ops);
    }
  }

  /** The first of the next callbacks. */
  function BookRun(env: Env, b: Book): Book {
    BookOps(env, b.(runs := b.runs + 1), env.script(b.runs))
  }

  lemma {:induction false} FirstRun(env: Env, b: Book, n: nat)
    requires n > 0
    ensures BookRuns(env, b, n) == BookRuns(env, BookRun(env, b), n - 1)
  {
    hide BookOps;
    if n > 1 {
      FirstRun(env, b, n - 1);
    }
  }

  lemma RunRefines(env: Env, q: Queue, now: real)
    requires ValidEnv(env) && Inv(q) && q.begun < |q.batch| && q.batch[q.begun].timer in q.heap
    requires Inv(BeginRun(q, now))
    ensures var q2 := RunScript(env, BeginRun(q, now), env.script(|q.log|));
            BookOf(q2) == BookRun(env, BookOf(q)) && q2.batch == q.batch && q2.begun == q.begun + 1
  {
    hide Inv, RunScript, BookOps, BookOf;
    var q1 := BeginRun(q, now);
    ScriptRefines(env, q1, env.script(|q.log|));
    BeginBook(q, now);
    BookFields(q);
  }

  lemma BeginBook(q: Queue, now: real)
    requires Inv(q) && q.begun < |q.batch| && q.batch[q.begun].timer in q.heap && Inv(BeginRun(q, now))
    ensures BookOf(BeginRun(q, now)) == BookOf(q).(runs := |q.log| + 1)
  {
    ActiveInHeap(q);
    hide Inv, BookOf;
    SamePlans(q, BeginRun(q, now));
    BookFields(q);
    BookFields(BeginRun(q, now));
  }

  lemma SamePlans(q: Queue, q': Queue)
    requires Inv(q) && Inv(q') && q'.active == q.active && q'.heap == q.heap
    ensures BookOf(q').plans == BookOf(q).plans
  {
    ActiveInHeap(q);
    NoneGone(BookOf(q).plans);
    hide *;
    PlansShrink(q, q', {});
  }

  lemma NoneGone(plans: map<nat, Plan>)
    ensures plans - ActiveNumbers({}) == plans
  {
    assert ActiveNumbers({}) == {};
  }

  lemma {:induction false} BatchRefines(env: Env, q: Queue, now: real)
    requires ValidEnv(env) && Inv(q) && q.begun <= |q.batch|
    ensures BookOf(RunBatch(env, q, now)) == BookRuns(env, BookOf(q), |q.batch| - q.begun)
    decreases |q.batch| - q.begun
  {
    hide Inv, RunScript, BookOf, BeginRun, BookRun;
    if q.begun < |q.batch| {
      BeginRunKeepsInv(q, now);
      RunRefines(env, q, now);
      BatchRefines(env, RunScript(env, BeginRun(q, now), env.script(|q.log|)), now);
      FirstRun(env, BookOf(q), |q.batch| - q.begun);
    }
  }

  // ---- the start of a pass --------------------------------------------------------------------

  lemma EntryActive(q: Queue, e: Entry)
    requires Inv(q) && e in q.timers
    ensures e.timer in q.heap && q.heap[e.timer].when == e.when
    ensures Active(e.timer, q.heap[e.timer].sequence) in q.active
  {
    hide Owned, Numbered, Sorted;
    assert e.timer in Idle(q);
  }

  lemma ActiveEntry(q: Queue, x: Active)
    requires Inv(q) && x in q.active
    ensures x.timer in q.heap && q.heap[x.timer].sequence == x.sequence
    ensures Entry(q.heap[x.timer].when, x.timer) in q.timers
  {
    hide Owned, Numbered, Sorted;
    assert x.timer in Idle(q);
  }

  function NumbersOf(h: Heap, batch: seq<Entry>): (numbers: seq<nat>)
    requires forall e | e in batch :: e.timer in h
    ensures |numbers| == |batch|
    ensures forall i | 0 <= i < |batch| :: numbers[i] == h[batch[i].timer].sequence
  {
    seq(|batch|, i requires 0 <= i < |batch| => h[batch[i].timer].sequence)
  }

  ghost predicate Distinct(s: seq<nat>) {
    forall i, j | 0 <= i < j < |s| :: s[i] != s[j]
  }

  lemma {:induction false} DistinctSize(s: seq<nat>, all: set<nat>)
    requires Distinct(s) && forall n :: n in s <==> n in all
    ensures |s| == |all|
  {
    if s == [] {
      assert all == {};
    } else {
      var front, last := s[..|s| - 1], s[|s| - 1];
      assert s == front + [last];
      assert last !in front;
      DistinctSize(front, all - {last});
    }
  }

  lemma BatchDistinct(q: Queue)
    requires Inv(q)
    ensures forall e | e in q.batch :: e.timer in q.heap
    ensures Distinct(NumbersOf(q.heap, q.batch))
  {
    BatchAllocated(q);
    hide IndicesAgree, Numbers, UpTo;
    forall i, j | 0 <= i < j < |q.batch|
      ensures q.heap[q.batch[i].timer].sequence != q.heap[q.batch[j].timer].sequence
    {
      assert q.batch[i] in q.batch && q.batch[j] in q.batch;
    }
  }

  /** The numbers in the batch are those whose plan is due. */
  lemma TakenAreDue(q: Queue, batch: seq<Entry>, now: real)
    requires Inv(q) && forall e :: e in batch <==> e in q.timers && e.when <= now
    ensures forall e | e in batch :: e.timer in q.heap
    ensures ActiveOf(q.heap, batch) <= q.active
    ensures ActiveNumbers(ActiveOf(q.heap, batch)) == Due(BookOf(q).plans, now).Keys
    ensures forall e | e in batch ::
              var t := q.heap[e.timer];
              t.sequence in Due(BookOf(q).plans, now) && Due(BookOf(q).plans, now)[t.sequence] == PlanAt(t)
  {
    hide Inv, BookOf;
    var plans := BookOf(q).plans;
    forall e | e in batch
      ensures e.timer in q.heap && Active(e.timer, q.heap[e.timer].sequence) in q.active
      ensures var t := q.heap[e.timer]; t.sequence in plans && plans[t.sequence] == PlanAt(t) && t.when <= now
    {
      EntryActive(q, e);
      PlanFound(q, Active(e.timer, q.heap[e.timer].sequence));
    }
    forall id | id in plans && plans[id].when <= now ensures id in ActiveNumbers(ActiveOf(q.heap, batch)) {
      NumberHeld(q, id);
      var x := Active(FindActive(q, id), id);
      PlanFound(q, x);
      ActiveEntry(q, x);
      assert Entry(q.heap[x.timer].when, x.timer) in batch;
      assert x in ActiveOf(q.heap, batch);
    }
  }

  /** The start of a pass takes the due numbers out of the book, and as many callbacks are to run. */
  lemma BeginRefines(env: Env, q: Queue)
    requires ValidEnv(env) && Inv(q) && q.batch == []
    ensures var b, now, q2 := BookOf(q), env.clock(q.ticks), BeginPass(env, q);
            && BookOf(q2) == WithoutDue(b, now)
            && |q2.batch| == |Due(b.plans, now)|
  {
    hide Inv, BookOf, BeginPass, ActiveOf, ActiveNumbers, ValidEnv, DueCount, Sorted;
    var b, now, q2 := BookOf(q), env.clock(q.ticks), BeginPass(env, q);
    IndexSorted(q, now);
    TakenAreDue(q, q2.batch, now);
    PassTakes(env, q);
    PlansShrink(q, q2, ActiveOf(q.heap, q2.batch));
    BookFields(q);
    BookFields(q2);
    BatchSize(q, q2, now);
  }

  lemma PassTakes(env: Env, q: Queue)
    requires ValidEnv(env) && Inv(q) && q.batch == []
    ensures var q2 := BeginPass(env, q);
            && (forall e | e in q2.batch :: e.timer in q.heap)
            && q2.active == q.active - ActiveOf(q.heap, q2.batch)
            && (forall x | x in q2.active :: x.timer in q.heap)
  {
    ActiveInHeap(q);
    BatchAllocated(BeginPass(env, q));
    hide Inv, ActiveOf, DueCount, Sorted, ValidEnv;
  }

  lemma BatchSize(q: Queue, q2: Queue, now: real)
    requires Inv(q) && Inv(q2) && q2.heap == q.heap
    requires forall e :: e in q2.batch <==> e in q.timers && e.when <= now
    ensures |q2.batch| == |Due(BookOf(q).plans, now)|
  {
    hide Inv, BookOf, Due, ActiveNumbers, Distinct;
    TakenAreDue(q, q2.batch, now);
    BatchDistinct(q2);
    var numbers, due := NumbersOf(q.heap, q2.batch), Due(BookOf(q).plans, now).Keys;
    NumbersAre(q.heap, q2.batch);
    DistinctSize(numbers, due);
  }

  lemma NumbersAre(h: Heap, batch: seq<Entry>)
    requires forall e | e in batch :: e.timer in h
    ensures forall n :: n in NumbersOf(h, batch) <==> n in ActiveNumbers(ActiveOf(h, batch))
  {
    var numbers := NumbersOf(h, batch);
    forall n | n in numbers ensures n in ActiveNumbers(ActiveOf(h, batch)) {
      var i :| 0 <= i < |numbers| && numbers[i] == n;
      assert batch[i] in batch;
      assert Active(batch[i].timer, n) in ActiveOf(h, batch);
    }
    forall n | n in ActiveNumbers(ActiveOf(h, batch)) ensures n in numbers {
      var e :| e in batch && h[e.timer].sequence == n;
      var i :| 0 <= i < |batch| && batch[i] == e;
      assert numbers[i] == n;
    }
  }

  // ---- the end of a pass ----------------------------------------------------------------------

  /** What returning the batch puts back. */
  function Back(h: Heap, batch: seq<Entry>, now: real): map<nat, Plan>
    requires forall e | e in batch :: e.timer in h
  {
    if batch == [] then map[]
    else
      var t, rest := h[batch[0].timer], Back(h, batch[1..], now);
      if t.Repeats() then map[t.sequence := Plan(now + t.interval, t.interval)] + rest else rest
  }

  lemma {:induction false} BackSame(h: Heap, h': Heap, batch: seq<Entry>, now: real)
    requires forall e | e in batch :: e.timer in h && e.timer in h' && h'[e.timer] == h[e.timer]
    ensures Back(h', batch, now) == Back(h, batch, now)
  {
    if batch != [] {
      BackSame(h, h', batch[1..], now);
    }
  }

  lemma {:induction false} BackHolds(h: Heap, batch: seq<Entry>, now: real, i: nat)
    requires (forall e | e in batch :: e.timer in h) && Distinct(NumbersOf(h, batch))
    requires i < |batch| && h[batch[i].timer].Repeats()
    ensures var t, back := h[batch[i].timer], Back(h, batch, now);
            t.sequence in back && back[t.sequence] == Plan(now + t.interval, t.interval)
  {
    RestDistinct(h, batch);
    var rest := batch[1..];
    if i > 0 {
      BackHolds(h, rest, now, i - 1);
    } else {
      forall n | n in Back(h, rest, now) ensures n != NumbersOf(h, batch)[0] {
        var k := BackFrom(h, rest, now, n);
        assert NumbersOf(h, batch)[k + 1] == n;
      }
    }
  }

  lemma RestDistinct(h: Heap, batch: seq<Entry>)
    requires batch != [] && (forall e | e in batch :: e.timer in h) && Distinct(NumbersOf(h, batch))
    ensures (forall e | e in batch[1..] :: e.timer in h) && Distinct(NumbersOf(h, batch[1..]))
  {
    assert NumbersOf(h, batch[1..]) == NumbersOf(h, batch)[1..];
  }

  lemma {:induction false} BackFrom(h: Heap, batch: seq<Entry>, now: real, n: nat) returns (i: nat)
    requires (forall e | e in batch :: e.timer in h) && n in Back(h, batch, now)
    ensures i < |batch| && h[batch[i].timer].sequence == n && h[batch[i].timer].Repeats()
  {
    if n in Back(h, batch[1..], now) {
      i := BackFrom(h, batch[1..], now, n);
      i := i + 1;
    } else {
      i := 0;
    }
  }

  /** Returning one timer of the batch puts its plan back if it repeats. */
  lemma ReturnOneRefines(q: Queue, now: real)
    requires Inv(q) && q.begun == |q.batch| > 0 && q.batch[0].timer in q.heap && Inv(ReturnTimer(q, now))
    ensures var t, q' := q.heap[q.batch[0].timer], ReturnTimer(q, now);
            && BookOf(q').created == q.created && BookOf(q').ticks == q.ticks && BookOf(q').runs == |q.log|
            && BookOf(q').plans ==
               if t.Repeats() then BookOf(q).plans[t.sequence := Plan(now + t.interval, t.interval)]
               else BookOf(q).plans
  {
    hide Inv, BookOf, InsertEntry;
    var a, q' := q.batch[0].timer, ReturnTimer(q, now);
    var t := q.heap[a];
    FrontNotActive(q);
    BookFields(q');
    if t.Repeats() {
      PlansGrow(q, q', a, t.Restart(now));
    } else {
      assert q'.heap == q.heap - {a};
      PlansShrink(q, q', {});
      NoneGone(BookOf(q).plans);
    }
  }

  lemma FrontNotActive(q: Queue)
    requires Inv(q) && q.batch != [] && q.batch[0].timer in q.heap
    ensures forall x | x in q.active ::
              x.timer in q.heap && x.timer != q.batch[0].timer && x.sequence != q.heap[q.batch[0].timer].sequence
  {
    ActiveInHeap(q);
    hide Sorted, Numbers, UpTo;
    assert q.batch[0] in q.batch;
    assert forall x | x in q.active :: x.timer in Idle(q);
  }

  lemma {:induction false} ReturnRefines(q: Queue, now: real)
    requires Inv(q) && q.begun == |q.batch|
    ensures forall e | e in q.batch :: e.timer in q.heap
    ensures BookOf(ReturnBatch(q, now)) ==
            BookOf(q).(plans := BookOf(q).plans + Back(q.heap, q.batch, now))
    decreases |q.batch|
  {
    hide Inv, BookOf, ReturnTimer;
    BatchAllocated(q);
    BookFields(q);
    if q.batch == [] {
      assert BookOf(q).plans + map[] == BookOf(q).plans;
    } else {
      BeginsReturned(q, now);
      ReturnOneRefines(q, now);
      var q', t := ReturnTimer(q, now), q.heap[q.batch[0].timer];
      FrontApart(q);
      RestKept(q, now);
      ReturnRefines(q', now);
      BackSame(q.heap, q'.heap, q'.batch, now);
      var p, rest := Plan(now + t.interval, t.interval), Back(q.heap, q'.batch, now);
      PutBack(BookOf(q).plans, t.sequence, p, rest);
      BookFields(q');
    }
  }

  lemma PutBack(plans: map<nat, Plan>, n: nat, p: Plan, rest: map<nat, Plan>)
    ensures plans[n := p] + rest == plans + (map[n := p] + rest)
  {
  }

  lemma RestKept(q: Queue, now: real)
    requires q.begun == |q.batch| > 0 && q.batch[0].timer in q.heap
    requires forall i | 0 < i < |q.batch| :: q.batch[i].timer != q.batch[0].timer && q.batch[i].timer in q.heap
    ensures var q' := ReturnTimer(q, now);
            && q'.batch == q.batch[1..]
            && forall e | e in q'.batch ::
                 e.timer in q.heap && e.timer in q'.heap && q'.heap[e.timer] == q.heap[e.timer]
  {
    hide InsertEntry;
  }

  // ---- whole passes and lives -----------------------------------------------------------------

  lemma BackIsRearmed(q: Queue, q2: Queue, now: real)
    requires Inv(q) && Inv(q2) && q2.heap == q.heap
    requires forall e :: e in q2.batch <==> e in q.timers && e.when <= now
    ensures forall e | e in q2.batch :: e.timer in q2.heap
    ensures Back(q2.heap, q2.batch, now) == Rearmed(Due(BookOf(q).plans, now), now)
  {
    hide *;
    TakenAreDue(q, q2.batch, now);
    BatchDistinct(q2);
    NumbersAre(q.heap, q2.batch);
    BackOfDue(q.heap, q2.batch, Due(BookOf(q).plans, now), now);
  }

  lemma BackOfDue(h: Heap, batch: seq<Entry>, due: map<nat, Plan>, now: real)
    requires (forall e | e in batch :: e.timer in h) && Distinct(NumbersOf(h, batch))
    requires forall n :: n in NumbersOf(h, batch) <==> n in due
    requires forall e | e in batch ::
               var t := h[e.timer]; t.sequence in due && due[t.sequence] == PlanAt(t)
    ensures Back(h, batch, now) == Rearmed(due, now)
  {
    hide Back, Distinct;
    var numbers, back := NumbersOf(h, batch), Back(h, batch, now);
    forall n | n in due && due[n].interval > 0.0
      ensures n in back && back[n] == Plan(now + due[n].interval, due[n].interval)
    {
      assert n in numbers;
      var i :| 0 <= i < |numbers| && numbers[i] == n;
      assert batch[i] in batch;
      BackHolds(h, batch, now, i);
    }
    forall n | n in back ensures n in due && due[n].interval > 0.0 {
      var i := BackFrom(h, batch, now, n);
      assert batch[i] in batch;
    }
  }

  /** A whole pass, whatever its callbacks add and cancel, does to the timers what `BookPass` says. */
  lemma PassRefines(env: Env, q: Queue)
    requires ValidEnv(env) && Inv(q) && q.batch == []
    ensures BookOf(Pass(env, q)) == BookPass(env, BookOf(q))
  {
    hide *;
    var now := env.clock(q.ticks);
    var q2 := BeginPass(env, q);
    BatchAllocated(q2);
    BeginRefines(env, q);
    PassRearms(env, q);
    RunAndReturn(env, q2, now);
    PassIs(env, q);
    BookPassIs(env, BookOf(q));
    BookFields(q);
  }

  lemma PassRearms(env: Env, q: Queue)
    requires ValidEnv(env) && Inv(q) && q.batch == []
    ensures var now, q2 := env.clock(q.ticks), BeginPass(env, q);
            && (forall e | e in q2.batch :: e.timer in q2.heap)
            && Back(q2.heap, q2.batch, now) == Rearmed(Due(BookOf(q).plans, now), now)
  {
    hide *;
    IndexSorted(q, env.clock(q.ticks));
    BackIsRearmed(q, BeginPass(env, q), env.clock(q.ticks));
  }

  lemma PassIs(env: Env, q: Queue)
    requires ValidEnv(env) && Inv(q) && q.batch == []
    ensures var now, q2 := env.clock(q.ticks), BeginPass(env, q);
            Pass(env, q) == ReturnBatch(RunBatch(env, q2, now), now)
  {
    hide Inv, BeginPass, RunBatch, ReturnBatch, ValidEnv;
  }

  lemma BookPassIs(env: Env, b: Book)
    ensures var now := env.clock(b.ticks);
            var b1 := BookRuns(env, WithoutDue(b, now), |Due(b.plans, now)|);
            BookPass(env, b) == b1.(plans := b1.plans + Rearmed(Due(b.plans, now), now))
  {
    hide Due, BookRuns, Rearmed, WithoutDue;
  }

  lemma RunAndReturn(env: Env, q: Queue, now: real)
    requires ValidEnv(env) && Inv(q) && q.begun <= |q.batch|
    ensures forall e | e in q.batch :: e.timer in q.heap
    ensures var b := BookRuns(env, BookOf(q), |q.batch| - q.begun);
            BookOf(ReturnBatch(RunBatch(env, q, now), now)) == b.(plans := b.plans + Back(q.heap, q.batch, now))
  {
    hide *;
    var q3 := RunBatch(env, q, now);
    BatchAllocated(q);
    BatchRefines(env, q, now);
    BatchHeapKept(env, q, now);
    ReturnRefines(q3, now);
    BackSame(q.heap, q3.heap, q.batch, now);
  }

  lemma StepRefines(env: Env, q: Queue, e: Event)
    requires ValidEnv(env) && Inv(q) && q.batch == []
    ensures BookOf(Step(env, q, e)) == BookStep(env, BookOf(q), e)
  {
    hide Inv, BookOf, BookOp, BookPass, Pass, DoOp;
    match e
    case Outside(op) => OpRefines(env, q, op);
    case TimerPass => PassRefines(env, q);
  }

  /** Refinement: for every life of the queue, the timers it holds are those of the book. */
  lemma {:induction false} LifeRefines(env: Env, q: Queue, events: seq<Event>)
    requires ValidEnv(env) && Inv(q) && q.batch == []
    ensures BookOf(Life(env, q, events)) == BookLife(env, BookOf(q), events)
    decreases |events|
  {
    hide Inv, BookOf, BookStep, Step;
    if events != [] {
      var front := events[..|events| - 1];
      LifeRefines(env, q, front);
      StepRefines(env, Life(env, q, front), events[|events| - 1]);
    }
  }

  // ---- when a timer runs ----------------------------------------------------------------------

  /** As far as the number goes, `b'` holds what `b` held, or has lost it - only if that was asked for. */
  predicate Keeps(b: Book, b': Book, id: nat, asked: bool) {
    && b.created <= b'.created
    && (id in b'.plans ==> id in b.plans && b'.plans[id] == b.plans[id])
    && (id in b.plans && id !in b'.plans ==> asked)
  }

  lemma {:induction false} OpsKeep(env: Env, b: Book, ops: seq<Op>, id: nat)
    requires id <= b.created
    ensures Keeps(b, BookOps(env, b, ops), id, Cancel(id) in ops) && BookOps(env, b, ops).runs == b.runs
  {
    if ops != [] {
      OpsKeep(env, b, ops[..|ops| - 1], id);
    }
  }

  /** One of the callbacks from the `lo`-th on, before the `hi`-th, asks for the cancellation. */
  ghost predicate Asked(env: Env, lo: nat, hi: nat, id: nat) {
    exists n: nat :: lo <= n < hi && Cancel(id) in env.script(n)
  }

  lemma {:induction false} RunsKeep(env: Env, b: Book, n: nat, id: nat)
    requires id <= b.created
    ensures BookRuns(env, b, n).runs == b.runs + n
    ensures Keeps(b, BookRuns(env, b, n), id, Asked(env, b.runs, b.runs + n, id))
  {
    if n > 0 {
      hide BookOps;
      RunsKeep(env, b, n - 1, id);
      var before := BookRuns(env, b, n - 1);
      OpsKeep(env, before.(runs := before.runs + 1), env.script(before.runs), id);
    }
  }

  lemma PassKeeps(env: Env, b: Book, id: nat)
    requires id <= b.created
    ensures var now, b' := env.clock(b.ticks), BookPass(env, b);
            && b.created <= b'.created && b.runs <= b'.runs
            && (id in b.plans && b.plans[id].when > now ==> Keeps(b, b', id, Asked(env, b.runs, b'.runs, id)))
            && (id in b'.plans ==>
                  (id in b.plans &&
                   (b'.plans[id] == b.plans[id] || (b.plans[id].when <= now && b'.plans[id].when >= now))))
  {
    hide *;
    var now := env.clock(b.ticks);
    var n, b0 := |Due(b.plans, now)|, WithoutDue(b, now);
    var b1 := BookRuns(env, b0, n);
    DueLeave(b, now);
    RunsKeep(env, b0, n, id);
    KeptAround(b, b1, now, id, Asked(env, b0.runs, b0.runs + n, id));
    BookPassIs(env, b);
  }

  lemma DueLeave(b: Book, now: real)
    ensures WithoutDue(b, now).runs == b.runs && WithoutDue(b, now).created == b.created
  {
  }

  lemma KeptAround(b: Book, b1: Book, now: real, id: nat, asked: bool)
    requires Keeps(WithoutDue(b, now), b1, id, asked)
    ensures var b' := b1.(plans := b1.plans + Rearmed(Due(b.plans, now), now));
            && b.created <= b'.created
            && (id in b.plans && b.plans[id].when > now ==> Keeps(b, b', id, asked))
            && (id in b'.plans ==>
                  (id in b.plans &&
                   (b'.plans[id] == b.plans[id] || (b.plans[id].when <= now && b'.plans[id].when >= now))))
  {
  }

  /** The runs a pass adds to the log are those of the numbers due, each under its plan. */
  lemma PassLogsDue(env: Env, q: Queue)
    requires ValidEnv(env) && Inv(q) && q.batch == []
    ensures var now, q', plans := env.clock(q.ticks), Pass(env, q), BookOf(q).plans;
            && q.log <= q'.log
            && (forall i | |q.log| <= i < |q'.log| ::
                  var r := q'.log[i];
                  && r.passTime == now && r.timer.sequence in plans && PlanAt(r.timer) == plans[r.timer.sequence]
                  && r.timer.when <= now)
            && (forall id | id in plans && plans[id].when <= now ::
                  exists i :: |q.log| <= i < |q'.log| &&
                    q'.log[i] == Run(Timer(plans[id].when, plans[id].interval, id), now))
  {
    hide Inv, BookOf, Pass, DueCount, Sorted, ValidEnv;
    PassRunsExactlyDue(env, q);
    forall e | e in q.timers ensures e.timer in q.heap {
      EntryActive(q, e);
    }
    var now, q', plans := env.clock(q.ticks), Pass(env, q), BookOf(q).plans;
    var due := q.timers[..DueCount(q.timers, now)];
    var runs := RunsOf(q.heap, due, now);
    forall i | |q.log| <= i < |q'.log|
      ensures var r := q'.log[i];
              && r.passTime == now && r.timer.sequence in plans && PlanAt(r.timer) == plans[r.timer.sequence]
              && r.timer.when <= now
    {
      var e := due[i - |q.log|];
      assert q'.log[i] == runs[i - |q.log|] && e in due;
      EntryActive(q, e);
      PlanFound(q, Active(e.timer, q.heap[e.timer].sequence));
    }
    forall id | id in plans && plans[id].when <= now
      ensures exists i :: |q.log| <= i < |q'.log| &&
                q'.log[i] == Run(Timer(plans[id].when, plans[id].interval, id), now)
    {
      NumberHeld(q, id);
      var x := Active(FindActive(q, id), id);
      PlanFound(q, x);
      ActiveEntry(q, x);
      var k :| 0 <= k < |due| && due[k] == Entry(q.heap[x.timer].when, x.timer);
      assert q'.log[|q.log| + k] == runs[k];
    }
  }

  /** The plan of a number, if it has one, is not before `when`; and that number has been given out. */
  predicate NotEarly(b: Book, id: nat, when: real) {
    id <= b.created && (id in b.plans ==> b.plans[id].when >= when)
  }

  lemma StepNotEarly(env: Env, b: Book, e: Event, id: nat, when: real)
    requires NotEarly(b, id, when)
    ensures NotEarly(BookStep(env, b, e), id, when)
  {
    hide BookPass;
    if e.TimerPass? {
      PassKeeps(env, b, id);
    }
  }

  lemma {:induction false} LifeNotEarly(env: Env, q: Queue, id: nat, when: real, events: seq<Event>)
    requires ValidEnv(env) && Inv(q) && q.batch == [] && NotEarly(BookOf(q), id, when)
    ensures NotEarly(BookOf(Life(env, q, events)), id, when)
    ensures q.log <= Life(env, q, events).log
    ensures forall i | |q.log| <= i < |Life(env, q, events).log| && Life(env, q, events).log[i].timer.sequence == id ::
              Life(env, q, events).log[i].passTime >= when
    decreases |events|
  {
    hide Inv, BookOf, BookStep, Step, NotEarly, ValidEnv;
    if events != [] {
      var front, e := events[..|events| - 1], events[|events| - 1];
      LifeNotEarly(env, q, id, when, front);
      var m := Life(env, q, front);
      StepRefines(env, m, e);
      StepNotEarly(env, BookOf(m), e, id, when);
      StepLogsLate(env, m, e, id, when);
    }
  }

  lemma StepLogsLate(env: Env, q: Queue, e: Event, id: nat, when: real)
    requires ValidEnv(env) && Inv(q) && q.batch == [] && NotEarly(BookOf(q), id, when)
    ensures var q' := Step(env, q, e);
            && q.log <= q'.log
            && forall i | |q.log| <= i < |q'.log| && q'.log[i].timer.sequence == id ::
                 e.TimerPass? && q'.log[i].passTime == env.clock(q.ticks) >= when
  {
    hide Inv, BookOf, Pass, ValidEnv;
    match e
    case Outside(op) => hide DoOp;
    case TimerPass => PassLogsDue(env, q);
  }

  /** What no event of a life, and no callback run in it, asked for. */
  ghost predicate NeverAsked(env: Env, q: Queue, events: seq<Event>, id: nat)
    requires ValidEnv(env) && Inv(q) && q.batch == []
  {
    && Outside(Cancel(id)) !in events
    && forall n: nat | |q.log| <= n < |Life(env, q, events).log| :: Cancel(id) !in env.script(n)
  }

  /** The passes of a life were all before `when`. */
  ghost predicate PassesBefore(env: Env, q: Queue, events: seq<Event>, when: real)
    requires ValidEnv(env) && Inv(q) && q.batch == []
    decreases |events|
  {
    events == [] ||
    var front := events[..|events| - 1];
    && PassesBefore(env, q, front, when)
    && (events[|events| - 1].TimerPass? ==> env.clock(Life(env, q, front).ticks) < when)
  }

  lemma {:induction false} WaitsForPass(env: Env, q: Queue, id: nat, plan: Plan, events: seq<Event>)
    requires ValidEnv(env) && Inv(q) && q.batch == []
    requires id <= q.created && id in BookOf(q).plans && BookOf(q).plans[id] == plan
    requires NeverAsked(env, q, events, id) && PassesBefore(env, q, events, plan.when)
    ensures var q' := Life(env, q, events);
            q.log <= q'.log && id <= q'.created && id in BookOf(q').plans && BookOf(q').plans[id] == plan
    decreases |events|
  {
    hide Inv, BookOf, BookStep, Step, ValidEnv;
    if events != [] {
      var front, e := events[..|events| - 1], events[|events| - 1];
      var m := Life(env, q, front);
      StepLogs(env, m, e);
      FrontNeverAsked(env, q, events, id);
      WaitsForPass(env, q, id, plan, front);
      LastNeverAsked(env, q, events, id);
      StepWaits(env, m, e, id, plan);
    }
  }

  lemma StepLogs(env: Env, q: Queue, e: Event)
    requires ValidEnv(env) && Inv(q) && q.batch == []
    ensures q.log <= Step(env, q, e).log
  {
    hide Inv, BookOf, Pass, DoOp, ValidEnv;
    if e.TimerPass? {
      PassLogsDue(env, q);
    }
  }

  lemma {:induction false} LifeLogs(env: Env, q: Queue, events: seq<Event>)
    requires ValidEnv(env) && Inv(q) && q.batch == []
    ensures q.log <= Life(env, q, events).log
    decreases |events|
  {
    hide Inv, Step, ValidEnv;
    if events != [] {
      LifeLogs(env, q, events[..|events| - 1]);
      StepLogs(env, Life(env, q, events[..|events| - 1]), events[|events| - 1]);
    }
  }

  lemma FrontNeverAsked(env: Env, q: Queue, events: seq<Event>, id: nat)
    requires ValidEnv(env) && Inv(q) && q.batch == [] && events != [] && NeverAsked(env, q, events, id)
    ensures NeverAsked(env, q, events[..|events| - 1], id)
  {
    hide Inv, Step, ValidEnv;
    StepLogs(env, Life(env, q, events[..|events| - 1]), events[|events| - 1]);
  }

  lemma LastNeverAsked(env: Env, q: Queue, events: seq<Event>, id: nat)
    requires ValidEnv(env) && Inv(q) && q.batch == [] && events != [] && NeverAsked(env, q, events, id)
    ensures var m, q' := Life(env, q, events[..|events| - 1]), Life(env, q, events);
            events[|events| - 1] != Outside(Cancel(id)) && !Asked(env, |m.log|, |q'.log|, id)
  {
    hide Inv, Step, ValidEnv;
    LifeLogs(env, q, events[..|events| - 1]);
  }

  lemma StepWaits(env: Env, q: Queue, e: Event, id: nat, plan: Plan)
    requires ValidEnv(env) && Inv(q) && q.batch == []
    requires id <= q.created && id in BookOf(q).plans && BookOf(q).plans[id] == plan
    requires e != Outside(Cancel(id)) && !Asked(env, |q.log|, |Step(env, q, e).log|, id)
    requires e.TimerPass? ==> env.clock(q.ticks) < plan.when
    ensures var q' := Step(env, q, e);
            id <= q'.created && id in BookOf(q').plans && BookOf(q').plans[id] == plan
  {
    hide Inv, PlansOf, BookPass, Pass, DoOp, ValidEnv, Asked;
    StepRefines(env, q, e);
    if e.TimerPass? {
      PassKeeps(env, BookOf(q), id);
    }
  }

  /** The rest of a callback that has just made a call, the rest of its pass, and the life that follows. */
  ghost function PassEnd(env: Env, q: Queue, ops: seq<Op>, now: real): (r: Queue)
    requires ValidEnv(env) && Inv(q)
    ensures Inv(r) && r.batch == []
  {
    ReturnBatch(RunBatch(env, RunScript(env, q, ops), now), now)
  }

  lemma BatchOld(q: Queue, q1: Queue)
    requires Inv(q) && Inv(q1) && BatchKept(q, q1)
    ensures forall e | e in q1.batch :: e.timer in q1.heap && q1.heap[e.timer].sequence <= q.created
  {
    BatchAllocated(q);
    hide Inv;
    forall e | e in q1.batch ensures e.timer in q1.heap && q1.heap[e.timer].sequence <= q.created {
      NumberGiven(q, e.timer);
      assert e.timer in Held(q.batch);
    }
  }

  /** No callback left in the pass is that of a number given out since its batch was taken. */
  lemma PassEndLogs(env: Env, q: Queue, q1: Queue, now: real)
    requires ValidEnv(env) && Inv(q) && Inv(q1) && BatchKept(q, q1)
    ensures var q2 := ReturnBatch(RunBatch(env, q1, now), now);
            && q.log <= q2.log && |q2.log| == |q.log| + |q1.batch| - q1.begun
            && (forall i | |q.log| <= i < |q2.log| :: q2.log[i].timer.sequence <= q.created)
  {
    hide *;
    BegunBound(q1);
    BatchOld(q, q1);
    BatchLog(q, q1);
    BatchRunsInOrder(env, q1, now);
    ReturningLogsNothing(RunBatch(env, q1, now), now);
    RunsOld(q1.heap, q1.batch, q1.begun, now, q.created);
  }

  lemma RunsOld(h: Heap, batch: seq<Entry>, begun: nat, now: real, created: nat)
    requires begun <= |batch|
    requires forall e | e in batch :: e.timer in h && h[e.timer].sequence <= created
    ensures forall e | e in batch[begun..] :: e.timer in h
    ensures forall r | r in RunsOf(h, batch[begun..], now) :: r.timer.sequence <= created
  {
    var rest := batch[begun..];
    var runs := RunsOf(h, rest, now);
    forall i | 0 <= i < |runs| ensures runs[i].timer.sequence <= created {
      assert rest[i] in batch;
    }
  }

  lemma BegunBound(q: Queue)
    requires Inv(q)
    ensures q.begun <= |q.batch|
  {
    hide IndicesAgree, Numbered, BatchOk;
  }

  lemma BackOld(h: Heap, batch: seq<Entry>, now: real, id: nat)
    requires forall e | e in batch :: e.timer in h && h[e.timer].sequence < id
    ensures id !in Back(h, batch, now)
  {
    hide Back;
    forall n | n in Back(h, batch, now) ensures n < id {
      var i := BackFrom(h, batch, now, n);
      assert batch[i] in batch;
    }
  }

  lemma PassEndKeeps(env: Env, q: Queue, q1: Queue, now: real, id: nat)
    requires ValidEnv(env) && Inv(q) && Inv(q1) && BatchKept(q, q1) && q.created < id <= q1.created
    ensures var q2 := ReturnBatch(RunBatch(env, q1, now), now);
            Keeps(BookOf(q1), BookOf(q2), id, Asked(env, |q.log|, |q2.log|, id))
  {
    hide *;
    BatchLog(q, q1);
    BegunBound(q1);
    BatchOld(q, q1);
    PassEndLogs(env, q, q1, now);
    RunAndReturn(env, q1, now);
    BookFields(q1);
    var n := |q1.batch| - q1.begun;
    RunsKeep(env, BookOf(q1), n, id);
    BackOld(q1.heap, q1.batch, now, id);
    PutBackOthers(BookOf(q1), BookRuns(env, BookOf(q1), n), Back(q1.heap, q1.batch, now), id,
                  Asked(env, |q.log|, |q.log| + n, id));
  }

  lemma BatchLog(q: Queue, q1: Queue)
    requires BatchKept(q, q1)
    ensures q1.log == q.log && q1.batch == q.batch && q1.begun == q.begun && q.created <= q1.created
  {
  }

  lemma PutBackOthers(b: Book, b1: Book, back: map<nat, Plan>, id: nat, asked: bool)
    requires Keeps(b, b1, id, asked) && id !in back
    ensures Keeps(b, b1.(plans := b1.plans + back), id, asked)
  {
  }

  /** A timer just added, from there to the end of the pass it was added in. */
  lemma AddedStays(env: Env, q: Queue, delay: real, interval: real, ops: seq<Op>, now: real)
    requires ValidEnv(env) && Inv(q)
    ensures var id, plan := q.created + 1, Plan(env.clock(q.ticks) + delay, interval);
            var q2 := PassEnd(env, DoOp(env, q, Add(delay, interval)), ops, now);
            && q.log <= q2.log && (forall i | |q.log| <= i < |q2.log| :: q2.log[i].timer.sequence != id)
            && NotEarly(BookOf(q2), id, plan.when)
            && (Cancel(id) !in ops && !Asked(env, |q.log|, |q2.log|, id) ==>
                  id in BookOf(q2).plans && BookOf(q2).plans[id] == plan)
  {
    hide *;
    var q0 := DoOp(env, q, Add(delay, interval));
    var q1 := RunScript(env, q0, ops);
    OpRefines(env, q, Add(delay, interval));
    BookAdds(env, BookOf(q), delay, interval);
    BookFields(q);
    BookFields(q1);
    ScriptRefines(env, q0, ops);
    OpsKeep(env, BookOf(q0), ops, q.created + 1);
    KeptTwice(q, q0, q1);
    PassEndLogs(env, q, q1, now);
    PassEndKeeps(env, q, q1, now, q.created + 1);
    PassEndIs(env, q0, ops, now);
    StillPlanned(BookOf(q0), BookOf(q1), BookOf(PassEnd(env, q0, ops, now)), q.created + 1,
                 Cancel(q.created + 1) in ops, Asked(env, |q.log|, |PassEnd(env, q0, ops, now).log|, q.created + 1));
  }

  lemma PassEndIs(env: Env, q: Queue, ops: seq<Op>, now: real)
    requires ValidEnv(env) && Inv(q)
    ensures PassEnd(env, q, ops, now) == ReturnBatch(RunBatch(env, RunScript(env, q, ops), now), now)
  {
    hide Inv, ReturnBatch, RunBatch, RunScript, ValidEnv;
  }

  lemma KeptTwice(q: Queue, q0: Queue, q1: Queue)
    requires BatchKept(q, q0) && BatchKept(q0, q1) && Inv(q)
    ensures BatchKept(q, q1)
  {
    hide Inv;
  }

  lemma StillPlanned(b0: Book, b1: Book, b2: Book, id: nat, asked1: bool, asked2: bool)
    requires id in b0.plans && id <= b0.created && Keeps(b0, b1, id, asked1) && Keeps(b1, b2, id, asked2)
    ensures NotEarly(b2, id, b0.plans[id].when)
    ensures !asked1 && !asked2 ==> id in b2.plans && b2.plans[id] == b0.plans[id]
  {
  }

  /** A timer never runs before the delay it was added with is over.  Added at a clock reading, between
      passes or by a callback in mid-pass, and whatever happens in the rest of that callback, that pass and
      the life that follows: every run of its number is that delay after the reading or later. */
  lemma NeverBeforeItsDelay(
    env: Env, q: Queue, delay: real, interval: real, ops: seq<Op>, now: real, events: seq<Event>)
    requires ValidEnv(env) && Inv(q) && forall r | r in q.log :: r.timer.sequence <= q.created
    ensures var q3 := Life(env, PassEnd(env, DoOp(env, q, Add(delay, interval)), ops, now), events);
            forall r | r in q3.log && r.timer.sequence == q.created + 1 ::
              r.passTime >= env.clock(q.ticks) + delay
  {
    hide *;
    var id, when := q.created + 1, env.clock(q.ticks) + delay;
    var q2 := PassEnd(env, DoOp(env, q, Add(delay, interval)), ops, now);
    AddedStays(env, q, delay, interval, ops, now);
    LifeNotEarly(env, q2, id, when, events);
  }

  /** And it runs on time: unless someone asks to cancel it, the first pass at or after the end of its
      delay runs it, with the interval it was added with. */
  lemma FirstPassRunsIt(
    env: Env, q: Queue, delay: real, interval: real, ops: seq<Op>, now: real, events: seq<Event>)
    requires ValidEnv(env) && Inv(q)
    requires var id, q2 := q.created + 1, PassEnd(env, DoOp(env, q, Add(delay, interval)), ops, now);
             && Cancel(id) !in ops && !Asked(env, |q.log|, |q2.log|, id)
             && NeverAsked(env, q2, events, id)
             && PassesBefore(env, q2, events, env.clock(q.ticks) + delay)
    ensures var id, when := q.created + 1, env.clock(q.ticks) + delay;
            var q3 := Life(env, PassEnd(env, DoOp(env, q, Add(delay, interval)), ops, now), events);
            && (forall i | |q.log| <= i < |q3.log| :: q3.log[i].timer.sequence != id)
            && (env.clock(q3.ticks) >= when ==>
                  exists i :: |q3.log| <= i < |Pass(env, q3).log| &&
                    Pass(env, q3).log[i] == Run(Timer(when, interval, id), env.clock(q3.ticks)))
  {
    hide *;
    var id, plan := q.created + 1, Plan(env.clock(q.ticks) + delay, interval);
    var q2 := PassEnd(env, DoOp(env, q, Add(delay, interval)), ops, now);
    AddedStays(env, q, delay, interval, ops, now);
    GivenNumber(q2, id, plan.when);
    WaitsForPass(env, q2, id, plan, events);
    NotYetRun(env, q2, id, plan.when, events);
    PassLogsDue(env, Life(env, q2, events));
  }

  lemma GivenNumber(q: Queue, id: nat, when: real)
    requires Inv(q) && NotEarly(BookOf(q), id, when)
    ensures id <= q.created
  {
    BookFields(q);
    hide Inv, BookOf;
  }

  /** In a life whose passes are all before a number's plan, that number does not run. */
  lemma {:induction false} NotYetRun(env: Env, q: Queue, id: nat, when: real, events: seq<Event>)
    requires ValidEnv(env) && Inv(q) && q.batch == [] && NotEarly(BookOf(q), id, when)
    requires PassesBefore(env, q, events, when)
    ensures q.log <= Life(env, q, events).log
    ensures var q' := Life(env, q, events);
            forall i | |q.log| <= i < |q'.log| :: q'.log[i].timer.sequence != id
    decreases |events|
  {
    hide Inv, BookOf, Step, NotEarly, ValidEnv;
    if events != [] {
      var front, e := events[..|events| - 1], events[|events| - 1];
      NotYetRun(env, q, id, when, front);
      LifeNotEarly(env, q, id, when, front);
      StepLogsLate(env, Life(env, q, front), e, id, when);
    }
  }
}
