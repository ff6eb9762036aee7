/** The timer queue as a state, and what its operations do to that state.

    `new` and `delete` act on an explicit heap, so an address may be handed out again after its timer
    was deleted.  What lies outside the queue - the allocator, the clock, and what each callback does -
    is an arbitrary environment. */
module TimerSpec {
  type Address = nat

  datatype Timer = Timer(when: real, interval: real, sequence: nat) {
    predicate Repeats() {
      interval > 0.0
    }

    /** Timer::restart */
    function Restart(now: real): Timer {
      this.(when := if Repeats() then now + interval else 0.0)
    }
  }

  type Heap = map<Address, Timer>

  datatype Entry = Entry(when: real, timer: Address)

  datatype Active = Active(timer: Address, sequence: nat)

  /** What a callback, or the thread between two passes, may ask of the queue. */
  datatype Op = Add(delay: real, interval: real) | Cancel(id: nat)

  /** One run of a callback, as recorded for the history. */
  datatype Run = Run(timer: Timer, passTime: real)

  /** The allocator, the successive clock readings, and what the n-th callback run asks for. */
  datatype Env = Env(malloc: (nat, Heap) -> Address, clock: nat -> real, script: nat -> seq<Op>)

  ghost predicate ValidEnv(env: Env) {
    && (forall n, h :: env.malloc(n, h) !in h)
    && (forall i, j | i <= j :: env.clock(i) <= env.clock(j))
  }

  /** `batch` holds the entries taken by the pass in progress and not yet given back; the callbacks of
      its first `begun` entries have been started. */
  datatype Queue = Queue(
    heap: Heap,
    timers: seq<Entry>,
    active: set<Active>,
    created: nat,
    ticks: nat,
    batch: seq<Entry>,
    begun: nat,
    deleted: set<nat>,
    log: seq<Run>)

  const EMPTY := Queue(map[], [], {}, 0, 0, [], 0, {}, [])

  // ---- the ordered set of (deadline, pointer) pairs -------------------------------------------

  predicate Less(a: Entry, b: Entry) {
    a.when < b.when || (a.when == b.when && a.timer < b.timer)
  }

  ghost predicate Sorted(s: seq<Entry>) {
    s == [] || ((forall x | x in s[1..] :: Less(s[0], x)) && Sorted(s[1..]))
  }

  function InsertEntry(s: seq<Entry>, e: Entry): (r: seq<Entry>)
    ensures Sorted(s) ==> Sorted(r)
    ensures forall x :: x in r <==> x in s || x == e
  {
    assert s != [] ==> forall x :: x in s <==> x == s[0] || x in s[1..];
    if s == [] || Less(e, s[0]) then
      assert ([e] + s)[1..] == s;
      [e] + s
    else if s[0] == e then s
    else
      var t := InsertEntry(s[1..], e);
      [s[0]] + t
  }

  function RemoveEntry(s: seq<Entry>, e: Entry): (r: seq<Entry>)
    ensures Sorted(s) ==> Sorted(r)
    ensures forall x :: x in r <==> x in s && x != e
  {
    if s == [] then []
    else
      var t := RemoveEntry(s[1..], e);
      assert forall x :: x in s <==> x == s[0] || x in s[1..];
      if s[0] == e then t else [s[0]] + t
  }

  /** lower_bound of (now, greatest pointer): the number of leading entries whose deadline is reached. */
  function DueCount(s: seq<Entry>, now: real): (k: nat)
    ensures k <= |s| && (forall i | 0 <= i < k :: s[i].when <= now)
    ensures k < |s| ==> s[k].when > now
  {
    if s != [] && s[0].when <= now then 1 + DueCount(s[1..], now) else 0
  }

  // ---- operations -----------------------------------------------------------------------------

  function Insert(q: Queue, a: Address): Queue
    requires a in q.heap
  {
    q.(timers := InsertEntry(q.timers, Entry(q.heap[a].when, a)),
       active := q.active + {Active(a, q.heap[a].sequence)})
  }

  /** add_timer: read the clock, allocate, number, insert; the id is the new sequence number. */
  function AddTimer(env: Env, q: Queue, delay: real, interval: real): Queue {
    var id := q.created + 1;
    var a := env.malloc(id, q.heap);
    var timer := Timer(env.clock(q.ticks) + delay, interval, id);
    Insert(q.(heap := q.heap[a := timer], created := id, ticks := q.ticks + 1), a)
  }

  ghost predicate HasActive(q: Queue, id: nat) {
    exists a :: Active(a, id) in q.active
  }

  ghost function FindActive(q: Queue, id: nat): (a: Address)
    requires HasActive(q, id)
    ensures Active(a, id) in q.active
  {
    var a :| Active(a, id) in q.active; a
  }

  function Delete(q: Queue, a: Address): Queue
    requires a in q.heap
  {
    q.(heap := q.heap - {a}, deleted := q.deleted + {q.heap[a].sequence})
  }

  ghost predicate ActiveAllocated(q: Queue) {
    forall x | x in q.active :: x.timer in q.heap
  }

  /** cancel_in_loop: both set entries go, and so does the timer; nothing happens when the id is not in
      the active set, in particular while its timer is part of the batch being run. */
  ghost function CancelTimer(q: Queue, id: nat): Queue
    requires ActiveAllocated(q)
  {
    if !HasActive(q, id) then q
    else
      var a := FindActive(q, id);
      Delete(q.(active := q.active - {Active(a, id)},
                timers := RemoveEntry(q.timers, Entry(q.heap[a].when, a))), a)
  }

  function ActiveOf(h: Heap, s: seq<Entry>): set<Active>
    requires forall e | e in s :: e.timer in h
  {
    set e | e in s :: Active(e.timer, h[e.timer].sequence)
  }

  /** get_expired: the due prefix leaves both sets and becomes the batch. */
  function TakeExpired(q: Queue, now: real): Queue
    requires forall e | e in q.timers :: e.timer in q.heap
  {
    Take(q, DueCount(q.timers, now))
  }

  function Take(q: Queue, k: nat): Queue
    requires k <= |q.timers| && forall e | e in q.timers :: e.timer in q.heap
  {
    q.(batch := q.timers[..k], begun := 0, timers := q.timers[k..],
       active := q.active - ActiveOf(q.heap, q.timers[..k]))
  }

  /** The callback of the next entry starts: it is recorded before it can ask for anything. */
  function BeginRun(q: Queue, now: real): Queue
    requires q.begun < |q.batch| && q.batch[q.begun].timer in q.heap
  {
    q.(begun := q.begun + 1, log := q.log + [Run(q.heap[q.batch[q.begun].timer], now)])
  }

  /** reset, for one entry of the batch: re-arm a repeating timer, delete any other. */
  function ReturnTimer(q: Queue, now: real): Queue
    requires q.batch != [] && q.begun > 0 && q.batch[0].timer in q.heap
  {
    var a := q.batch[0].timer;
    var q1 := q.(batch := q.batch[1..], begun := q.begun - 1);
    if q.heap[a].Repeats() then Insert(q1.(heap := q1.heap[a := q1.heap[a].Restart(now)]), a)
    else Delete(q1, a)
  }

  // ---- the invariant --------------------------------------------------------------------------

  /** The timers in the two indices, and the timers in the batch of the pass in progress. */
  function Idle(q: Queue): set<Address> {
    set x | x in q.active :: x.timer
  }

  function Held(batch: seq<Entry>): set<Address> {
    set e | e in batch :: e.timer
  }

  /** Both indices hold the same timers, each under its current deadline and its own number. */
  ghost predicate IndicesAgree(q: Queue) {
    && Sorted(q.timers)
    && (forall x | x in q.active :: x.timer in q.heap && q.heap[x.timer].sequence == x.sequence)
    && (forall e | e in q.timers :: e.timer in Idle(q) && e.timer in q.heap && q.heap[e.timer].when == e.when)
    && (forall a | a in Idle(q) :: a in q.heap && Entry(q.heap[a].when, a) in q.timers)
  }

  ghost predicate BatchOk(h: Heap, batch: seq<Entry>) {
    && (forall e | e in batch :: e.timer in h && h[e.timer].when == e.when)
    && (forall i, j | 0 <= i < j < |batch| :: batch[i].timer != batch[j].timer)
  }

  /** Every allocated timer has exactly one owner: the two indices or the batch. */
  ghost predicate Owned(q: Queue) {
    && q.heap.Keys == Idle(q) + Held(q.batch)
    && Idle(q) !! Held(q.batch)
    && BatchOk(q.heap, q.batch)
    && q.begun <= |q.batch|
  }

  function Numbers(h: Heap): set<nat> {
    set a | a in h :: h[a].sequence
  }

  function UpTo(n: nat): (r: set<nat>)
    ensures forall i :: i in r <==> 0 < i <= n
  {
    if n == 0 then {} else UpTo(n - 1) + {n}
  }

  /** A number names one timer for ever: each number given out is live at one address or deleted,
      never both. */
  ghost predicate Numbered(q: Queue) {
    && (forall a, b | a in q.heap && b in q.heap && a != b :: q.heap[a].sequence != q.heap[b].sequence)
    && Numbers(q.heap) !! q.deleted
    && Numbers(q.heap) + q.deleted == UpTo(q.created)
  }

  ghost predicate Inv(q: Queue) {
    IndicesAgree(q) && Owned(q) && Numbered(q)
  }
}
