/** The thread pool as a state machine over its workers, submitters and stoppers.

    The mutex makes each critical section one step.  A notify comes after the lock is released, so it is
    a step of its own, owed from the moment the section ends. */
module ThreadPools {
  type Worker = nat
  type Task = nat

  /** Tasks are told apart by their place in `accepted`: the first `taken` have left the queue, `running`
      says which of them each busy worker runs, and `finished` which have returned.

      `checking` workers hold or want the lock to look at the queue; `waiting` ones sleep in wait(). */
  datatype Pool = Pool(
    accepted: seq<Task>,
    taken: nat,
    finished: set<nat>,
    stopFlag: bool,
    checking: set<Worker>,
    waiting: set<Worker>,
    running: map<Worker, nat>,
    exited: set<Worker>,
    owedOne: nat,
    owedAll: nat)
  {
    function Queued(): nat
      requires taken <= |accepted|
    {
      |accepted| - taken
    }

    function Live(): set<Worker> {
      checking + waiting + running.Keys
    }
  }

  datatype Step =
    | Submit(task: Task)      // pushes and owes one notify, or throws once the pool is stopped
    | Stop                    // sets the flag and owes a notify of all
    | NotifyOne(to: Worker)   // wakes one sleeper, any of them, when there is one
    | NotifyAll
    | Spurious(w: Worker)     // wait() may return unasked
    | Wait(w: Worker)
    | Take(w: Worker)
    | Finish(w: Worker)
    | Exit(w: Worker)

  predicate Initial(p: Pool, workers: set<Worker>) {
    p == Pool([], 0, {}, false, workers, {}, map[], {}, 0, 0)
  }

  predicate Enabled(p: Pool, s: Step) {
    match s
    case Submit(_) => true
    case Stop => true
    case NotifyOne(w) => p.owedOne > 0 && (p.waiting == {} || w in p.waiting)
    case NotifyAll => p.owedAll > 0
    case Spurious(w) => w in p.waiting
    case Wait(w) => w in p.checking && !p.stopFlag && p.taken >= |p.accepted|
    case Take(w) => w in p.checking && p.taken < |p.accepted|
    case Finish(w) => w in p.running
    case Exit(w) => w in p.checking && p.stopFlag && p.taken >= |p.accepted|
  }

  function Wake(p: Pool, ws: set<Worker>): Pool {
    p.(waiting := p.waiting - ws, checking := p.checking + ws)
  }

  function Apply(p: Pool, s: Step): Pool {
    match s
    case Submit(t) => if p.stopFlag then p else p.(accepted := p.accepted + [t], owedOne := p.owedOne + 1)
    case Stop => p.(stopFlag := true, owedAll := p.owedAll + 1)
    case NotifyOne(w) =>
      var p1 := p.(owedOne := if p.owedOne > 0 then p.owedOne - 1 else 0);
      if p.waiting == {} then p1 else Wake(p1, {w})
    case NotifyAll => Wake(p.(owedAll := if p.owedAll > 0 then p.owedAll - 1 else 0), p.waiting)
    case Spurious(w) => Wake(p, {w})
    case Wait(w) => p.(checking := p.checking - {w}, waiting := p.waiting + {w})
    case Take(w) => p.(checking := p.checking - {w}, running := p.running[w := p.taken], taken := p.taken + 1)
    case Finish(w) =>
      if w in p.running then
        p.(running := p.running - {w}, checking := p.checking + {w}, finished := p.finished + {p.running[w]})
      else p
    case Exit(w) => p.(checking := p.checking - {w}, exited := p.exited + {w})
  }

  function After(p: Pool, steps: seq<Step>): Pool {
    if steps == [] then p else Apply(After(p, steps[..|steps| - 1]), steps[|steps| - 1])
  }

  predicate Legal(p: Pool, steps: seq<Step>) {
    steps == [] ||
    (Legal(p, steps[..|steps| - 1]) && Enabled(After(p, steps[..|steps| - 1]), steps[|steps| - 1]))
  }

  // ---- what every step keeps ------------------------------------------------------------------

  function Below(n: nat): (r: set<nat>)
    ensures forall i :: i in r <==> 0 <= i < n
  {
    if n == 0 then {} else Below(n - 1) + {n - 1}
  }

  function Runs(running: map<Worker, nat>): set<nat> {
    set w | w in running :: running[w]
  }

  /** Every worker is in exactly one place. */
  predicate Placed(p: Pool, workers: set<Worker>) {
    && p.checking !! p.waiting !! p.running.Keys !! p.exited
    && p.Live() + p.exited == workers
  }

  /** Every task taken is running on exactly one worker or finished; the queue is the rest, in order. */
  predicate Accounted(p: Pool) {
    && p.taken <= |p.accepted|
    && Runs(p.running) !! p.finished
    && Runs(p.running) + p.finished == Below(p.taken)
    && (forall v, w | v in p.running && w in p.running && v != w :: p.running[v] != p.running[w])
  }

  /** While a worker sleeps, each queued task has a worker of its own awake for it or a notify on its
      way; and a stop whose notify is delivered leaves no sleeper. */
  predicate Attended(p: Pool) {
    && p.taken <= |p.accepted|
    && (p.waiting != {} ==> p.Queued() <= |p.checking| + p.owedOne)
    && (p.waiting != {} && p.stopFlag ==> p.owedAll > 0)
    && (p.exited != {} ==> p.stopFlag && p.taken == |p.accepted|)
  }

  predicate Inv(p: Pool, workers: set<Worker>) {
    Placed(p, workers) && Accounted(p) && Attended(p)
  }

  lemma TakeAccounted(p: Pool, w: Worker)
    requires Accounted(p) && w !in p.running && p.taken < |p.accepted|
    ensures Accounted(p.(running := p.running[w := p.taken], taken := p.taken + 1))
  {
    var r := p.running[w := p.taken];
    assert Runs(r) == Runs(p.running) + {p.taken} by {
      assert r[w] == p.taken;
      assert forall v | v in p.running :: v in r && r[v] == p.running[v];
    }
    assert Below(p.taken + 1) == Below(p.taken) + {p.taken};
    assert forall v | v in p.running :: p.running[v] in Runs(p.running);
  }

  lemma FinishAccounted(p: Pool, w: Worker)
    requires Accounted(p) && w in p.running
    ensures Accounted(p.(running := p.running - {w}, finished := p.finished + {p.running[w]}))
  {
    var r := p.running - {w};
    assert p.running[w] in Runs(p.running);
    assert Runs(r) == Runs(p.running) - {p.running[w]} by {
      assert forall v | v in p.running && v != w :: v in r && r[v] == p.running[v];
    }
  }

  lemma StepPlaced(p: Pool, workers: set<Worker>, s: Step)
    requires Placed(p, workers) && Enabled(p, s)
    ensures Placed(Apply(p, s), workers)
  {
    hide Below, Runs;
    match s
    case Take(w) => assert p.running[w := p.taken].Keys == p.running.Keys + {w};
    case Finish(w) => assert (p.running - {w}).Keys == p.running.Keys - {w};
    case _ =>
  }

  lemma StepAccounted(p: Pool, workers: set<Worker>, s: Step)
    requires Placed(p, workers) && Accounted(p) && Enabled(p, s)
    ensures Accounted(Apply(p, s))
  {
    match s
    case Take(w) => TakeAccounted(p, w); hide Below, Runs;
    case Finish(w) => FinishAccounted(p, w); hide Below, Runs;
    case _ => hide Below, Runs;
  }

  lemma StepAttended(p: Pool, workers: set<Worker>, s: Step)
    requires Placed(p, workers) && Attended(p) && Enabled(p, s)
    ensures Attended(Apply(p, s))
  {
    hide Below, Runs;
    match s
    case NotifyOne(w) => NotifyAttended(p, w);
    case Spurious(w) => Moved(p.waiting, p.checking, w);
    case Take(w) => Moved(p.checking, p.running.Keys, w);
    case Finish(w) => Moved(p.running.Keys, p.checking, w);
    case _ =>
  }

  /** The notify spent is made up for by the sleeper it wakes. */
  lemma NotifyAttended(p: Pool, w: Worker)
    requires Attended(p) && Enabled(p, NotifyOne(w)) && p.checking !! p.waiting
    ensures Attended(Apply(p, NotifyOne(w)))
  {
    hide Below, Runs;
    if w in p.waiting {
      Moved(p.waiting, p.checking, w);
    }
  }

  lemma StepKeepsInv(p: Pool, workers: set<Worker>, s: Step)
    requires Inv(p, workers) && Enabled(p, s)
    ensures Inv(Apply(p, s), workers)
  {
    StepPlaced(p, workers, s);
    StepAccounted(p, workers, s);
    StepAttended(p, workers, s);
    hide Placed, Accounted, Attended, Apply;
  }

  lemma {:induction false} RunKeepsInv(p: Pool, workers: set<Worker>, steps: seq<Step>)
    requires Inv(p, workers) && Legal(p, steps)
    ensures Inv(After(p, steps), workers)
  {
    hide Inv, Enabled, Apply;
    if steps != [] {
      RunKeepsInv(p, workers, steps[..|steps| - 1]);
      StepKeepsInv(After(p, steps[..|steps| - 1]), workers, steps[|steps| - 1]);
    }
  }

  lemma PoolInv(p: Pool, workers: set<Worker>, steps: seq<Step>)
    requires Initial(p, workers) && Legal(p, steps)
    ensures Inv(After(p, steps), workers)
  {
    assert Runs(map[]) == {};
    assert Inv(p, workers);
    RunKeepsInv(p, workers, steps);
  }

  // ---- tasks ----------------------------------------------------------------------------------

  /** In every interleaving, each accepted task is in exactly one of queued, running and finished, at
      most one worker runs it, and the queue is what was accepted last, in order of submission. */
  lemma TasksAccountedFor(p: Pool, workers: set<Worker>, steps: seq<Step>, task: nat)
    requires Initial(p, workers) && Legal(p, steps) && task < |After(p, steps).accepted|
    ensures var q := After(p, steps);
            && (task >= q.taken || task in Runs(q.running) || task in q.finished)
            && !(task >= q.taken && (task in Runs(q.running) || task in q.finished))
            && !(task in Runs(q.running) && task in q.finished)
            && (forall v, w | v in q.running && w in q.running && q.running[v] == task == q.running[w] :: v == w)
  {
    PoolInv(p, workers, steps);
    hide After, Legal;
  }

  /** When every worker has exited - the joins of stop() have returned - the queue is empty and every
      accepted task has finished. */
  lemma DrainedOnStop(p: Pool, workers: set<Worker>, steps: seq<Step>)
    requires workers != {} && Initial(p, workers) && Legal(p, steps) && After(p, steps).exited == workers
    ensures var q := After(p, steps);
            q.stopFlag && q.taken == |q.accepted| && q.running == map[] && q.finished == Below(|q.accepted|)
  {
    PoolInv(p, workers, steps);
    hide After, Legal, Below;
    var q := After(p, steps);
    assert q.running.Keys == {};
    assert Runs(q.running) == {};
  }

  /** Tasks leave the queue in submission order, nothing joins it after a stop, and nothing finished is
      taken back. */
  lemma StepIsOrderly(p: Pool, workers: set<Worker>, s: Step)
    requires Inv(p, workers) && Enabled(p, s)
    ensures var q := Apply(p, s);
            && p.accepted <= q.accepted && (p.stopFlag ==> q.stopFlag && q.accepted == p.accepted)
            && (forall w | w in q.running && (w !in p.running || q.running[w] != p.running[w]) ::
                  q.running[w] == p.taken && q.taken == p.taken + 1)
            && p.finished <= q.finished
            && (forall t | t in q.finished && t !in p.finished :: t in Runs(p.running))
  {
    hide Below;
  }

  // ---- no notify is lost ----------------------------------------------------------------------

  /** In every interleaving, no worker sleeps on work that nobody is coming for: while some worker waits,
      there are at least as many awake workers and owed notifies as queued tasks. */
  lemma NoLostNotify(p: Pool, workers: set<Worker>, steps: seq<Step>)
    requires Initial(p, workers) && Legal(p, steps)
    ensures var q := After(p, steps);
            && q.taken <= |q.accepted|
            && (q.waiting != {} ==> q.Queued() <= |q.checking| + q.owedOne)
            && (q.waiting == workers != {} && q.Queued() > 0 ==> q.owedOne > 0)
            && (q.waiting != {} && q.stopFlag ==> q.owedAll > 0)
  {
    PoolInv(p, workers, steps);
    hide After, Legal, Below, Runs;
  }

  // ---- a stopped pool shuts down --------------------------------------------------------------

  /** What is left to do once no more calls come in. */
  function Remaining(p: Pool): nat
    requires p.taken <= |p.accepted|
  {
    2 * p.Queued() + 2 * |p.running| + 2 * |p.waiting| + |p.checking| + p.owedOne + p.owedAll
  }

  predicate Internal(s: Step) {
    !s.Submit? && !s.Stop?
  }

  lemma NotifyShrinks(p: Pool, s: Step)
    requires p.taken <= |p.accepted| && p.checking !! p.waiting && Enabled(p, s) && (s.NotifyOne? || s.NotifyAll?)
    ensures Remaining(Apply(p, s)) < Remaining(p)
  {
    match s
    case NotifyOne(w) => if w in p.waiting { Moved(p.waiting, p.checking, w); }
    case NotifyAll => assert |p.checking + p.waiting| == |p.checking| + |p.waiting|;
  }

  lemma WorkerShrinks(p: Pool, s: Step)
    requires p.taken <= |p.accepted| && p.checking !! p.waiting !! p.running.Keys
    requires Enabled(p, s) && (s.Take? || s.Finish? || s.Exit? || s.Spurious?)
    ensures Apply(p, s).taken <= |Apply(p, s).accepted| && Remaining(Apply(p, s)) < Remaining(p)
  {
    match s
    case Spurious(w) => Moved(p.waiting, p.checking, w);
    case Take(w) => Moved(p.checking, {}, w); Entered(p.running, w, p.taken);
    case Finish(w) => Moved({w}, p.checking, w); Left(p.running, w);
    case Exit(w) => Moved(p.checking, {}, w);
  }

  lemma StepShrinks(p: Pool, workers: set<Worker>, s: Step)
    requires Inv(p, workers) && Enabled(p, s) && Internal(s) && p.stopFlag
    ensures Apply(p, s).taken <= |Apply(p, s).accepted| && Remaining(Apply(p, s)) < Remaining(p)
  {
    hide Below, Runs, Accounted, Remaining;
    if s.NotifyOne? || s.NotifyAll? {
      NotifyShrinks(p, s);
    } else if !s.Wait? {
      WorkerShrinks(p, s);
    }
  }

  lemma Entered(m: map<Worker, nat>, w: Worker, t: nat)
    requires w !in m
    ensures |m[w := t]| == |m| + 1
  {
    assert m[w := t].Keys == m.Keys + {w};
  }

  lemma Left(m: map<Worker, nat>, w: Worker)
    requires w in m
    ensures |m - {w}| == |m| - 1
  {
    assert (m - {w}).Keys == m.Keys - {w};
  }

  lemma Moved(a: set<Worker>, b: set<Worker>, w: Worker)
    requires a !! b && w in a
    ensures |a - {w}| == |a| - 1 && |b + {w}| == |b| + 1
  {
  }

  /** After a stop, if no more calls come in, every run ends within `Remaining` steps. */
  lemma {:induction false} StoppedRunIsBounded(p: Pool, workers: set<Worker>, steps: seq<Step>)
    requires Inv(p, workers) && p.stopFlag && Legal(p, steps)
    requires forall i | 0 <= i < |steps| :: Internal(steps[i])
    ensures var q := After(p, steps);
            && Inv(q, workers) && q.stopFlag && q.accepted == p.accepted
            && |steps| + Remaining(q) <= Remaining(p)
  {
    hide Inv, Enabled, Apply, Remaining;
    if steps != [] {
      var front, last := steps[..|steps| - 1], steps[|steps| - 1];
      var m := After(p, front);
      StoppedRunIsBounded(p, workers, front);
      StepKeepsInv(m, workers, last);
      StepShrinks(m, workers, last);
      StoppedStays(m, last);
    }
  }

  lemma StoppedStays(p: Pool, s: Step)
    requires p.stopFlag && Internal(s)
    ensures Apply(p, s).stopFlag && Apply(p, s).accepted == p.accepted
  {
  }

  /** A stopped pool with a live worker is never stuck, not even if wait() never returns unasked. */
  lemma StoppedIsNotStuck(p: Pool, workers: set<Worker>)
    requires Inv(p, workers) && p.stopFlag && p.exited != workers
    ensures exists s: Step :: Internal(s) && !s.Spurious? && Enabled(p, s)
  {
    hide Below, Runs;
    if p.checking != {} {
      var w :| w in p.checking;
      assert Enabled(p, if p.taken < |p.accepted| then Take(w) else Exit(w));
    } else if p.running != map[] {
      var w :| w in p.running.Keys;
      assert Enabled(p, Finish(w));
    } else {
      assert p.waiting != {};
      assert Enabled(p, NotifyAll);
    }
  }

  /** stop() returns: however its steps are scheduled, a run that can go no further - sleepers woken
      unasked apart - has every worker exited and every accepted task finished. */
  lemma StopCompletes(p: Pool, workers: set<Worker>, steps: seq<Step>)
    requires workers != {} && Inv(p, workers) && p.stopFlag && Legal(p, steps)
    requires forall i | 0 <= i < |steps| :: Internal(steps[i])
    requires forall s: Step | Enabled(After(p, steps), s) :: !Internal(s) || s.Spurious?
    ensures |steps| <= Remaining(p)
    ensures After(p, steps).exited == workers && After(p, steps).finished == Below(|p.accepted|)
  {
    StoppedRunIsBounded(p, workers, steps);
    var q := After(p, steps);
    if q.exited != workers {
      StoppedIsNotStuck(q, workers);
    }
    hide After, Legal, Below;
    assert q.running.Keys == {} && Runs(q.running) == {};
  }

  /** A pool built with no workers accepts tasks and never runs one: stop() then returns with the queue
      as full as it was. */
  lemma {:induction false} NoWorkersNoProgress(p: Pool, steps: seq<Step>)
    requires Initial(p, {}) && Legal(p, steps)
    ensures After(p, steps).taken == 0 && After(p, steps).finished == {}
  {
    if steps != [] {
      var front := steps[..|steps| - 1];
      NoWorkersNoProgress(p, front);
      PoolInv(p, {}, front);
    }
  }
}
