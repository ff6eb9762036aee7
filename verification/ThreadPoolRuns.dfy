/** What a run of the thread pool has done, told from its steps alone; and that a pool left to itself runs
    every task it was given. */
module ThreadPoolRuns {
  import opened Options
  import opened ThreadPools

  // ---- the state of a pool as its history -----------------------------------------------------

  /** submit() either hands over its task, behind the others and with a notify to follow, or throws. */
  lemma SubmitEffect(p: Pool, t: Task)
    ensures Enabled(p, Submit(t))
    ensures p.stopFlag ==> Apply(p, Submit(t)) == p
    ensures !p.stopFlag ==>
              var q := Apply(p, Submit(t));
              && q.accepted == p.accepted + [t] && q.owedOne == p.owedOne + 1
              && q == p.(accepted := q.accepted, owedOne := q.owedOne)
              && (p.taken <= |p.accepted| ==> q.Queued() == p.Queued() + 1)
  {
  }

  /** The tasks submitted before the first stop(), in the order of their critical sections. */
  function Submitted(steps: seq<Step>): seq<Task> {
    if steps == [] then []
    else
      var front, last := steps[..|steps| - 1], steps[|steps| - 1];
      if last.Submit? && Stop !in front then Submitted(front) + [last.task] else Submitted(front)
  }

  function Takes(steps: seq<Step>): nat {
    if steps == [] then 0 else Takes(steps[..|steps| - 1]) + if steps[|steps| - 1].Take? then 1 else 0
  }

  function NotifyOnes(steps: seq<Step>): nat {
    if steps == [] then 0 else NotifyOnes(steps[..|steps| - 1]) + if steps[|steps| - 1].NotifyOne? then 1 else 0
  }

  /** How many stop() calls still owe their notify: none of a notify_all is ever lost. */
  function StopsAhead(steps: seq<Step>): int {
    if steps == [] then 0
    else
      var before := StopsAhead(steps[..|steps| - 1]);
      match steps[|steps| - 1]
      case Stop => before + 1
      case NotifyAll => before - 1
      case _ => before
  }

  /** The place in the queue of the task a worker took last and has not finished. */
  function InHand(steps: seq<Step>, w: Worker): Option<nat> {
    if steps == [] then None
    else
      var front, last := steps[..|steps| - 1], steps[|steps| - 1];
      if last == Take(w) then Some(Takes(front)) else if last == Finish(w) then None else InHand(front, w)
  }

  function Finished(steps: seq<Step>): set<nat> {
    if steps == [] then {}
    else
      var front, last := steps[..|steps| - 1], steps[|steps| - 1];
      match last
      case Finish(w) =>
        (match InHand(front, w) case Some(k) => Finished(front) + {k} case None => Finished(front))
      case _ => Finished(front)
  }

  /** Who sleeps: whoever went to sleep and was not woken, by a notify or unasked. */
  function Asleep(steps: seq<Step>): set<Worker> {
    if steps == [] then {}
    else
      var before := Asleep(steps[..|steps| - 1]);
      match steps[|steps| - 1]
      case Wait(w) => before + {w}
      case NotifyOne(w) => before - {w}
      case Spurious(w) => before - {w}
      case NotifyAll => {}
      case _ => before
  }

  /** In every interleaving: the queue holds what was submitted before the first stop(), the k-th take
      takes its k-th task, a worker runs the task it took last until it finishes it, and each submission
      and each stop() sends its notify. */
  ghost predicate IsHistory(p: Pool, steps: seq<Step>) {
    && p.accepted == Submitted(steps)
    && (p.stopFlag <==> Stop in steps)
    && p.taken == Takes(steps)
    && (forall w :: InHand(steps, w) == if w in p.running then Some(p.running[w]) else None)
    && p.finished == Finished(steps)
    && p.waiting == Asleep(steps)
    && (forall w :: w in p.exited <==> Exit(w) in steps)
    && p.owedOne + NotifyOnes(steps) == |Submitted(steps)|
    && p.owedAll == StopsAhead(steps)
  }

  lemma InLast(steps: seq<Step>, s: Step)
    requires steps != []
    ensures s in steps <==> s in steps[..|steps| - 1] || s == steps[|steps| - 1]
  {
    assert steps == steps[..|steps| - 1] + [steps[|steps| - 1]];
  }

  lemma {:induction false} PoolIsItsHistory(p: Pool, workers: set<Worker>, steps: seq<Step>)
    requires Initial(p, workers) && Legal(p, steps)
    ensures IsHistory(After(p, steps), steps)
  {
    if steps != [] {
      var front, last := steps[..|steps| - 1], steps[|steps| - 1];
      PoolIsItsHistory(p, workers, front);
      PoolInv(p, workers, front);
      hide Inv, Legal, After;
      StepIsHistory(After(p, front), steps);
    }
  }

  lemma StepIsHistory(p: Pool, steps: seq<Step>)
    requires steps != [] && IsHistory(p, steps[..|steps| - 1]) && Enabled(p, steps[|steps| - 1])
    ensures IsHistory(Apply(p, steps[|steps| - 1]), steps)
  {
    InLast(steps, Stop);
    forall w ensures Exit(w) in steps <==> Exit(w) in steps[..|steps| - 1] || steps[|steps| - 1] == Exit(w) {
      InLast(steps, Exit(w));
    }
  }

  // ---- a pool left to itself runs everything --------------------------------------------------

  /** A step of worker or notify that the code asks for; sleepers may also wake unasked. */
  predicate Asked(s: Step) {
    Internal(s) && !s.Spurious?
  }

  /** As many sleepers as there are workers can be woken by each notify of all. */
  function Wakes(workers: set<Worker>, owed: nat): nat {
    if owed == 0 then 0 else Wakes(workers, owed - 1) + |workers| + 1
  }

  /** What is left to do if no call comes in and nobody wakes unasked. */
  function Work(p: Pool, workers: set<Worker>): nat
    requires p.taken <= |p.accepted|
  {
    2 * p.Queued() + 3 * |p.running| + 2 * |p.checking| + |p.waiting| + 2 * p.owedOne + Wakes(workers, p.owedAll)
  }

  lemma AskedShrinks(p: Pool, workers: set<Worker>, s: Step)
    requires Inv(p, workers) && Enabled(p, s) && Asked(s)
    ensures Apply(p, s).taken <= |Apply(p, s).accepted| && Work(Apply(p, s), workers) < Work(p, workers)
  {
    hide Below, Runs, Accounted, Wakes;
    match s
    case NotifyOne(w) => if w in p.waiting { Moved(p.waiting, p.checking, w); }
    case NotifyAll => SleepersAreWorkers(p, workers); AllWoken(p, workers);
    case Wait(w) => Moved(p.checking, p.waiting, w);
    case Take(w) => Moved(p.checking, {}, w); Entered(p.running, w, p.taken);
    case Finish(w) => Moved({w}, p.checking, w); Left(p.running, w);
    case Exit(w) => Moved(p.checking, {}, w);
  }

  lemma AllWoken(p: Pool, workers: set<Worker>)
    requires p.checking !! p.waiting && |p.waiting| <= |workers| && p.taken <= |p.accepted| && p.owedAll > 0
    ensures Work(Apply(p, NotifyAll), workers) < Work(p, workers)
  {
    var q := Apply(p, NotifyAll);
    assert q.checking == p.checking + p.waiting && q.waiting == {};
    assert |p.checking + p.waiting| == |p.checking| + |p.waiting|;
  }

  lemma SleepersAreWorkers(p: Pool, workers: set<Worker>)
    requires Placed(p, workers)
    ensures p.checking !! p.waiting && |p.waiting| <= |workers|
  {
    assert p.waiting <= workers;
    Smaller(p.waiting, workers);
  }

  lemma Smaller(a: set<Worker>, b: set<Worker>)
    requires a <= b
    ensures |a| <= |b|
  {
    assert b == a + (b - a);
  }

  lemma AskedKeepsAccepted(p: Pool, s: Step)
    requires Asked(s)
    ensures Apply(p, s).accepted == p.accepted
  {
  }

  lemma {:induction false} AskedRunIsBounded(p: Pool, workers: set<Worker>, steps: seq<Step>)
    requires Inv(p, workers) && Legal(p, steps) && forall i | 0 <= i < |steps| :: Asked(steps[i])
    ensures var q := After(p, steps);
            Inv(q, workers) && q.accepted == p.accepted && |steps| + Work(q, workers) <= Work(p, workers)
  {
    hide Inv, Enabled, Apply, Work;
    if steps != [] {
      var front, last := steps[..|steps| - 1], steps[|steps| - 1];
      AskedRunIsBounded(p, workers, front);
      StepKeepsInv(After(p, front), workers, last);
      AskedShrinks(After(p, front), workers, last);
      AskedKeepsAccepted(After(p, front), last);
    }
  }

  /** While a task is queued or running, stopped or not, some worker or some notify can move. */
  lemma BusyIsNotStuck(p: Pool, workers: set<Worker>)
    requires Inv(p, workers) && workers != {} && (p.taken < |p.accepted| || p.running != map[])
    ensures exists s: Step :: Asked(s) && Enabled(p, s)
  {
    hide Inv;
    SomeoneThere(p, workers);
    if p.checking != {} {
      var w :| w in p.checking;
      var s := if p.taken < |p.accepted| then Take(w) else if p.stopFlag then Exit(w) else Wait(w);
      assert Enabled(p, s);
    } else if p.running != map[] {
      var w :| w in p.running.Keys;
      assert Enabled(p, Finish(w));
    } else {
      var w :| w in p.waiting;
      assert Enabled(p, NotifyOne(w));
    }
  }

  lemma SomeoneThere(p: Pool, workers: set<Worker>)
    requires Inv(p, workers) && workers != {} && (p.taken < |p.accepted| || p.running != map[])
    ensures p.taken <= |p.accepted|
    ensures p.checking == {} && p.running == map[] ==> p.waiting != {} && p.owedOne > 0
  {
    hide Below, Runs;
  }

  /** However its steps are scheduled, a pool with a worker that gets no more calls comes to rest, and then
      every task it ever accepted has been run and finished: it need not be stopped for that. */
  lemma EveryTaskRuns(p: Pool, workers: set<Worker>, steps: seq<Step>)
    requires workers != {} && Inv(p, workers) && Legal(p, steps)
    requires forall i | 0 <= i < |steps| :: Asked(steps[i])
    requires forall s: Step | Enabled(After(p, steps), s) :: !Asked(s)
    ensures p.taken <= |p.accepted| && |steps| <= Work(p, workers)
    ensures var q := After(p, steps);
            q.accepted == p.accepted && q.running == map[] && q.finished == Below(|p.accepted|)
  {
    AskedRunIsBounded(p, workers, steps);
    var q := After(p, steps);
    if q.taken < |q.accepted| || q.running != map[] {
      BusyIsNotStuck(q, workers);
    }
    hide After, Legal, Below;
    assert q.running.Keys == {} && Runs(q.running) == {};
  }
}
