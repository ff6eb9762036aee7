/** What every operation of the timer queue keeps, also while callbacks add and cancel in mid-pass. */
module TimerSafety {
  import opened TimerSpec

  /** Allocating adds exactly the new number. */
  lemma Allocated(q: Queue, a: Address, t: Timer)
    requires Numbered(q) && a !in q.heap && t.sequence == q.created + 1
    ensures Numbered(q.(heap := q.heap[a := t], created := q.created + 1))
  {
    var h := q.heap[a := t];
    assert Numbers(h) == Numbers(q.heap) + {t.sequence} by {
      assert h[a] == t;
      assert forall b | b in q.heap :: b in h && h[b] == q.heap[b];
    }
    assert UpTo(q.created + 1) == UpTo(q.created) + {q.created + 1};
    assert q.created + 1 !in UpTo(q.created);
  }

  /** Deleting moves exactly the timer's number. */
  lemma Deleted(q: Queue, a: Address)
    requires Numbered(q) && a in q.heap
    ensures Numbered(Delete(q, a))
  {
    var h := q.heap - {a};
    assert Numbers(h) == Numbers(q.heap) - {q.heap[a].sequence} by {
      assert forall b | b in q.heap && b != a :: b in h && h[b] == q.heap[b];
    }
    assert q.heap[a].sequence in Numbers(q.heap);
  }

  lemma Restarted(q: Queue, a: Address, t: Timer)
    requires Numbered(q) && a in q.heap && t.sequence == q.heap[a].sequence
    ensures Numbered(q.(heap := q.heap[a := t]))
  {
    var h := q.heap[a := t];
    assert Numbers(h) == Numbers(q.heap) by {
      assert forall b | b in q.heap :: b in h && h[b].sequence == q.heap[b].sequence;
    }
  }

  /** Inserting a timer that no index holds. */
  lemma Inserted(q: Queue, a: Address)
    requires IndicesAgree(q) && a in q.heap && a !in Idle(q)
    ensures IndicesAgree(Insert(q, a)) && Idle(Insert(q, a)) == Idle(q) + {a}
  {
    var q' := Insert(q, a);
    assert Active(a, q.heap[a].sequence) in q'.active;
    assert Idle(q') == Idle(q) + {a} by {
      assert forall x :: x in q'.active <==> x in q.active || x == Active(a, q.heap[a].sequence);
    }
  }

  lemma SameIndices(q: Queue, q': Queue)
    requires IndicesAgree(q) && q'.timers == q.timers && q'.active == q.active
    requires forall a | a in Idle(q) :: a in q.heap && a in q'.heap && q'.heap[a] == q.heap[a]
    ensures IndicesAgree(q') && Idle(q') == Idle(q)
  {
    assert forall x | x in q.active :: x.timer in Idle(q);
  }

  lemma AllocatedOwned(q: Queue, a: Address, t: Timer)
    requires Owned(q) && a !in q.heap
    ensures BatchOk(q.heap[a := t], q.batch) && a !in Idle(q) && a !in Held(q.batch)
    ensures q.heap[a := t].Keys == (Idle(q) + {a}) + Held(q.batch)
    ensures forall b | b in Idle(q) :: b in q.heap
  {
  }

  lemma AddTimerKeepsInv(env: Env, q: Queue, delay: real, interval: real)
    requires ValidEnv(env) && Inv(q)
    ensures Inv(AddTimer(env, q, delay, interval))
  {
    var id := q.created + 1;
    var a := env.malloc(id, q.heap);
    var t := Timer(env.clock(q.ticks) + delay, interval, id);
    var q1 := q.(heap := q.heap[a := t], created := id, ticks := q.ticks + 1);
    assert a !in q.heap;
    hide IndicesAgree, BatchOk, ValidEnv, InsertEntry, Held, Idle, Numbers, UpTo, Numbered;
    Allocated(q, a, t);
    AllocatedOwned(q, a, t);
    SameIndices(q, q1);
    Inserted(q1, a);
    assert AddTimer(env, q, delay, interval) == Insert(q1, a);
    SameNumbers(q.(heap := q1.heap, created := id), Insert(q1, a));
  }

  lemma Unindexed(q: Queue, a: Address, n: nat)
    requires IndicesAgree(q) && Active(a, n) in q.active
    ensures a in q.heap && a in Idle(q)
    ensures var q1 := q.(active := q.active - {Active(a, n)},
                         timers := RemoveEntry(q.timers, Entry(q.heap[a].when, a)));
            IndicesAgree(q1) && Idle(q1) == Idle(q) - {a}
  {
    assert a in Idle(q);
  }

  lemma CancelTimerKeepsInv(q: Queue, id: nat)
    requires Inv(q)
    ensures Inv(CancelTimer(q, id))
  {
    hide IndicesAgree, Numbers, UpTo, Numbered, RemoveEntry, Held, Idle, BatchOk;
    if HasActive(q, id) {
      var a := FindActive(q, id);
      Unindexed(q, a, id);
      var q1 := q.(active := q.active - {Active(a, id)},
                   timers := RemoveEntry(q.timers, Entry(q.heap[a].when, a)));
      SameNumbers(q, q1);
      Deleted(q1, a);
      OtherTimers(q1, a, q1.heap - {a}, q1.batch);
      SameIndices(q1, Delete(q1, a));
    }
  }

  lemma {:induction false} SortedSplit(s: seq<Entry>, k: nat)
    requires Sorted(s) && k <= |s|
    ensures Sorted(s[k..])
    ensures forall x, y | x in s[..k] && y in s[k..] :: Less(x, y)
  {
    if k > 0 {
      SortedSplit(s[1..], k - 1);
      assert s[k..] == s[1..][k - 1..];
      assert forall x | x in s[..k] :: x == s[0] || x in s[1..][..k - 1];
    }
  }

  lemma SortedAt(s: seq<Entry>, i: nat, j: nat)
    requires Sorted(s) && i < j < |s|
    ensures Less(s[i], s[j])
  {
    SortedSplit(s, j);
    assert s[i] in s[..j] && s[j] in s[j..];
  }

  lemma HeldParts(s: seq<Entry>, k: nat)
    requires k <= |s|
    ensures Held(s) == Held(s[..k]) + Held(s[k..])
  {
    assert s == s[..k] + s[k..];
    assert forall e :: e in s <==> e in s[..k] || e in s[k..];
  }

  /** In an index no timer occurs twice, so a cut parts the timers as it parts the entries. */
  lemma TimersParted(q: Queue, k: nat)
    requires IndicesAgree(q) && k <= |q.timers|
    ensures Held(q.timers[..k]) !! Held(q.timers[k..])
    ensures Idle(q) == Held(q.timers[..k]) + Held(q.timers[k..])
  {
    var s := q.timers;
    SortedSplit(s, k);
    HeldParts(s, k);
    hide Sorted;
    assert Idle(q) == Held(s);
    forall x, y | x in s[..k] && y in s[k..] ensures x.timer != y.timer {
      assert x in s && y in s && Less(x, y);
    }
  }

  lemma TakenBatchOk(q: Queue, k: nat)
    requires IndicesAgree(q) && k <= |q.timers|
    ensures BatchOk(q.heap, q.timers[..k])
  {
    var s := q.timers;
    forall i, j | 0 <= i < j < k ensures s[i].timer != s[j].timer {
      SortedAt(s, i, j);
      assert s[i] in s && s[j] in s;
    }
  }

  lemma TakenIdle(q: Queue, taken: seq<Entry>)
    requires IndicesAgree(q) && forall e | e in taken :: e in q.timers
    ensures forall e | e in taken :: e.timer in q.heap
    ensures Idle(q.(active := q.active - ActiveOf(q.heap, taken))) == Idle(q) - Held(taken)
  {
    hide Sorted;
    var out := ActiveOf(q.heap, taken);
    assert forall x | x in q.active :: x in out <==> x.timer in Held(taken);
  }

  /** Numbers are unique, so any entry found under a number is the one the specification picks. */
  lemma FoundByNumber(q: Queue, x: Active)
    requires Inv(q) && x in q.active
    ensures x.timer in q.heap && q.heap[x.timer].sequence == x.sequence
    ensures HasActive(q, x.sequence) && FindActive(q, x.sequence) == x.timer
  {
    hide Sorted, UpTo, Numbers;
  }

  /** get_expired takes every due timer, and only those, out of both indices. */
  lemma TakeExpiredKeepsInv(q: Queue, now: real)
    requires Inv(q) && q.batch == []
    ensures Inv(TakeExpired(q, now))
    ensures forall e :: e in TakeExpired(q, now).batch <==> e in q.timers && e.when <= now
  {
    var k := DueCount(q.timers, now);
    DueExactly(q.timers, now);
    TakePrefix(q, k);
  }

  lemma TakePrefix(q: Queue, k: nat)
    requires Inv(q) && q.batch == [] && k <= |q.timers|
    ensures Inv(Take(q, k))
  {
    hide Numbers, UpTo, BatchOk, Numbered;
    var q' := Take(q, k);
    TimersParted(q, k);
    TakenBatchOk(q, k);
    TakenIdle(q, q.timers[..k]);
    SortedSplit(q.timers, k);
    hide Sorted;
    assert Held([]) == {};
    assert Idle(q') == Held(q'.timers) && q.heap.Keys == Idle(q);
    TakenAgree(q, q');
    SameNumbers(q, q');
  }

  lemma TakenAgree(q: Queue, q': Queue)
    requires IndicesAgree(q) && q'.heap == q.heap && Sorted(q'.timers) && q'.active <= q.active
    requires (forall e | e in q'.timers :: e in q.timers) && Idle(q') == Held(q'.timers)
    ensures IndicesAgree(q')
  {
    hide Sorted;
    forall a | a in Idle(q') ensures a in q'.heap && Entry(q'.heap[a].when, a) in q'.timers {
      var e :| e in q'.timers && e.timer == a;
      assert e in q.timers;
    }
  }

  lemma DueExactly(s: seq<Entry>, now: real)
    requires Sorted(s)
    ensures forall e :: e in s[..DueCount(s, now)] <==> e in s && e.when <= now
  {
    hide DueCount, Sorted;
    var k := DueCount(s, now);
    SortedSplit(s, k);
    PartsOf(s, k);
    if k < |s| {
      LateFrom(s[k..], now);
    }
    forall e | e in s[..k] ensures e.when <= now {
      var i :| 0 <= i < k && s[i] == e;
    }
  }

  lemma PartsOf(s: seq<Entry>, k: nat)
    requires k <= |s|
    ensures forall e :: e in s <==> e in s[..k] || e in s[k..]
  {
    assert s == s[..k] + s[k..];
  }

  lemma LateFrom(s: seq<Entry>, now: real)
    requires Sorted(s) && s != [] && s[0].when > now
    ensures forall e | e in s :: e.when > now
  {
    PartsOf(s, 1);
    assert s[..1] == [s[0]];
  }

  lemma BeginRunKeepsInv(q: Queue, now: real)
    requires Inv(q) && q.begun < |q.batch|
    ensures q.batch[q.begun].timer in q.heap
    ensures Inv(BeginRun(q, now))
  {
    hide Numbers, UpTo, Sorted;
    assert q.batch[q.begun] in q.batch;
  }

  lemma SameNumbers(q: Queue, q': Queue)
    requires Numbered(q) && q'.heap == q.heap && q'.deleted == q.deleted && q'.created == q.created
    ensures Numbered(q')
  {
  }

  lemma RearmKeepsInv(q: Queue, now: real)
    requires Inv(q) && q.begun > 0 && q.batch[0].timer in q.heap && q.heap[q.batch[0].timer].Repeats()
    ensures Inv(ReturnTimer(q, now))
  {
    hide Sorted, Numbers, UpTo, Numbered, Held, Idle, BatchOk, IndicesAgree, InsertEntry;
    var a := q.batch[0].timer;
    var t := q.heap[a].Restart(now);
    var q1 := q.(batch := q.batch[1..], begun := q.begun - 1, heap := q.heap[a := t]);
    FrontReturned(q);
    OtherTimers(q, a, q1.heap, q1.batch);
    Restarted(q, a, t);
    SameIndices(q, q1);
    Inserted(q1, a);
    assert ReturnTimer(q, now) == Insert(q1, a);
    SameNumbers(q.(heap := q1.heap), Insert(q1, a));
  }

  lemma FreeKeepsInv(q: Queue, now: real)
    requires Inv(q) && q.begun > 0 && q.batch[0].timer in q.heap && !q.heap[q.batch[0].timer].Repeats()
    ensures Inv(ReturnTimer(q, now))
  {
    hide Sorted, Numbers, UpTo, Numbered, Held, Idle, BatchOk, IndicesAgree;
    var a := q.batch[0].timer;
    var q1 := q.(batch := q.batch[1..], begun := q.begun - 1);
    FrontReturned(q);
    OtherTimers(q, a, q.heap - {a}, q1.batch);
    SameNumbers(q, q1);
    Deleted(q1, a);
    SameIndices(q, Delete(q1, a));
    assert ReturnTimer(q, now) == Delete(q1, a);
  }

  lemma ReturnTimerKeepsInv(q: Queue, now: real)
    requires Inv(q) && q.begun > 0
    ensures q.batch[0].timer in q.heap
    ensures Inv(ReturnTimer(q, now))
  {
    FrontReturned(q);
    if q.heap[q.batch[0].timer].Repeats() {
      RearmKeepsInv(q, now);
    } else {
      FreeKeepsInv(q, now);
    }
  }

  lemma OtherTimers(q: Queue, a: Address, h: Heap, rest: seq<Entry>)
    requires IndicesAgree(q) && BatchOk(q.heap, rest) && a !in Held(rest) && a !in Idle(q)
    requires forall b | b in q.heap && b != a :: b in h && h[b] == q.heap[b]
    ensures BatchOk(h, rest)
    ensures forall b | b in Idle(q) :: b in q.heap && b in h && h[b] == q.heap[b]
  {
  }

  /** The front of the batch is in neither index and not in the rest of the batch. */
  lemma FrontReturned(q: Queue)
    requires Owned(q) && q.batch != []
    ensures var a, rest := q.batch[0].timer, q.batch[1..];
            && a in q.heap && a !in Idle(q) && a !in Held(rest)
            && Held(q.batch) == {a} + Held(rest)
            && BatchOk(q.heap, rest)
  {
    assert q.batch[0] in q.batch;
    HeldParts(q.batch, 1);
    assert q.batch[..1] == [q.batch[0]];
    forall i, j | 0 <= i < j < |q.batch| - 1 ensures q.batch[1..][i].timer != q.batch[1..][j].timer {
      assert q.batch[i + 1].timer != q.batch[j + 1].timer;
    }
  }
}
