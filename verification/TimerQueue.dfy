/** The timer queue itself.  Every method performs one of the steps of `TimerSystem`. */
module TimerQueue {
  import opened TimerSystem

  // An id in the identity index has its timer allocated and in the expiry index.
  lemma ActiveIsQueued(heap: Heap, timers: seq<Entry>, batch: seq<Entry>, active: set<TimerId>, id: TimerId)
    requires EntriesOk(heap, timers, batch) && ActiveOk(heap, timers, active)
    ensures |timers| == |active|
    ensures id in active ==> id.timer in heap && EntryOf(heap, id.timer) in timers
  {
    SameSize(heap, timers, active);
  }

  // A timer about to be inserted is in neither index.
  lemma InsertIsNew(heap: Heap, timers: seq<Entry>, batch: seq<Entry>, active: set<TimerId>, e: Entry, id: TimerId)
    requires EntriesOk(heap, timers, batch) && ActiveOk(heap, timers, active)
    requires e.timer !in heap && id.timer == e.timer
    ensures e !in timers && id !in active && |timers| == |active|
  {
    SameSize(heap, timers, active);
  }

  // The i-th due timer is still in the identity index when the ones before it are erased.
  lemma ErasesOne(heap: Heap, timers: seq<Entry>, active: set<TimerId>, i: nat)
    requires EntriesOk(heap, timers, []) && ActiveOk(heap, timers, active) && i < |timers|
    ensures timers[i].timer in heap
    ensures var id := TimerId(timers[i].timer, heap[timers[i].timer].sequence);
            && id in active - Ids(heap, timers[..i])
            && Ids(heap, timers[..i + 1]) == Ids(heap, timers[..i]) + {id}
  {
    var e := timers[i];
    assert timers[..i + 1] == timers[..i] + [e];
    assert e in timers && e !in timers[..i];
    forall x | x in timers[..i] ensures x.timer != e.timer {
      assert x in timers;
    }
  }

  // A batch of callbacks: each one runs and then adds and cancels as it likes.
  function BatchEvents(callbacks: seq<seq<Event>>): seq<Event> {
    if callbacks == [] then [] else [RunNext] + callbacks[0] + BatchEvents(callbacks[1..])
  }

  lemma BatchEventsUnfold(callbacks: seq<seq<Event>>, i: nat, last: Event)
    requires i < |callbacks|
    ensures BatchEvents(callbacks[i..]) + [last] == [RunNext] + (callbacks[i] + (BatchEvents(callbacks[i + 1..]) + [last]))
  {
    assert callbacks[i..][1..] == callbacks[i + 1..];
  }

  lemma RunCons(s: State, ev: Event, rest: seq<Event>)
    requires IsRun(s, [ev] + rest)
    ensures Enabled(s, ev) && IsRun(Step(s, ev), rest) && Run(s, [ev] + rest) == Run(Step(s, ev), rest)
  {
    assert ([ev] + rest)[1..] == rest;
  }

  class Queue {
    var heap: Heap
    var timers: seq<Entry>
    var activeTimers: set<TimerId>
    var callingExpiredTimers: bool
    var cancelingTimers: set<TimerId>
    var numCreated: int
    var fd: Fd
    var lastArm: int
    ghost var batch: seq<Entry>
    ghost var next: nat
    ghost var batchTime: int
    ghost var freed: seq<TimerId>
    ghost var ran: seq<TimerId>

    ghost function View(): State
      reads this
    {
      State(heap, timers, activeTimers, callingExpiredTimers, cancelingTimers, batch, next, batchTime,
            numCreated, fd, lastArm, freed, ran)
    }

    constructor ()
      ensures View() == Start && Inv(View())
    {
      heap, timers, activeTimers := map[], [], {};
      callingExpiredTimers, cancelingTimers := false, {};
      numCreated, fd, lastArm := 0, Disarmed, 0;
      batch, next, batchTime, freed, ran := [], 0, 0, [], [];
    }

    method InsertEntry(timer: Addr) returns (earliestChanged: bool)
      requires timer in heap && EntriesOk(heap - {timer}, timers, batch) && ActiveOk(heap - {timer}, timers, activeTimers)
      modifies this`timers, this`activeTimers
      ensures View() == InsertTimer(old(View()), timer)
      ensures |timers| == |old(timers)| + 1 && |activeTimers| == |old(activeTimers)| + 1
      ensures TimerId(timer, heap[timer].sequence) in activeTimers
      ensures earliestChanged == EarliestChanged(old(View()), heap[timer].expiration)
    {
      hide EntriesOk, ActiveOk, Insert;
      earliestChanged := false;
      var when := heap[timer].expiration;
      var id := TimerId(timer, heap[timer].sequence);
      InsertIsNew(heap - {timer}, timers, batch, activeTimers, Entry(when, timer), id);
      assert |timers| == |activeTimers|;
      if timers == [] || when < timers[0].when {
        earliestChanged := true;
      }
      assert Entry(when, timer) !in timers;
      InsertLength(timers, Entry(when, timer));
      timers := Insert(timers, Entry(when, timer));
      assert id !in activeTimers;
      activeTimers := activeTimers + {id};
    }

    method ResetTimerfd(expiration: int, clock: int)
      modifies this`fd, this`lastArm
      ensures fd == Armed(Max(expiration, clock + 100)) && lastArm == clock
      ensures View() == Arm(old(View()), expiration, clock)
    {
      var microseconds := expiration - clock;
      if microseconds < 100 {
        microseconds := 100;
      }
      fd, lastArm := Armed(clock + microseconds), clock;
    }

    method NewTimer(timer: Addr, when: int, interval: real)
      modifies this`numCreated, this`heap
      ensures View() == old(View()).(numCreated := old(numCreated) + 1,
                                     heap := old(heap)[timer := Timer(when, interval, old(numCreated) + 1)])
    {
      numCreated := numCreated + 1;
      heap := heap[timer := Timer(when, interval, numCreated)];
    }

    // What addTimer does to the queue.
    method EnterTimer(timer: Addr, when: int, interval: real, clock: int)
      requires Inv(View()) && Enabled(View(), Add(timer, when, interval, clock))
      modifies this
      ensures View() == Step(old(View()), Add(timer, when, interval, clock))
    {
      hide Inv, EntriesOk, ActiveOk, InsertTimer, Arm, Max;
      OpenInv(View());
      ghost var before := View();
      NewTimer(timer, when, interval);
      assert heap - {timer} == old(heap);
      assert View() == before.(heap := heap, numCreated := numCreated);
      var earliestChanged := InsertEntry(timer);
      if earliestChanged {
        ResetTimerfd(heap[timer].expiration, clock);
      }
    }

    /** `addTimer` on the loop thread, with the memory the allocator returns: the timer is recorded
        as asked for, in both indexes, and nothing else changes in them. */
    method AddTimerInLoop(timer: Addr, when: int, interval: real, clock: int) returns (id: TimerId)
      requires Inv(View()) && Enabled(View(), Add(timer, when, interval, clock))
      modifies this
      ensures View() == Step(old(View()), Add(timer, when, interval, clock)) && Inv(View())
      ensures id == TimerId(timer, old(numCreated) + 1) && activeTimers == old(activeTimers) + {id}
      ensures heap == old(heap)[timer := Timer(when, interval, old(numCreated) + 1)]
      ensures forall e :: e in timers <==> e in old(timers) || e == Entry(when, timer)
    {
      hide Inv, Step;
      StepKeepsInv(View(), Add(timer, when, interval, clock));
      AddRecords(View(), timer, when, interval, clock);
      EnterTimer(timer, when, interval, clock);
      id := TimerId(timer, numCreated);
    }

    // The branches of cancelInLoop.
    method Unqueue(id: TimerId)
      requires id in activeTimers && id.timer in heap
      modifies this
      ensures View() == CancelTimer(old(View()), id)
    {
      hide Erase;
      var entry := Entry(heap[id.timer].expiration, id.timer);
      timers := Erase(timers, entry);
      heap := heap - {id.timer};
      activeTimers := activeTimers - {id};
      freed := freed + [id];
    }

    method CancelInLoop(id: TimerId)
      requires Inv(View())
      modifies this
      ensures View() == Step(old(View()), Cancel(id)) && Inv(View())
      ensures |timers| == |activeTimers|
    {
      OpenInv(View());
      ActiveIsQueued(heap, timers, batch, activeTimers, id);
      assert |timers| == |activeTimers|;
      StepKeepsInv(View(), Cancel(id));
      hide Inv, EntriesOk, ActiveOk, Erase;
      if id in activeTimers {
        assert Entry(heap[id.timer].expiration, id.timer) in timers;
        Unqueue(id);
      } else if callingExpiredTimers {
        cancelingTimers := cancelingTimers + {id};
      }
      assert View() == CancelTimer(old(View()), id);
      hide CancelTimer;
      OpenInv(View());
      ActiveIsQueued(heap, timers, batch, activeTimers, id);
    }

    method GetExpired(now: int) returns (expired: seq<Entry>)
      requires HeapOk(heap, numCreated) && EntriesOk(heap, timers, []) && ActiveOk(heap, timers, activeTimers)
      modifies this`timers, this`activeTimers
      ensures expired == old(timers)[..DueCount(old(timers), now)]
      ensures timers == old(timers)[DueCount(old(timers), now)..]
      ensures activeTimers == old(activeTimers) - Ids(heap, expired)
      ensures |timers| == |activeTimers|
    {
      var end := LowerBound(timers, Entry(now, UINTPTR_MAX));
      TakesExactlyTheDue(heap, numCreated, timers, [], now);
      assert end == |timers| || now < timers[end].when by {
        assert end < |timers| ==> timers[end] in timers[end..];
      }
      hide HeapOk, EntriesOk, ActiveOk, LowerBound, Ids;
      expired := timers[..end];
      timers := timers[end..];
      assert activeTimers == old(activeTimers) - Ids(heap, []) by { assert Ids(heap, []) == {}; }
      for i := 0 to |expired|
        invariant expired == old(timers)[..end] && timers == old(timers)[end..]
        invariant activeTimers == old(activeTimers) - Ids(heap, old(timers)[..i])
      {
        ErasesOne(heap, old(timers), old(activeTimers), i);
        var timer := TimerId(expired[i].timer, heap[expired[i].timer].sequence);
        assert timer in activeTimers;
        activeTimers := activeTimers - {timer};
      }
      SplitKeepsIndexes(heap, old(timers), old(activeTimers), end, Ids(heap, expired));
      ActiveIsQueued(heap, timers, expired, activeTimers, TimerId(0, 0));
    }

    // One turn of the loop in `reset`.
    method ResetEntry(a: Addr, now: int)
      requires Owned(View()) && batch != [] && a == batch[0].timer && now == batchTime
      modifies this
      ensures old(View()).batch[0].timer in old(View()).heap
      ensures View() == ResetOne(old(View())) && Owned(View())
      ensures batch == old(batch)[1..] && batchTime == old(batchTime)
    {
      ResetOneKeepsOwned(View());
      UnbatchKeepsEntries(heap, timers, batch);
      UnbatchKeepsActive(heap, timers, activeTimers, a);
      hide HeapOk, EntriesOk, ActiveOk, FreedOk, Insert;
      batch := batch[1..];
      var timer := TimerId(a, heap[a].sequence);
      if heap[a].Repeat() && timer !in cancelingTimers {
        heap := heap[a := heap[a].Restart(now)];
        assert heap - {a} == old(heap) - {a};
        var _ := InsertEntry(a);
      } else {
        heap := heap - {a};
        freed := freed + [timer];
      }
    }

    method Reset(expired: seq<Entry>, now: int, clock: int)
      requires Owned(View()) && expired == batch && now == batchTime
      modifies this
      ensures View() == Rearm(ResetAll(old(View())), clock)
    {
      hide Owned, InsertTimer;
      ghost var goal := ResetAll(View());
      for i := 0 to |expired|
        invariant Owned(View()) && batch == expired[i..] && batchTime == now
        invariant ResetAll(View()) == goal
      {
        assert batch[0] == expired[i];
        ResetEntry(expired[i].timer, now);
      }
      assert batch == [];
      if timers != [] {
        FirstIsAllocated(View());
        var nextExpire := heap[timers[0].timer].expiration;
        if nextExpire > 0 {
          ResetTimerfd(nextExpire, clock);
        }
      }
    }

    method BeginBatch(expired: seq<Entry>, now: int, fired: bool)
      modifies this
      ensures View() == old(View()).(batch := expired, next := 0, now := now, calling := true, canceling := {},
                                     fd := if fired then Disarmed else old(fd))
    {
      batch, next, batchTime := expired, 0, now;
      callingExpiredTimers := true;
      cancelingTimers := {};
      fd := if fired then Disarmed else fd;   // reading the descriptor
    }

    // The first half of the timer event: read the descriptor and take the expired entries.
    method TakeBatch(now: int, fired: bool) returns (expired: seq<Entry>)
      requires Inv(View()) && !callingExpiredTimers
      modifies this
      ensures View() == Step(old(View()), Expire(now, fired)) && Inv(View())
      ensures expired == batch && next == 0 && callingExpiredTimers && batchTime == now
      ensures |expired| == DueCount(old(timers), now)
    {
      hide Inv, HeapOk, EntriesOk, ActiveOk, DueCount, Ids;
      OpenInv(View());
      StepKeepsInv(View(), Expire(now, fired));
      ghost var s := View();
      expired := GetExpired(now);
      assert View() == s.(timers := timers, active := activeTimers);
      BeginBatch(expired, now, fired);
      assert View() == TakeExpired(s, now, fired);
    }

    // The second half: run the callbacks in order.
    method RunBatch(expired: seq<Entry>, callbacks: seq<seq<Event>>, ghost last: Event)
      requires Inv(View()) && expired == batch && next == 0 && callingExpiredTimers
      requires |callbacks| == |expired|
      requires forall cb, ev :: cb in callbacks && ev in cb ==> ev.Add? || ev.Cancel?
      requires IsRun(View(), BatchEvents(callbacks) + [last])
      modifies this
      ensures Inv(View()) && batch == expired && callingExpiredTimers && batchTime == old(batchTime)
      ensures Enabled(View(), last) && Step(View(), last) == Run(old(View()), BatchEvents(callbacks) + [last])
    {
      hide Owned, IsRun, Run, BatchEvents, AddTimer, CancelTimer, TakeExpired, FinishBatch;
      assert callbacks[0..] == callbacks;
      for i := 0 to |expired|
        invariant Inv(View()) && batch == expired && next == i && callingExpiredTimers && batchTime == old(batchTime)
        invariant IsRun(View(), BatchEvents(callbacks[i..]) + [last])
        invariant Run(View(), BatchEvents(callbacks[i..]) + [last]) == Run(old(View()), BatchEvents(callbacks) + [last])
      {
        ghost var after := BatchEvents(callbacks[i + 1..]) + [last];
        BatchEventsUnfold(callbacks, i, last);
        RunCons(View(), RunNext, callbacks[i] + after);
        StepKeepsInv(View(), RunNext);
        BatchIsAllocated(View(), i);
        ran := ran + [TimerId(batch[i].timer, heap[batch[i].timer].sequence)];
        next := next + 1;
        Callback(callbacks[i], after);
      }
      LastEvent(View(), callbacks[|expired|..], last);
    }

    /** The timer event: the callbacks of the due timers run in order, each adding and cancelling
        whatever it likes, and then the batch is reset. */
    method HandleRead(now: int, fired: bool, callbacks: seq<seq<Event>>, clock: int)
      requires Inv(View()) && !callingExpiredTimers
      requires |callbacks| == DueCount(timers, now)
      requires forall cb, ev :: cb in callbacks && ev in cb ==> ev.Add? || ev.Cancel?
      requires IsRun(View(), [Expire(now, fired)] + (BatchEvents(callbacks) + [Finish(clock)]))
      modifies this
      ensures View() == Run(old(View()), [Expire(now, fired)] + (BatchEvents(callbacks) + [Finish(clock)]))
      ensures Inv(View())
    {
      hide Owned, IsRun, Run, BatchEvents, DueCount, AddTimer, CancelTimer, TakeExpired, ResetAll, Rearm;
      RunKeepsInv(View(), [Expire(now, fired)] + (BatchEvents(callbacks) + [Finish(clock)]));
      RunCons(View(), Expire(now, fired), BatchEvents(callbacks) + [Finish(clock)]);
      var expired := TakeBatch(now, fired);
      RunBatch(expired, callbacks, Finish(clock));
      ghost var s := View();
      callingExpiredTimers := false;
      next := 0;
      OwnedFrame(s, View());
      Reset(expired, now, clock);
    }

    // What one callback does to the queue.
    method Callback(script: seq<Event>, ghost after: seq<Event>)
      requires Inv(View()) && IsRun(View(), script + after)
      requires forall ev :: ev in script ==> ev.Add? || ev.Cancel?
      modifies this
      ensures Inv(View()) && IsRun(View(), after)
      ensures Run(View(), after) == Run(old(View()), script + after)
      ensures batch == old(batch) && next == old(next) && callingExpiredTimers == old(callingExpiredTimers)
      ensures batchTime == old(batchTime)
    {
      hide Owned, IsRun, Run, Insert, Erase;
      for j := 0 to |script|
        invariant Inv(View()) && IsRun(View(), script[j..] + after)
        invariant Run(View(), script[j..] + after) == Run(old(View()), script + after)
        invariant batch == old(batch) && next == old(next) && callingExpiredTimers == old(callingExpiredTimers)
        invariant batchTime == old(batchTime)
      {
        assert script[j] in script;
        assert script[j..] + after == [script[j]] + (script[j + 1..] + after);
        RunCons(View(), script[j], script[j + 1..] + after);
        match script[j]
        case Add(a, when, interval, clock) => var _ := AddTimerInLoop(a, when, interval, clock);
        case Cancel(id) => CancelInLoop(id);
      }
      assert script[|script|..] + after == after;
    }
  }

  lemma InsertLength(s: seq<Entry>, e: Entry)
    ensures |Insert(s, e)| == |s| + 1
  {
  }

  lemma OpenInv(s: State)
    requires Inv(s)
    ensures !s.calling ==> s.batch == []
    ensures HeapOk(s.heap, s.numCreated) && EntriesOk(s.heap, s.timers, s.batch) && ActiveOk(s.heap, s.timers, s.active)
  {
  }

  lemma OwnedFrame(s: State, t: State)
    requires Owned(s)
    requires t == s.(calling := t.calling, next := t.next, fd := t.fd)
    ensures Owned(t)
  {
  }

  lemma FirstIsAllocated(s: State)
    requires Owned(s) && s.timers != []
    ensures s.timers[0].timer in s.heap
  {
    assert s.timers[0] in s.timers;
  }

  lemma BatchIsAllocated(s: State, i: nat)
    requires Owned(s) && i < |s.batch|
    ensures s.batch[i].timer in s.heap
  {
    assert s.batch[i] in s.batch;
  }

  lemma LastEvent(s: State, callbacks: seq<seq<Event>>, ev: Event)
    requires callbacks == [] && IsRun(s, BatchEvents(callbacks) + [ev])
    ensures Enabled(s, ev) && Run(s, BatchEvents(callbacks) + [ev]) == Step(s, ev)
  {
    assert BatchEvents(callbacks) + [ev] == [ev] + [];
    RunCons(s, ev, []);
  }
}
