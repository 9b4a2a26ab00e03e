/** The bounded blocking queue: two condition variables under one lock.

    A step is what a thread does between acquiring the lock and giving it up, by returning or
    by going to sleep.  Sleepers are woken by a notification, which picks any one of them, or
    for no reason at all. */
module BoundedBlockingQueue {

  type Thread = nat
  type Item = nat

  datatype State = State(
    capacity: nat,
    queue: seq<Item>,
    asleepTaking: set<Thread>,       // waiting on notEmpty
    wokenTaking: set<Thread>,        // woken, and about to acquire the lock again
    asleepPutting: set<Thread>,      // waiting on notFull
    wokenPutting: set<Thread>,
    item: map<Thread, Item>,         // what the threads inside put want to put
    put: seq<Item>,                  // history
    taken: seq<Item>)                // history

  function Start(capacity: nat): State {
    State(capacity, [], {}, {}, {}, {}, map[], [], [])
  }

  datatype Event =
    | Put(thread: Thread, x: Item, chosen: Thread)      // call put; `chosen` is whom a notification would wake
    | PutAgain(thread: Thread, chosen: Thread)          // continue in put after waking up
    | Take(thread: Thread, chosen: Thread)
    | TakeAgain(thread: Thread, chosen: Thread)
    | Spurious(thread: Thread)

  predicate Busy(s: State, t: Thread) {
    t in s.asleepTaking || t in s.wokenTaking || t in s.asleepPutting || t in s.wokenPutting
  }

  predicate Picks(chosen: Thread, asleep: set<Thread>) {
    asleep != {} ==> chosen in asleep
  }

  predicate Enabled(s: State, ev: Event) {
    match ev
    case Put(t, _, chosen) => !Busy(s, t) && Picks(chosen, s.asleepTaking)
    case PutAgain(t, chosen) => t in s.wokenPutting && t in s.item && Picks(chosen, s.asleepTaking)
    case Take(t, chosen) => !Busy(s, t) && Picks(chosen, s.asleepPutting)
    case TakeAgain(t, chosen) => t in s.wokenTaking && Picks(chosen, s.asleepPutting)
    case Spurious(t) => t in s.asleepTaking || t in s.asleepPutting
  }

  predicate Full(s: State) {
    |s.queue| == s.capacity
  }

  function NotifyTaker(s: State, chosen: Thread): State {
    if s.asleepTaking == {} then s
    else s.(asleepTaking := s.asleepTaking - {chosen}, wokenTaking := s.wokenTaking + {chosen})
  }

  function NotifyPutter(s: State, chosen: Thread): State {
    if s.asleepPutting == {} then s
    else s.(asleepPutting := s.asleepPutting - {chosen}, wokenPutting := s.wokenPutting + {chosen})
  }

  // The body of `put` once the lock is held.
  function TryPut(s: State, t: Thread, x: Item, chosen: Thread): State {
    if Full(s) then s.(asleepPutting := s.asleepPutting + {t}, item := s.item[t := x])
    else NotifyTaker(s.(queue := s.queue + [x], put := s.put + [x], item := s.item - {t}), chosen)
  }

  // The body of `take` once the lock is held.
  function TryTake(s: State, t: Thread, chosen: Thread): State {
    if s.queue == [] then s.(asleepTaking := s.asleepTaking + {t})
    else NotifyPutter(s.(queue := s.queue[1..], taken := s.taken + [s.queue[0]]), chosen)
  }

  function Step(s: State, ev: Event): State
    requires Enabled(s, ev)
  {
    match ev
    case Put(t, x, chosen) => TryPut(s, t, x, chosen)
    case PutAgain(t, chosen) => TryPut(s.(wokenPutting := s.wokenPutting - {t}), t, s.item[t], chosen)
    case Take(t, chosen) => TryTake(s, t, chosen)
    case TakeAgain(t, chosen) => TryTake(s.(wokenTaking := s.wokenTaking - {t}), t, chosen)
    case Spurious(t) =>
      if t in s.asleepTaking
      then s.(asleepTaking := s.asleepTaking - {t}, wokenTaking := s.wokenTaking + {t})
      else s.(asleepPutting := s.asleepPutting - {t}, wokenPutting := s.wokenPutting + {t})
  }

  predicate IsRun(s: State, evs: seq<Event>)
    decreases |evs|
  {
    evs == [] || (Enabled(s, evs[0]) && IsRun(Step(s, evs[0]), evs[1..]))
  }

  function Run(s: State, evs: seq<Event>): State
    requires IsRun(s, evs)
    decreases |evs|
  {
    if evs == [] then s else Run(Step(s, evs[0]), evs[1..])
  }

  // ----- what every interleaving keeps -----

  // Threads are in at most one place, and those inside put have their item.
  predicate Placed(s: State) {
    && s.asleepTaking !! s.wokenTaking && s.asleepPutting !! s.wokenPutting
    && s.asleepTaking + s.wokenTaking !! s.asleepPutting + s.wokenPutting
    && s.item.Keys == s.asleepPutting + s.wokenPutting
  }

  predicate Conserved(s: State) {
    |s.queue| <= s.capacity && s.taken + s.queue == s.put
  }

  // Sleepers are not needed: enough threads are awake for all items, and for all free slots.
  predicate EnoughAwake(s: State) {
    && (s.asleepTaking != {} ==> |s.queue| <= |s.wokenTaking|)
    && (s.asleepPutting != {} ==> s.capacity - |s.queue| <= |s.wokenPutting|)
  }

  predicate Inv(s: State) {
    Placed(s) && Conserved(s) && EnoughAwake(s)
  }

  lemma PutEnough(s: State, t: Thread, x: Item, chosen: Thread)
    requires Placed(s.(item := s.item - {t})) && Conserved(s) && !Busy(s, t) && Picks(chosen, s.asleepTaking)
    requires s.asleepTaking != {} ==> |s.queue| <= |s.wokenTaking|
    requires s.asleepPutting != {} ==> s.capacity - |s.queue| <= |s.wokenPutting| + 1
    ensures EnoughAwake(TryPut(s, t, x, chosen))
  {
    if !Full(s) && s.asleepTaking != {} {
      MovesOver(chosen, s.asleepTaking, s.wokenTaking);
    }
    hide Placed;
  }

  lemma PutPlaced(s: State, t: Thread, x: Item, chosen: Thread)
    requires Placed(s.(item := s.item - {t})) && !Busy(s, t) && Picks(chosen, s.asleepTaking)
    ensures Placed(TryPut(s, t, x, chosen))
  {
    var s' := TryPut(s, t, x, chosen);
    if !Full(s) {
      assert s'.asleepTaking + s'.wokenTaking == s.asleepTaking + s.wokenTaking;
    } else {
      assert s'.item.Keys == (s.item - {t}).Keys + {t};
    }
  }

  lemma PutKeepsInv(s: State, t: Thread, x: Item, chosen: Thread)
    requires Placed(s.(item := s.item - {t})) && Conserved(s) && !Busy(s, t) && Picks(chosen, s.asleepTaking)
    requires s.asleepTaking != {} ==> |s.queue| <= |s.wokenTaking|
    requires s.asleepPutting != {} ==> s.capacity - |s.queue| <= |s.wokenPutting| + 1
    ensures Inv(TryPut(s, t, x, chosen))
  {
    hide EnoughAwake, Placed, Picks, Busy;
    PutEnough(s, t, x, chosen);
    PutPlaced(s, t, x, chosen);
    PutConserved(s, t, x, chosen);
    hide TryPut, Conserved;
  }

  lemma PutConserved(s: State, t: Thread, x: Item, chosen: Thread)
    requires Conserved(s)
    ensures Conserved(TryPut(s, t, x, chosen))
  {
    assert s.taken + (s.queue + [x]) == s.taken + s.queue + [x];
  }

  lemma TakeEnough(s: State, t: Thread, chosen: Thread)
    requires Placed(s) && Conserved(s) && !Busy(s, t) && Picks(chosen, s.asleepPutting)
    requires s.asleepTaking != {} ==> |s.queue| <= |s.wokenTaking| + 1
    requires s.asleepPutting != {} ==> s.capacity - |s.queue| <= |s.wokenPutting|
    ensures EnoughAwake(TryTake(s, t, chosen))
  {
  }

  lemma TakePlaced(s: State, t: Thread, chosen: Thread)
    requires Placed(s) && !Busy(s, t) && Picks(chosen, s.asleepPutting)
    ensures Placed(TryTake(s, t, chosen))
  {
    var s' := TryTake(s, t, chosen);
    if s.queue != [] {
      assert s'.asleepPutting + s'.wokenPutting == s.asleepPutting + s.wokenPutting;
    }
  }

  lemma TakeKeepsInv(s: State, t: Thread, chosen: Thread)
    requires Placed(s) && Conserved(s) && !Busy(s, t) && Picks(chosen, s.asleepPutting)
    requires s.asleepTaking != {} ==> |s.queue| <= |s.wokenTaking| + 1
    requires s.asleepPutting != {} ==> s.capacity - |s.queue| <= |s.wokenPutting|
    ensures Inv(TryTake(s, t, chosen))
  {
    hide EnoughAwake, Placed, Picks, Busy;
    TakeEnough(s, t, chosen);
    TakePlaced(s, t, chosen);
    if s.queue != [] {
      assert s.queue == [s.queue[0]] + s.queue[1..];
      assert s.taken + [s.queue[0]] + s.queue[1..] == s.taken + s.queue;
    }
  }

  // A woken putter is about to run again, as if it had just called.
  lemma PutterLeaves(s: State, t: Thread)
    requires Placed(s) && t in s.wokenPutting
    ensures var s' := s.(wokenPutting := s.wokenPutting - {t});
            Placed(s'.(item := s'.item - {t})) && !Busy(s', t) && |s'.wokenPutting| == |s.wokenPutting| - 1
  {
    assert (s.item - {t}).Keys == s.asleepPutting + (s.wokenPutting - {t});
  }

  lemma TakerLeaves(s: State, t: Thread)
    requires Placed(s) && t in s.wokenTaking
    ensures var s' := s.(wokenTaking := s.wokenTaking - {t});
            Placed(s') && !Busy(s', t) && |s'.wokenTaking| == |s.wokenTaking| - 1
  {
  }

  lemma StepKeepsInv(s: State, ev: Event)
    requires Inv(s) && Enabled(s, ev)
    ensures Inv(Step(s, ev))
  {
    hide TryPut, TryTake, Placed, Busy, Picks;
    match ev
    case Put(t, x, chosen) =>
      assert s.item - {t} == s.item by { NewPutter(s, t); }
      PutKeepsInv(s, t, x, chosen);
    case PutAgain(t, chosen) =>
      PutterLeaves(s, t);
      PutKeepsInv(s.(wokenPutting := s.wokenPutting - {t}), t, s.item[t], chosen);
    case Take(t, chosen) =>
      TakeKeepsInv(s, t, chosen);
    case TakeAgain(t, chosen) =>
      TakerLeaves(s, t);
      TakeKeepsInv(s.(wokenTaking := s.wokenTaking - {t}), t, chosen);
    case Spurious(t) =>
      SpuriousKeepsInv(s, t);
  }

  lemma NewPutter(s: State, t: Thread)
    requires Placed(s) && !Busy(s, t)
    ensures s.item - {t} == s.item
  {
  }

  lemma SpuriousPlaced(s: State, t: Thread)
    requires Placed(s) && Enabled(s, Spurious(t))
    ensures Placed(Step(s, Spurious(t)))
  {
    var s' := Step(s, Spurious(t));
    if t in s.asleepTaking {
      assert s'.asleepTaking + s'.wokenTaking == s.asleepTaking + s.wokenTaking;
    } else {
      assert s'.asleepPutting + s'.wokenPutting == s.asleepPutting + s.wokenPutting;
    }
  }

  lemma MovesOver(t: Thread, asleep: set<Thread>, woken: set<Thread>)
    requires t in asleep && asleep !! woken
    ensures |woken + {t}| == |woken| + 1
  {
  }

  lemma SpuriousKeepsInv(s: State, t: Thread)
    requires Inv(s) && Enabled(s, Spurious(t))
    ensures Inv(Step(s, Spurious(t)))
  {
    SpuriousPlaced(s, t);
    if t in s.asleepTaking {
      MovesOver(t, s.asleepTaking, s.wokenTaking);
    } else {
      MovesOver(t, s.asleepPutting, s.wokenPutting);
    }
    hide Placed;
  }

  /** In every interleaving what was taken and what is queued is what was put, in order, the
      queue stays within its capacity, and no thread sleeps that is needed. */
  lemma {:induction false} RunKeepsInv(s: State, evs: seq<Event>)
    requires Inv(s) && IsRun(s, evs)
    ensures Inv(Run(s, evs))
    decreases |evs|
  {
    if evs != [] {
      StepKeepsInv(s, evs[0]);
      RunKeepsInv(Step(s, evs[0]), evs[1..]);
    }
  }

  // ----- what is put, from the calls -----

  // The items that the calls of a run put: each call puts its own item, when it first finds a free
  // slot.  `asked` is what the threads inside put have asked for.
  function PutBy(s: State, evs: seq<Event>, asked: map<Thread, Item>): seq<Item>
    requires IsRun(s, evs)
    decreases |evs|
  {
    if evs == [] then []
    else
      var asked' := if evs[0].Put? then asked[evs[0].thread := evs[0].x] else asked;
      (if (evs[0].Put? || evs[0].PutAgain?) && |s.queue| < s.capacity && evs[0].thread in asked'
       then [asked'[evs[0].thread]] else [])
      + PutBy(Step(s, evs[0]), evs[1..], asked')
  }

  // The threads inside put keep what they asked for.
  predicate Keeps(item: map<Thread, Item>, asked: map<Thread, Item>) {
    forall t :: t in item ==> t in asked && asked[t] == item[t]
  }

  lemma TryPutPuts(s: State, t: Thread, x: Item, chosen: Thread)
    requires |s.queue| <= s.capacity
    ensures var s' := TryPut(s, t, x, chosen);
            && s'.put == s.put + (if |s.queue| < s.capacity then [x] else [])
            && s'.item == if |s.queue| < s.capacity then s.item - {t} else s.item[t := x]
  {
  }

  lemma PutStep(s: State, ev: Event, asked: map<Thread, Item>)
    requires Inv(s) && Enabled(s, ev) && Keeps(s.item, asked)
    ensures var s' := Step(s, ev);
            var asked' := if ev.Put? then asked[ev.thread := ev.x] else asked;
            && Keeps(s'.item, asked')
            && s'.put == s.put + (if (ev.Put? || ev.PutAgain?) && |s.queue| < s.capacity && ev.thread in asked'
                                  then [asked'[ev.thread]] else [])
  {
    hide Placed, EnoughAwake;
    match ev
    case Put(t, x, chosen) =>
      TryPutPuts(s, t, x, chosen);
      hide TryPut;
    case PutAgain(t, chosen) =>
      TryPutPuts(s.(wokenPutting := s.wokenPutting - {t}), t, s.item[t], chosen);
      hide TryPut;
    case _ =>
  }

  lemma {:induction false} RunPuts(s: State, evs: seq<Event>, asked: map<Thread, Item>)
    requires Inv(s) && IsRun(s, evs) && Keeps(s.item, asked)
    ensures Run(s, evs).put == s.put + PutBy(s, evs, asked)
    decreases |evs|
  {
    hide Inv, Keeps;
    if evs != [] {
      StepKeepsInv(s, evs[0]);
      PutStep(s, evs[0], asked);
      RunPuts(Step(s, evs[0]), evs[1..], if evs[0].Put? then asked[evs[0].thread := evs[0].x] else asked);
    }
  }

  function Inside(s: State): set<Thread> {
    s.asleepTaking + s.wokenTaking + s.asleepPutting + s.wokenPutting
  }

  /** A call leaves exactly when it has done what it was made for: a taker with the first item of a
      queue that has one, a putter when there is a free slot; otherwise it sleeps. */
  lemma LeavesWhenDone(s: State, ev: Event)
    requires Inv(s) && Enabled(s, ev)
    ensures ev.Take? || ev.TakeAgain? ==>
              var s' := Step(s, ev);
              && (ev.thread in Inside(s') <==> s.queue == []) && (s.queue == [] ==> ev.thread in s'.asleepTaking)
              && s'.taken == s.taken + (if s.queue == [] then [] else [s.queue[0]])
    ensures ev.Put? || ev.PutAgain? ==>
              var s' := Step(s, ev);
              && (ev.thread in Inside(s') <==> |s.queue| == s.capacity)
              && (|s.queue| == s.capacity ==> ev.thread in s'.asleepPutting)
  {
    hide EnoughAwake;
  }

  // ----- no lost wakeup -----

  // Some thread sleeps and none is awake inside the queue.
  predicate AllAsleep(s: State) {
    s.asleepTaking + s.asleepPutting != {} && s.wokenTaking == {} && s.wokenPutting == {}
  }

  /** In every run from the empty queue: nothing is lost, duplicated or reordered; a taker
      sleeps only while enough takers are awake for all items, and a putter only while enough
      putters are awake for all free slots.  So when all threads inside sleep, none of them
      could go on, and, unless the capacity is zero, not both takers and putters sleep. */
  lemma NoLostWakeup(capacity: nat, evs: seq<Event>)
    requires IsRun(Start(capacity), evs)
    ensures var s := Run(Start(capacity), evs);
            && s.taken + s.queue == PutBy(Start(capacity), evs, map[]) && |s.queue| <= capacity
            && (s.asleepTaking != {} ==> |s.queue| <= |s.wokenTaking|)
            && (s.asleepPutting != {} ==> capacity - |s.queue| <= |s.wokenPutting|)
            && (AllAsleep(s) ==>
                  (s.asleepTaking != {} ==> s.queue == []) && (s.asleepPutting != {} ==> |s.queue| == capacity)
                  && (capacity > 0 ==> s.asleepTaking == {} || s.asleepPutting == {}))
  {
    RunKeepsInv(Start(capacity), evs);
    RunKeepsCapacity(Start(capacity), evs);
    RunPuts(Start(capacity), evs, map[]);
    hide Placed, PutBy, Run, IsRun, AllAsleep;
    if AllAsleep(Run(Start(capacity), evs)) {
      SleepMeans(Run(Start(capacity), evs));
    }
    assert [] + PutBy(Start(capacity), evs, map[]) == PutBy(Start(capacity), evs, map[]);
  }

  // When all inside sleep, none of them could go on.
  lemma SleepMeans(s: State)
    requires EnoughAwake(s) && |s.queue| <= s.capacity && AllAsleep(s)
    ensures (s.asleepTaking != {} ==> s.queue == []) && (s.asleepPutting != {} ==> |s.queue| == s.capacity)
  {
  }

  lemma {:induction false} RunKeepsCapacity(s: State, evs: seq<Event>)
    requires IsRun(s, evs)
    ensures Run(s, evs).capacity == s.capacity
    decreases |evs|
  {
    if evs != [] {
      RunKeepsCapacity(Step(s, evs[0]), evs[1..]);
    }
  }

  lemma DeadlockAtZeroCapacity(taker: Thread, putter: Thread, x: Item)
    requires taker != putter
    ensures var evs := [Take(taker, 0), Put(putter, x, taker)];
            IsRun(Start(0), evs) && AllAsleep(Run(Start(0), evs))
            && Run(Start(0), evs).asleepTaking != {} && Run(Start(0), evs).asleepPutting != {}
  {
    var s1 := Step(Start(0), Take(taker, 0));
    var s2 := Step(s1, Put(putter, x, taker));
    var evs := [Take(taker, 0), Put(putter, x, taker)];
    assert s1.asleepTaking == {taker} && s2.asleepPutting == {putter};
    assert evs[1..] == [Put(putter, x, taker)] && evs[1..][1..] == [];
    assert IsRun(s2, evs[1..][1..]) && IsRun(s1, evs[1..]);
    assert Run(s1, evs[1..]) == s2;
  }

  /** And for ever: with capacity zero nothing is put or taken in any run. */
  lemma {:induction false} NothingMovesAtZeroCapacity(s: State, evs: seq<Event>)
    requires s.capacity == 0 && s.queue == [] && IsRun(s, evs)
    ensures Run(s, evs).put == s.put && Run(s, evs).taken == s.taken
    ensures Inside(s) <= Inside(Run(s, evs))
    decreases |evs|
  {
    if evs != [] {
      StaysInside(s, evs[0]);
      NothingMovesAtZeroCapacity(Step(s, evs[0]), evs[1..]);
      hide Inside, Step;
    }
  }

  lemma StaysInside(s: State, ev: Event)
    requires s.capacity == 0 && s.queue == [] && Enabled(s, ev)
    ensures var s' := Step(s, ev);
            s'.capacity == 0 && s'.queue == [] && s'.put == s.put && s'.taken == s.taken && Inside(s) <= Inside(s')
  {
  }

  /** If an item is there for a sleeping taker, a woken taker will get it: whoever of them runs
      next leaves with the first item. */
  lemma WokenTakerSucceeds(s: State)
    requires Inv(s) && s.asleepTaking != {} && s.queue != []
    ensures s.wokenTaking != {}
    ensures forall t, chosen :: Enabled(s, TakeAgain(t, chosen)) ==>
              var s' := Step(s, TakeAgain(t, chosen));
              s'.taken == s.taken + [s.queue[0]] && t !in s'.asleepTaking + s'.wokenTaking
  {
  }

  /** And the same for a free slot and a sleeping putter. */
  lemma WokenPutterSucceeds(s: State)
    requires Inv(s) && s.asleepPutting != {} && !Full(s)
    ensures s.wokenPutting != {}
    ensures forall t, chosen :: Enabled(s, PutAgain(t, chosen)) ==>
              var s' := Step(s, PutAgain(t, chosen));
              s'.put == s.put + [s.item[t]] && t !in s'.asleepPutting + s'.wokenPutting
  {
  }
}
