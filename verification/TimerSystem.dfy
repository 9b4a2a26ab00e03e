/** What the timer queue does, as a transition system over values.

    One population of timers is held in an index by expiry and an index by identity, and
    callbacks add and cancel timers while a batch of expired ones is being run.  A run is any
    sequence of additions, cancellations and timer events, in any order the event loop
    allows.  Memory is explicit: `heap` holds the allocated timers, and freed addresses may
    be handed out again. */
module TimerSystem {

  type Addr = nat
  type Heap = map<Addr, Timer>

  const UINTPTR_MAX: Addr := 0xffff_ffff_ffff_ffff
  const MICROSECONDS_PER_SECOND := 1_000_000

  datatype Timer = Timer(expiration: int, interval: real, sequence: int) {
    predicate Repeat() {
      interval > 0.0
    }

    function Restart(now: int): Timer {
      if Repeat() then this.(expiration := now + (interval * MICROSECONDS_PER_SECOND as real).Floor)
      else this.(expiration := 0)
    }
  }

  datatype TimerId = TimerId(timer: Addr, sequence: int)
  datatype Entry = Entry(when: int, timer: Addr)

  // The timer descriptor: when it will fire, or has fired without being read yet.
  datatype Fd = Disarmed | Armed(deadline: int)

  // ----- ordered sets of entries -----

  predicate Less(a: Entry, b: Entry) {
    a.when < b.when || (a.when == b.when && a.timer < b.timer)
  }

  predicate Sorted(s: seq<Entry>) {
    forall i, j :: 0 <= i < j < |s| ==> Less(s[i], s[j])
  }

  function LowerBound(s: seq<Entry>, e: Entry): (k: nat)
    ensures k <= |s|
    ensures forall i :: 0 <= i < k ==> Less(s[i], e)
    ensures k < |s| ==> !Less(s[k], e)
  {
    if s == [] || !Less(s[0], e) then 0 else 1 + LowerBound(s[1..], e)
  }

  function Insert(s: seq<Entry>, e: Entry): seq<Entry> {
    var k := LowerBound(s, e);
    s[..k] + [e] + s[k..]
  }

  function Erase(s: seq<Entry>, e: Entry): seq<Entry> {
    var k := LowerBound(s, e);
    if k < |s| && s[k] == e then s[..k] + s[k + 1..] else s
  }

  lemma InsertSorted(s: seq<Entry>, e: Entry)
    requires Sorted(s) && e !in s
    ensures Sorted(Insert(s, e))
    ensures forall x :: x in Insert(s, e) <==> x in s || x == e
    ensures Insert(s, e)[0] == if s == [] || Less(e, s[0]) then e else s[0]
  {
    var k := LowerBound(s, e);
    forall i | k <= i < |s| ensures Less(e, s[i]) {
      assert s[k] in s;
      assert i > k ==> Less(s[k], s[i]);
    }
    InsertAt(s, e, k);
  }

  lemma InsertAt(s: seq<Entry>, e: Entry, k: nat)
    requires Sorted(s) && k <= |s|
    requires forall i :: 0 <= i < k ==> Less(s[i], e)
    requires forall i :: k <= i < |s| ==> Less(e, s[i])
    ensures Sorted(s[..k] + [e] + s[k..])
    ensures forall x :: x in s[..k] + [e] + s[k..] <==> x in s || x == e
  {
    hide Less;
    assert s == s[..k] + s[k..];
  }

  lemma EraseSorted(s: seq<Entry>, e: Entry)
    requires Sorted(s) && e in s
    ensures Sorted(Erase(s, e))
    ensures forall x :: x in Erase(s, e) <==> x in s && x != e
    ensures |Erase(s, e)| == |s| - 1
  {
    var k := LowerBound(s, e);
    assert s[k] == e;
    assert s == s[..k] + [e] + s[k + 1..];
    assert e !in s[..k] && e !in s[k + 1..];
  }

  // ----- the transition system -----

  datatype State = State(
    heap: Heap,
    timers: seq<Entry>,
    active: set<TimerId>,
    calling: bool,
    canceling: set<TimerId>,
    batch: seq<Entry>,     // the expired entries being run
    next: nat,             // the next of them to run
    now: int,              // when the batch was taken
    numCreated: int,
    fd: Fd,
    lastArm: int,
    freed: seq<TimerId>,   // history: timers deleted
    ran: seq<TimerId>)     // history: callbacks run

  const Start := State(map[], [], {}, false, {}, [], 0, 0, 0, Disarmed, 0, [], [])

  datatype Event =
    | Add(addr: Addr, when: int, interval: real, clock: int)
    | Cancel(id: TimerId)
    | Expire(time: int, fired: bool)
    | RunNext
    | Finish(resetClock: int)

  function IdOf(s: State, a: Addr): TimerId
    requires a in s.heap
  {
    TimerId(a, s.heap[a].sequence)
  }

  predicate Enabled(s: State, ev: Event) {
    match ev
    case Add(a, _, _, _) => 0 < a < UINTPTR_MAX && a !in s.heap
    case Cancel(_) => true
    case Expire(_, _) => !s.calling
    case RunNext => s.calling && s.next < |s.batch|
    case Finish(_) => s.calling && s.next == |s.batch|
  }

  // `resetTimerfd`: at least 100 microseconds from the moment of arming.
  function Arm(s: State, expiration: int, clock: int): State {
    var microseconds := if expiration - clock < 100 then 100 else expiration - clock;
    s.(fd := Armed(clock + microseconds), lastArm := clock)
  }

  function InsertTimer(s: State, a: Addr): State
    requires a in s.heap
  {
    s.(timers := Insert(s.timers, Entry(s.heap[a].expiration, a)), active := s.active + {IdOf(s, a)})
  }

  predicate EarliestChanged(s: State, when: int) {
    s.timers == [] || when < s.timers[0].when
  }

  function AddTimer(s: State, a: Addr, when: int, interval: real, clock: int): State {
    var s' := InsertTimer(
      s.(heap := s.heap[a := Timer(when, interval, s.numCreated + 1)], numCreated := s.numCreated + 1), a);
    if EarliestChanged(s, when) then Arm(s', when, clock) else s'
  }

  function CancelTimer(s: State, id: TimerId): State {
    if id in s.active && id.timer in s.heap then
      s.(timers := Erase(s.timers, Entry(s.heap[id.timer].expiration, id.timer)),
         heap := s.heap - {id.timer},
         active := s.active - {id},
         freed := s.freed + [id])
    else if s.calling then s.(canceling := s.canceling + {id})
    else s
  }

  function DueCount(timers: seq<Entry>, now: int): (k: nat)
    ensures k <= |timers|
  {
    LowerBound(timers, Entry(now, UINTPTR_MAX))
  }

  function Ids(heap: Heap, entries: seq<Entry>): set<TimerId> {
    set e | e in entries && e.timer in heap :: TimerId(e.timer, heap[e.timer].sequence)
  }

  function TakeExpired(s: State, now: int, fired: bool): State {
    var k := DueCount(s.timers, now);
    s.(timers := s.timers[k..], batch := s.timers[..k], active := s.active - Ids(s.heap, s.timers[..k]),
       calling := true, canceling := {}, next := 0, now := now,
       fd := if fired then Disarmed else s.fd)
  }

  // `reset` for the first entry of the batch.
  function ResetOne(s: State): State
    requires s.batch != [] && s.batch[0].timer in s.heap
  {
    var a := s.batch[0].timer;
    var rest := s.(batch := s.batch[1..]);
    if s.heap[a].Repeat() && IdOf(s, a) !in s.canceling then
      InsertTimer(rest.(heap := s.heap[a := s.heap[a].Restart(s.now)]), a)
    else rest.(heap := s.heap - {a}, freed := s.freed + [IdOf(s, a)])
  }

  function ResetAll(s: State): State
    decreases |s.batch|
  {
    if s.batch != [] && s.batch[0].timer in s.heap then ResetAll(ResetOne(s)) else s
  }

  function Rearm(s: State, clock: int): State {
    if s.timers != [] && s.timers[0].timer in s.heap && s.heap[s.timers[0].timer].expiration > 0
    then Arm(s, s.heap[s.timers[0].timer].expiration, clock) else s
  }

  function FinishBatch(s: State, clock: int): State {
    Rearm(ResetAll(s.(calling := false, next := 0)), clock)
  }

  function Step(s: State, ev: Event): State
    requires Enabled(s, ev)
  {
    match ev
    case Add(a, when, interval, clock) => AddTimer(s, a, when, interval, clock)
    case Cancel(id) => CancelTimer(s, id)
    case Expire(now, fired) => TakeExpired(s, now, fired)
    case RunNext =>
      var a := s.batch[s.next].timer;
      s.(ran := if a in s.heap then s.ran + [IdOf(s, a)] else s.ran, next := s.next + 1)
    case Finish(clock) => FinishBatch(s, clock)
  }

  predicate IsRun(s: State, evs: seq<Event>)
    decreases |evs|
  {
    evs == [] || (Enabled(s, evs[0]) && IsRun(Step(s, evs[0]), evs[1..]))
  }

  function Run(s: State, evs: seq<Event>): State
    requires IsRun(s, evs)
    decreases |evs|
  {
    if evs == [] then s else Run(Step(s, evs[0]), evs[1..])
  }

  // ----- ownership: what every run keeps -----

  function EntryOf(heap: Heap, a: Addr): Entry
    requires a in heap
  {
    Entry(heap[a].expiration, a)
  }

  predicate Live(heap: Heap, id: TimerId) {
    id.timer in heap && heap[id.timer].sequence == id.sequence
  }

  // The allocated timers are well formed, and sequence numbers tell them apart.
  predicate HeapOk(heap: Heap, numCreated: int) {
    && numCreated >= 0
    && (forall a :: a in heap ==> 0 < a < UINTPTR_MAX && 1 <= heap[a].sequence <= numCreated)
    && (forall a, b :: a in heap && b in heap && a != b ==> heap[a].sequence != heap[b].sequence)
  }

  // Every allocated timer is in the expiry index or in the batch, never in both, and its
  // key is its own expiration.
  predicate EntriesOk(heap: Heap, timers: seq<Entry>, batch: seq<Entry>) {
    && Sorted(timers) && Sorted(batch)
    && (forall e :: e in timers ==> e.timer in heap && e == EntryOf(heap, e.timer))
    && (forall e :: e in batch ==> e.timer in heap && e == EntryOf(heap, e.timer) && e !in timers)
    && (forall a :: a in heap ==> EntryOf(heap, a) in timers || EntryOf(heap, a) in batch)
  }

  // The identity index holds exactly the timers of the expiry index.
  ghost predicate ActiveOk(heap: Heap, timers: seq<Entry>, active: set<TimerId>) {
    forall id :: id in active <==> Live(heap, id) && EntryOf(heap, id.timer) in timers
  }

  // Every timer ever created is either allocated or was freed, once.
  predicate FreedOk(heap: Heap, numCreated: int, freed: seq<TimerId>) {
    && (forall i, j :: 0 <= i < j < |freed| ==> freed[i].sequence != freed[j].sequence)
    && (forall id, a :: id in freed && a in heap ==> heap[a].sequence != id.sequence)
    && (forall id :: id in freed ==> 1 <= id.sequence <= numCreated)
    && (forall q :: 1 <= q <= numCreated ==> Accounted(heap, freed, q))
  }

  predicate Accounted(heap: Heap, freed: seq<TimerId>, q: int) {
    (exists a :: a in heap && heap[a].sequence == q) || (exists id :: id in freed && id.sequence == q)
  }

  ghost predicate Owned(s: State) {
    && HeapOk(s.heap, s.numCreated)
    && EntriesOk(s.heap, s.timers, s.batch)
    && ActiveOk(s.heap, s.timers, s.active)
    && FreedOk(s.heap, s.numCreated, s.freed)
  }

  ghost predicate Inv(s: State) {
    && Owned(s)
    && (!s.calling ==> s.batch == [])
    && (s.calling ==> s.next <= |s.batch|)
  }

  lemma AccountedGrows(heap: Heap, freed: seq<TimerId>, heap': Heap, freed': seq<TimerId>, q: int)
    requires Accounted(heap, freed, q)
    requires forall id :: id in freed ==> id in freed'
    requires forall a :: a in heap ==>
               (a in heap' && heap'[a].sequence == heap[a].sequence) || TimerId(a, heap[a].sequence) in freed'
    ensures Accounted(heap', freed', q)
  {
    if a :| a in heap && heap[a].sequence == q {
      assert TimerId(a, q).sequence == q;
    }
  }

  // Putting an allocated timer that is in neither index nor in the batch into both indexes.
  lemma InsertKeeps(heap: Heap, a: Addr, timers: seq<Entry>, batch: seq<Entry>, active: set<TimerId>)
    requires a in heap
    requires EntriesOk(heap - {a}, timers, batch) && ActiveOk(heap - {a}, timers, active)
    ensures EntriesOk(heap, Insert(timers, EntryOf(heap, a)), batch)
    ensures ActiveOk(heap, Insert(timers, EntryOf(heap, a)), active + {TimerId(a, heap[a].sequence)})
  {
    var e, rest := EntryOf(heap, a), heap - {a};
    assert e !in timers;
    InsertSorted(timers, e);
    assert forall b :: b in heap && b != a ==> b in rest && EntryOf(rest, b) == EntryOf(heap, b);
  }

  lemma NewKeepsHeapOk(heap: Heap, numCreated: int, freed: seq<TimerId>, a: Addr, timer: Timer)
    requires HeapOk(heap, numCreated) && FreedOk(heap, numCreated, freed)
    requires 0 < a < UINTPTR_MAX && a !in heap && timer.sequence == numCreated + 1
    ensures HeapOk(heap[a := timer], numCreated + 1) && FreedOk(heap[a := timer], numCreated + 1, freed)
  {
    var heap' := heap[a := timer];
    forall q | 1 <= q <= numCreated + 1 ensures Accounted(heap', freed, q) {
      if q <= numCreated {
        AccountedGrows(heap, freed, heap', freed, q);
      } else {
        assert heap'[a].sequence == q;
      }
    }
  }

  lemma AddKeepsOwned(s: State, a: Addr, when: int, interval: real, clock: int)
    requires Owned(s) && 0 < a < UINTPTR_MAX && a !in s.heap
    ensures Owned(AddTimer(s, a, when, interval, clock))
  {
    hide HeapOk, EntriesOk, ActiveOk, FreedOk, Insert;
    var timer := Timer(when, interval, s.numCreated + 1);
    var heap := s.heap[a := timer];
    assert heap - {a} == s.heap;
    InsertKeeps(heap, a, s.timers, s.batch, s.active);
    NewKeepsHeapOk(s.heap, s.numCreated, s.freed, a, timer);
  }

  lemma FreeKeepsFreedOk(heap: Heap, numCreated: int, freed: seq<TimerId>, a: Addr)
    requires HeapOk(heap, numCreated) && FreedOk(heap, numCreated, freed) && a in heap
    ensures FreedOk(heap - {a}, numCreated, freed + [TimerId(a, heap[a].sequence)])
  {
    var freed' := freed + [TimerId(a, heap[a].sequence)];
    forall q | 1 <= q <= numCreated ensures Accounted(heap - {a}, freed', q) {
      AccountedGrows(heap, freed, heap - {a}, freed', q);
    }
  }

  lemma CancelKeepsOwned(s: State, id: TimerId)
    requires Owned(s)
    ensures Owned(CancelTimer(s, id))
  {
    if id in s.active {
      FreeKeepsFreedOk(s.heap, s.numCreated, s.freed, id.timer);
      EraseSorted(s.timers, EntryOf(s.heap, id.timer));
      CancelKeepsIndexes(s.heap, s.timers, s.batch, s.active, id);
    }
  }

  lemma CancelKeepsIndexes(heap: Heap, timers: seq<Entry>, batch: seq<Entry>, active: set<TimerId>, id: TimerId)
    requires EntriesOk(heap, timers, batch) && ActiveOk(heap, timers, active) && id in active
    ensures var timers' := Erase(timers, EntryOf(heap, id.timer));
            EntriesOk(heap - {id.timer}, timers', batch) && ActiveOk(heap - {id.timer}, timers', active - {id})
  {
    EraseSorted(timers, EntryOf(heap, id.timer));
  }

  /** Taking the expired entries takes exactly those due at `now`. */
  lemma TakesExactlyTheDue(heap: Heap, numCreated: int, timers: seq<Entry>, batch: seq<Entry>, now: int)
    requires HeapOk(heap, numCreated) && EntriesOk(heap, timers, batch)
    ensures forall e :: e in timers[..DueCount(timers, now)] ==> e.when <= now
    ensures forall e :: e in timers[DueCount(timers, now)..] ==> now < e.when
  {
    var k := DueCount(timers, now);
    forall i | k <= i < |timers| ensures now < timers[i].when {
      var e := timers[k];
      assert e in timers;
      assert i > k ==> Less(e, timers[i]);
    }
  }

  lemma SplitKeepsIndexes(heap: Heap, timers: seq<Entry>, active: set<TimerId>, k: nat, due: set<TimerId>)
    requires EntriesOk(heap, timers, []) && ActiveOk(heap, timers, active) && k <= |timers|
    requires due == Ids(heap, timers[..k])
    ensures EntriesOk(heap, timers[k..], timers[..k])
    ensures ActiveOk(heap, timers[k..], active - due)
  {
    assert timers == timers[..k] + timers[k..];
    assert forall e :: e in timers <==> e in timers[..k] || e in timers[k..];
    assert forall e :: e in timers[k..] ==> e !in timers[..k];
    forall id | Live(heap, id) ensures id in due <==> EntryOf(heap, id.timer) in timers[..k] {
      if EntryOf(heap, id.timer) in timers[..k] {
        assert EntryOf(heap, id.timer).timer == id.timer;
      }
    }
  }

  lemma TakeKeepsOwned(s: State, now: int, fired: bool)
    requires Owned(s) && s.batch == []
    ensures Owned(TakeExpired(s, now, fired))
  {
    var k := DueCount(s.timers, now);
    SplitKeepsIndexes(s.heap, s.timers, s.active, k, Ids(s.heap, s.timers[..k]));
  }

  // Removing the first entry of the batch together with its timer.
  lemma UnbatchKeepsEntries(heap: Heap, timers: seq<Entry>, batch: seq<Entry>)
    requires EntriesOk(heap, timers, batch) && batch != []
    ensures batch[0].timer in heap && batch[0] == EntryOf(heap, batch[0].timer) && batch[0] !in timers
    ensures EntriesOk(heap - {batch[0].timer}, timers, batch[1..])
  {
    var e, others := batch[0], batch[1..];
    var rest := heap - {e.timer};
    assert e in batch && batch == [e] + others;
    assert Sorted(others);
    forall x | x in others ensures x in batch && x != e && x.timer in rest && x == EntryOf(rest, x.timer) {
      assert Less(e, x);
    }
    forall x | x in timers ensures x.timer in rest && x == EntryOf(rest, x.timer) {
    }
    forall a | a in rest ensures EntryOf(rest, a) in timers || EntryOf(rest, a) in others {
      assert EntryOf(rest, a) == EntryOf(heap, a) != e;
    }
    hide Sorted;
  }

  lemma UnbatchKeepsActive(heap: Heap, timers: seq<Entry>, active: set<TimerId>, a: Addr)
    requires ActiveOk(heap, timers, active) && a in heap && EntryOf(heap, a) !in timers
    ensures ActiveOk(heap - {a}, timers, active)
  {
  }

  lemma RestartKeepsHeapOk(heap: Heap, numCreated: int, freed: seq<TimerId>, a: Addr, timer: Timer)
    requires HeapOk(heap, numCreated) && FreedOk(heap, numCreated, freed)
    requires a in heap && timer.sequence == heap[a].sequence
    ensures HeapOk(heap[a := timer], numCreated) && FreedOk(heap[a := timer], numCreated, freed)
  {
    var heap' := heap[a := timer];
    forall q | 1 <= q <= numCreated ensures Accounted(heap', freed, q) {
      AccountedGrows(heap, freed, heap', freed, q);
    }
  }

  lemma ResetOneKeepsOwned(s: State)
    requires Owned(s) && s.batch != []
    ensures s.batch[0].timer in s.heap && Owned(ResetOne(s))
  {
    UnbatchKeepsEntries(s.heap, s.timers, s.batch);
    var a := s.batch[0].timer;
    UnbatchKeepsActive(s.heap, s.timers, s.active, a);
    FreeKeepsFreedOk(s.heap, s.numCreated, s.freed, a);
    var timer := s.heap[a].Restart(s.now);
    var heap := s.heap[a := timer];
    assert heap - {a} == s.heap - {a};
    InsertKeeps(heap, a, s.timers, s.batch[1..], s.active);
    RestartKeepsHeapOk(s.heap, s.numCreated, s.freed, a, timer);
    assert HeapOk(s.heap - {a}, s.numCreated);
    hide HeapOk, EntriesOk, ActiveOk, FreedOk, Insert;
  }

  lemma {:induction false} ResetAllKeepsOwned(s: State)
    requires Owned(s)
    ensures Owned(ResetAll(s)) && ResetAll(s).batch == [] && ResetAll(s).calling == s.calling
    decreases |s.batch|
  {
    if s.batch != [] {
      ResetOneKeepsOwned(s);
      ResetAllKeepsOwned(ResetOne(s));
    }
  }

  lemma StepKeepsInv(s: State, ev: Event)
    requires Inv(s) && Enabled(s, ev)
    ensures Inv(Step(s, ev))
  {
    match ev
    case Add(a, when, interval, clock) => AddKeepsOwned(s, a, when, interval, clock);
    case Cancel(id) => CancelKeepsOwned(s, id);
    case Expire(now, fired) => TakeKeepsOwned(s, now, fired);
    case RunNext =>
    case Finish(clock) => ResetAllKeepsOwned(s.(calling := false, next := 0));
  }

  lemma {:induction false} RunKeepsInv(s: State, evs: seq<Event>)
    requires Inv(s) && IsRun(s, evs)
    ensures Inv(Run(s, evs))
    decreases |evs|
  {
    if evs != [] {
      StepKeepsInv(s, evs[0]);
      RunKeepsInv(Step(s, evs[0]), evs[1..]);
    }
  }

  /** The two indexes have the same size. */
  lemma {:induction false} SameSize(heap: Heap, timers: seq<Entry>, active: set<TimerId>)
    requires Sorted(timers) && forall e :: e in timers ==> e.timer in heap && e == EntryOf(heap, e.timer)
    requires ActiveOk(heap, timers, active)
    ensures |timers| == |active|
    decreases |timers|
  {
    if timers == [] {
      assert active == {};
    } else {
      var rest, e := timers[..|timers| - 1], timers[|timers| - 1];
      var id := TimerId(e.timer, heap[e.timer].sequence);
      assert timers == rest + [e];
      assert e !in rest;
      assert ActiveOk(heap, rest, active - {id});
      SameSize(heap, rest, active - {id});
    }
  }

  /** From the empty queue, every run keeps each allocated timer in exactly one of the queue and
      the batch, keeps the two indexes in bijection, and frees each timer at most once. */
  lemma EveryRunIsOwned(evs: seq<Event>)
    requires IsRun(Start, evs)
    ensures var s := Run(Start, evs);
            && (forall a :: a in s.heap ==>
                  (EntryOf(s.heap, a) in s.batch <==> EntryOf(s.heap, a) !in s.timers)
                  && (TimerId(a, s.heap[a].sequence) in s.active <==> EntryOf(s.heap, a) in s.timers))
            && |s.timers| == |s.active|
            && (forall e :: e in s.timers + s.batch ==> e.timer in s.heap && e == EntryOf(s.heap, e.timer))
            && (forall id :: id in s.active ==> Live(s.heap, id) && EntryOf(s.heap, id.timer) in s.timers)
            && (forall q :: 1 <= q <= s.numCreated ==> Allocated(s, q) != Freed(s, q))
            && (forall i, j :: 0 <= i < j < |s.freed| ==> s.freed[i].sequence != s.freed[j].sequence)
  {
    RunKeepsInv(Start, evs);
    var s := Run(Start, evs);
    SameSize(s.heap, s.timers, s.active);
    forall q | 1 <= q <= s.numCreated ensures Allocated(s, q) != Freed(s, q) {
      assert Accounted(s.heap, s.freed, q);
      if id :| id in s.freed && id.sequence == q {
        assert exists i :: 0 <= i < |s.freed| && s.freed[i] == id;
      }
    }
  }

  predicate Allocated(s: State, q: int) {
    exists a :: a in s.heap && s.heap[a].sequence == q
  }

  predicate Freed(s: State, q: int) {
    exists i :: 0 <= i < |s.freed| && s.freed[i].sequence == q
  }

  // ----- the end of a batch -----

  // What becomes of a timer of the batch: it is queued again, counted from the time the batch
  // was taken, if it repeats and was not cancelled meanwhile, and otherwise it is freed.
  ghost predicate Settled(s: State, t: State, a: Addr)
    requires a in s.heap
  {
    if s.heap[a].interval > 0.0 && IdOf(s, a) !in s.canceling then
      && Live(t.heap, IdOf(s, a)) && IdOf(s, a) in t.active
      && EntryOf(t.heap, a) == Entry(s.now + (s.heap[a].interval * 1000000.0).Floor, a)
      && EntryOf(t.heap, a) in t.timers
    else !Live(t.heap, IdOf(s, a)) && IdOf(s, a) in t.freed
  }

  lemma ResetOneSettles(s: State)
    requires Owned(s) && s.batch != []
    ensures s.batch[0].timer in s.heap && Settled(s, ResetOne(s), s.batch[0].timer)
  {
    UnbatchKeepsEntries(s.heap, s.timers, s.batch);
    ResetOneKeepsOwned(s);
    var a := s.batch[0].timer;
    assert EntryOf(s.heap, a) == s.batch[0];
    var t := ResetOne(s);
    if s.heap[a].Repeat() && IdOf(s, a) !in s.canceling {
      assert t.heap[a] == s.heap[a].Restart(s.now) && IdOf(s, a) in t.active;
    }
    hide Insert, HeapOk, FreedOk;
  }

  lemma ResetOneFrame(s: State, id: TimerId)
    requires s.batch != [] && s.batch[0].timer in s.heap && s.batch[0].timer != id.timer
    ensures var t := ResetOne(s);
            && t.batch == s.batch[1..]
            && (Live(t.heap, id) <==> Live(s.heap, id)) && (id in t.active <==> id in s.active)
            && (id.timer in s.heap ==> id.timer in t.heap && t.heap[id.timer] == s.heap[id.timer])
            && (id in s.freed ==> id in t.freed)
  {
    hide Insert;
  }

  // The rest of the batch does not touch a timer that is not in it.
  lemma {:induction false} ResetAllFrame(s: State, id: TimerId)
    requires Owned(s)
    requires forall e :: e in s.batch ==> e.timer != id.timer
    ensures var t := ResetAll(s);
            && (Live(t.heap, id) <==> Live(s.heap, id)) && (id in t.active <==> id in s.active)
            && (id.timer in s.heap ==> id.timer in t.heap && t.heap[id.timer] == s.heap[id.timer])
            && (id in s.freed ==> id in t.freed)
    decreases |s.batch|
  {
    hide Owned;
    if s.batch != [] {
      ResetOneKeepsOwned(s);
      ResetOneFrame(s, id);
      assert ResetAll(s) == ResetAll(ResetOne(s));
      hide ResetOne, ResetAll;
      ResetAllFrame(ResetOne(s), id);
    }
  }

  lemma FirstSettles(s: State)
    requires Owned(s) && s.batch != []
    ensures s.batch[0].timer in s.heap && Settled(s, ResetAll(s), s.batch[0].timer)
  {
    ResetOneSettles(s);
    FirstIsAlone(s);
    var s1, a := ResetOne(s), s.batch[0].timer;
    assert s1.batch == s.batch[1..];
    ResetOneKeepsOwned(s);
    ResetAllFrame(s1, IdOf(s, a));
    ResetAllKeepsOwned(s1);
    assert ResetAll(s) == ResetAll(s1);
    hide ResetOne, ResetAll, EntriesOk, HeapOk, FreedOk;
  }

  // Resetting the first entry leaves the other timers of the batch alone.
  lemma OthersWait(s: State, e: Entry)
    requires Owned(s) && s.batch != [] && e in s.batch && e != s.batch[0]
    ensures s.batch[0].timer in s.heap && ResetAll(s) == ResetAll(ResetOne(s))
    ensures var s1 := ResetOne(s);
            e in s1.batch && |s1.batch| < |s.batch| && Owned(s1)
            && e.timer in s.heap && e.timer in s1.heap && s1.heap[e.timer] == s.heap[e.timer]
            && s1.canceling == s.canceling && s1.now == s.now
  {
    hide Owned, Insert, EntryOf;
    ResetOneKeepsOwned(s);
    FirstDiffers(s, e);
  }

  lemma FirstDiffers(s: State, e: Entry)
    requires Owned(s) && s.batch != [] && e in s.batch && e != s.batch[0]
    ensures e in s.batch[1..] && e.timer != s.batch[0].timer && e.timer in s.heap
  {
    var i :| 1 <= i < |s.batch| && s.batch[i] == e;
    assert s.batch[1..][i - 1] == e;
    assert s.batch[0] in s.batch;
  }

  lemma {:induction false} ResetAllSettles(s: State, e: Entry)
    requires Owned(s) && e in s.batch
    ensures e.timer in s.heap && Settled(s, ResetAll(s), e.timer)
    decreases |s.batch|
  {
    hide Owned, ResetOne, ResetAll, EntryOf, Live;
    if e == s.batch[0] {
      FirstSettles(s);
    } else {
      OthersWait(s, e);
      ResetAllSettles(ResetOne(s), e);
    }
  }

  lemma FirstIsAlone(s: State)
    requires Owned(s) && s.batch != []
    ensures forall e :: e in s.batch[1..] ==> e.timer != s.batch[0].timer && e.timer in s.heap
  {
    forall e | e in s.batch[1..] ensures e.timer != s.batch[0].timer {
      var i :| 1 <= i < |s.batch| && s.batch[i] == e;
      assert Less(s.batch[0], s.batch[i]);
    }
  }

  /** At the end of a batch every timer in it that repeats and was not cancelled during the batch
      is in both indexes again, one interval after the batch was taken; every other is freed. */
  lemma FinishSettles(s: State, clock: int, e: Entry)
    requires Inv(s) && Enabled(s, Finish(clock)) && e in s.batch
    ensures e.timer in s.heap && Settled(s, Step(s, Finish(clock)), e.timer)
  {
    var s0 := s.(calling := false, next := 0);
    assert Owned(s0);
    hide ResetAll, Owned;
    ResetAllSettles(s0, e);
    assert Settled(s, ResetAll(s0), e.timer);
  }

  /** Timers that are not in the batch are left as they are. */
  lemma FinishLeavesOthers(s: State, clock: int, id: TimerId)
    requires Inv(s) && Enabled(s, Finish(clock)) && forall e :: e in s.batch ==> e.timer != id.timer
    ensures var t := Step(s, Finish(clock));
            && (Live(t.heap, id) <==> Live(s.heap, id)) && (id in t.active <==> id in s.active)
            && (id.timer in s.heap ==> id.timer in t.heap && t.heap[id.timer] == s.heap[id.timer])
  {
    var s0 := s.(calling := false, next := 0);
    assert Owned(s0);
    hide ResetAll, Owned;
    ResetAllFrame(s0, id);
  }

  // ----- what a call records -----

  /** Adding a timer records exactly what was asked for, under the next sequence number, in both
      indexes, and touches nothing else. */
  lemma AddRecords(s: State, a: Addr, when: int, interval: real, clock: int)
    requires Inv(s) && Enabled(s, Add(a, when, interval, clock))
    ensures var s' := Step(s, Add(a, when, interval, clock));
            && s'.numCreated == s.numCreated + 1
            && s'.heap == s.heap[a := Timer(when, interval, s.numCreated + 1)]
            && (forall e :: e in s'.timers <==> e in s.timers || e == Entry(when, a))
            && s'.active == s.active + {TimerId(a, s.numCreated + 1)}
            && s' == s.(heap := s'.heap, numCreated := s'.numCreated, timers := s'.timers, active := s'.active,
                        fd := s'.fd, lastArm := s'.lastArm)
  {
    assert Entry(when, a) !in s.timers;
    InsertSorted(s.timers, Entry(when, a));
    hide Insert, Owned;
  }

  /** Cancelling an id takes exactly that timer out of both indexes, and touches no other. */
  lemma CancelTouchesOnly(s: State, id: TimerId, other: TimerId)
    requires Inv(s) && other != id
    ensures var s' := Step(s, Cancel(id));
            && (other in s'.active <==> other in s.active) && (Live(s'.heap, other) <==> Live(s.heap, other))
            && (Live(s.heap, other) ==> s'.heap[other.timer] == s.heap[other.timer])
            && s'.batch == s.batch && s'.next == s.next && s'.ran == s.ran && s'.numCreated == s.numCreated
            && s'.freed == s.freed + (if id in s.active then [id] else [])
  {
    hide Erase;
  }

  // The timers that the calls of a run add, in order.
  function Adds(evs: seq<Event>): seq<Event> {
    if evs == [] then []
    else Adds(evs[..|evs| - 1]) + if evs[|evs| - 1].Add? then [evs[|evs| - 1]] else []
  }

  // A batch is taken at the time.
  ghost predicate BatchAt(evs: seq<Event>, time: int) {
    exists i :: 0 <= i < |evs| && evs[i].Expire? && evs[i].time == time
  }

  /** The timer is the one that the call with its sequence number asked for: at that address, with
      that interval, and due at the time given there or one interval after a batch was taken. */
  ghost predicate AsAdded(timer: Timer, a: Addr, evs: seq<Event>) {
    && 1 <= timer.sequence <= |Adds(evs)|
    && var add := Adds(evs)[timer.sequence - 1];
       && add.Add? && add.addr == a && add.interval == timer.interval
       && (timer.expiration == add.when ||
           (add.interval > 0.0 && BatchAt(evs, timer.expiration - (add.interval * 1000000.0).Floor)))
  }

  ghost predicate Recorded(s: State, evs: seq<Event>) {
    && s.numCreated == |Adds(evs)|
    && (s.calling ==> BatchAt(evs, s.now))
    && (forall a :: a in s.heap ==> AsAdded(s.heap[a], a, evs))
  }

  lemma AddsSnoc(evs: seq<Event>, ev: Event)
    ensures Adds(evs + [ev]) == Adds(evs) + if ev.Add? then [ev] else []
    ensures forall t :: BatchAt(evs, t) ==> BatchAt(evs + [ev], t)
    ensures ev.Expire? ==> BatchAt(evs + [ev], ev.time)
  {
    assert (evs + [ev])[..|evs|] == evs;
    forall t | BatchAt(evs, t) ensures BatchAt(evs + [ev], t) {
      var i :| 0 <= i < |evs| && evs[i].Expire? && evs[i].time == t;
      assert (evs + [ev])[i] == evs[i];
    }
    if ev.Expire? {
      assert (evs + [ev])[|evs|] == ev;
    }
  }

  lemma AsAddedStill(timer: Timer, a: Addr, evs: seq<Event>, ev: Event)
    requires AsAdded(timer, a, evs)
    ensures AsAdded(timer, a, evs + [ev])
  {
    AddsSnoc(evs, ev);
    hide Adds, BatchAt;
  }

  // A reset leaves a timer alone or sets it one interval after the batch was taken.
  predicate Again(timer: Timer, timer': Timer, now: int) {
    || timer' == timer
    || (timer.interval > 0.0 && timer' == timer.(expiration := now + (timer.interval * 1000000.0).Floor))
  }

  lemma {:induction false} ResetAllHeap(s: State)
    ensures forall a :: a in ResetAll(s).heap ==> a in s.heap && Again(s.heap[a], ResetAll(s).heap[a], s.now)
    ensures ResetAll(s).ran == s.ran && ResetAll(s).numCreated == s.numCreated && ResetAll(s).calling == s.calling
    decreases |s.batch|
  {
    if s.batch != [] && s.batch[0].timer in s.heap {
      ResetOneHeap(s);
      ResetAllHeap(ResetOne(s));
      hide ResetOne;
    }
  }

  lemma ResetOneHeap(s: State)
    requires s.batch != [] && s.batch[0].timer in s.heap
    ensures var t := ResetOne(s);
            && (forall a :: a in t.heap ==> a in s.heap && Again(s.heap[a], t.heap[a], s.now))
            && t.now == s.now && t.ran == s.ran && t.numCreated == s.numCreated && t.calling == s.calling
            && |t.batch| < |s.batch|
  {
    hide Insert;
  }

  lemma FinishRecorded(s: State, clock: int, evs: seq<Event>)
    requires Recorded(s, evs) && Enabled(s, Finish(clock))
    ensures Recorded(Step(s, Finish(clock)), evs + [Finish(clock)])
  {
    var s0, ev := s.(calling := false, next := 0), Finish(clock);
    ResetAllHeap(s0);
    var t := Step(s, ev);
    assert t.heap == ResetAll(s0).heap && t.numCreated == s.numCreated && !t.calling;
    hide ResetAll, Adds;
    AddsSnoc(evs, ev);
    forall a | a in t.heap ensures AsAdded(t.heap[a], a, evs + [ev]) {
      AsAddedStill(s.heap[a], a, evs, ev);
    }
  }

  // What the steps other than the end of a batch do to the heap and the records.
  lemma HeapAfter(s: State, ev: Event)
    requires Inv(s) && Enabled(s, ev) && !ev.Finish?
    ensures var s' := Step(s, ev);
            && s'.numCreated == s.numCreated + (if ev.Add? then 1 else 0)
            && (s'.calling ==> (ev.Expire? && s'.now == ev.time) || (s.calling && s'.now == s.now))
            && (forall a :: a in s'.heap && !(ev.Add? && a == ev.addr) ==> a in s.heap && s'.heap[a] == s.heap[a])
            && (ev.Add? ==> s'.heap[ev.addr] == Timer(ev.when, ev.interval, s.numCreated + 1))
  {
    hide Owned, Insert, Erase, DueCount, Ids;
    if ev.Add? {
      AddRecords(s, ev.addr, ev.when, ev.interval, ev.clock);
      hide Step;
    }
  }

  lemma NewAsAdded(ev: Event, evs: seq<Event>)
    requires ev.Add?
    ensures AsAdded(Timer(ev.when, ev.interval, |Adds(evs)| + 1), ev.addr, evs + [ev])
  {
    AddsSnoc(evs, ev);
    hide Adds, BatchAt;
  }

  lemma OtherRecorded(s: State, ev: Event, evs: seq<Event>)
    requires Inv(s) && Recorded(s, evs) && Enabled(s, ev) && !ev.Finish?
    ensures Recorded(Step(s, ev), evs + [ev])
  {
    HeapAfter(s, ev);
    AddsSnoc(evs, ev);
    var s' := Step(s, ev);
    hide Step, Inv, Adds, BatchAt, AsAdded;
    forall a | a in s'.heap ensures AsAdded(s'.heap[a], a, evs + [ev]) {
      if ev.Add? && a == ev.addr {
        NewAsAdded(ev, evs);
      } else {
        AsAddedStill(s.heap[a], a, evs, ev);
      }
    }
  }

  lemma StepRecorded(s: State, ev: Event, evs: seq<Event>)
    requires Inv(s) && Recorded(s, evs) && Enabled(s, ev)
    ensures Recorded(Step(s, ev), evs + [ev])
  {
    hide Inv, Recorded, Step;
    if ev.Finish? {
      FinishRecorded(s, ev.resetClock, evs);
    } else {
      OtherRecorded(s, ev, evs);
    }
  }

  lemma {:induction false} RunRecorded(s: State, prior: seq<Event>, evs: seq<Event>)
    requires Inv(s) && Recorded(s, prior) && IsRun(s, evs)
    ensures Recorded(Run(s, evs), prior + evs)
    decreases |evs|
  {
    hide Inv, Recorded;
    if evs == [] {
      assert prior + evs == prior;
    } else {
      StepKeepsInv(s, evs[0]);
      StepRecorded(s, evs[0], prior);
      RunRecorded(Step(s, evs[0]), prior + [evs[0]], evs[1..]);
      assert prior + [evs[0]] + evs[1..] == prior + evs;
    }
  }

  /** In every run from the empty queue as many timers have been created as were added, and each
      allocated one is as the call that added it asked for: its address, its interval, and a due
      time that is the one given there or one interval after some batch was taken. */
  lemma EveryTimerAsAdded(evs: seq<Event>)
    requires IsRun(Start, evs)
    ensures var s := Run(Start, evs);
            s.numCreated == |Adds(evs)| && forall a :: a in s.heap ==> AsAdded(s.heap[a], a, evs)
  {
    RunRecorded(Start, [], evs);
    assert [] + evs == evs;
    hide Adds, AsAdded;
  }

  // ----- what a batch runs -----

  function Due(timers: seq<Entry>, now: int): seq<Entry> {
    if timers == [] then []
    else (if timers[0].when <= now then [timers[0]] else []) + Due(timers[1..], now)
  }

  function IdsOf(heap: Heap, entries: seq<Entry>): seq<TimerId>
    requires forall e :: e in entries ==> e.timer in heap
  {
    seq(|entries|, i requires 0 <= i < |entries| => TimerId(entries[i].timer, heap[entries[i].timer].sequence))
  }

  lemma {:induction false} NoneDue(timers: seq<Entry>, now: int)
    requires forall e :: e in timers ==> now < e.when
    ensures Due(timers, now) == []
  {
    if timers != [] {
      assert timers[0] in timers;
      NoneDue(timers[1..], now);
    }
  }

  lemma {:induction false} DueIsPrefix(timers: seq<Entry>, now: int, k: nat)
    requires k <= |timers|
    requires forall e :: e in timers[..k] ==> e.when <= now
    requires forall e :: e in timers[k..] ==> now < e.when
    ensures Due(timers, now) == timers[..k]
    decreases k
  {
    if k == 0 {
      assert timers[0..] == timers;
      NoneDue(timers, now);
    } else {
      assert timers[0] in timers[..k];
      assert timers[1..][..k - 1] == timers[..k][1..] && timers[1..][k - 1..] == timers[k..];
      DueIsPrefix(timers[1..], now, k - 1);
      assert timers[..k] == [timers[0]] + timers[1..][..k - 1];
    }
  }

  // So many callbacks of the batch have run, in order, since it was taken.
  predicate Halfway(s: State, batch: seq<Entry>, ids: seq<TimerId>, ran: seq<TimerId>) {
    && s.calling && s.batch == batch && |ids| == |batch| && s.next <= |batch|
    && s.ran == ran + ids[..s.next]
    && forall i :: 0 <= i < |batch| ==>
         batch[i].timer in s.heap && ids[i] == TimerId(batch[i].timer, s.heap[batch[i].timer].sequence)
  }

  // A timer in the batch is in no index, so it cannot be freed by a cancel.
  lemma BatchIsInactive(s: State, id: TimerId, i: nat)
    requires Owned(s) && id in s.active && i < |s.batch|
    ensures id.timer != s.batch[i].timer
  {
    assert s.batch[i] in s.batch;
  }

  lemma HalfwayStep(s: State, ev: Event, batch: seq<Entry>, ids: seq<TimerId>, ran: seq<TimerId>)
    requires Inv(s) && Enabled(s, ev) && Halfway(s, batch, ids, ran) && (ev.Add? || ev.Cancel? || ev.RunNext?)
    ensures Halfway(Step(s, ev), batch, ids, ran)
  {
    match ev
    case Add(a, when, interval, clock) =>
      AddRecords(s, a, when, interval, clock);
      hide Step, Inv;
    case Cancel(id) =>
      if id in s.active {
        forall i | 0 <= i < |batch| ensures id.timer != batch[i].timer {
          BatchIsInactive(s, id, i);
        }
      }
      hide Inv, Erase, Owned;
    case RunNext =>
      assert ids[..s.next + 1] == ids[..s.next] + [ids[s.next]];
      assert ran + ids[..s.next] + [ids[s.next]] == ran + ids[..s.next + 1];
      hide Inv;
  }

  lemma {:induction false} HalfwayRun(s: State, evs: seq<Event>, clock: int,
                                      batch: seq<Entry>, ids: seq<TimerId>, ran: seq<TimerId>)
    requires Inv(s) && Halfway(s, batch, ids, ran) && IsRun(s, evs + [Finish(clock)])
    requires forall ev :: ev in evs ==> ev.Add? || ev.Cancel? || ev.RunNext?
    ensures Run(s, evs + [Finish(clock)]).ran == ran + ids
    decreases |evs|
  {
    var all := evs + [Finish(clock)];
    if evs == [] {
      assert all == [Finish(clock)] && all[1..] == [];
      ResetAllHeap(s.(calling := false, next := 0));
      assert ids[..|ids|] == ids;
    } else {
      assert all[0] == evs[0] && all[1..] == evs[1..] + [Finish(clock)];
      hide Inv, Halfway, Step;
      StepKeepsInv(s, evs[0]);
      HalfwayStep(s, evs[0], batch, ids, ran);
      HalfwayRun(Step(s, evs[0]), evs[1..], clock, batch, ids, ran);
    }
  }

  lemma ExpireStarts(s: State, now: int, fired: bool)
    requires Inv(s) && !s.calling
    ensures forall e :: e in Due(s.timers, now) ==> e.timer in s.heap
    ensures Halfway(Step(s, Expire(now, fired)), Due(s.timers, now), IdsOf(s.heap, Due(s.timers, now)), s.ran)
  {
    var k := DueCount(s.timers, now);
    TakesExactlyTheDue(s.heap, s.numCreated, s.timers, s.batch, now);
    DueIsPrefix(s.timers, now, k);
    var due := s.timers[..k];
    forall e | e in due ensures e.timer in s.heap {
      assert e in s.timers;
    }
    assert Step(s, Expire(now, fired)).batch == due;
    var ids := IdsOf(s.heap, due);
    assert s.ran + ids[..0] == s.ran;
    hide Due, DueCount, Ids, Owned;
  }

  /** Between a timer event and the end of its batch, whatever is added and cancelled meanwhile, the
      callbacks that run are those of the timers due at the time, each once, in order of due time. */
  lemma BatchRunsTheDue(s: State, now: int, fired: bool, evs: seq<Event>, clock: int)
    requires Inv(s) && !s.calling && IsRun(s, [Expire(now, fired)] + (evs + [Finish(clock)]))
    requires forall ev :: ev in evs ==> ev.Add? || ev.Cancel? || ev.RunNext?
    ensures forall e :: e in Due(s.timers, now) ==> e.timer in s.heap
    ensures Run(s, [Expire(now, fired)] + (evs + [Finish(clock)])).ran == s.ran + IdsOf(s.heap, Due(s.timers, now))
  {
    var all := [Expire(now, fired)] + (evs + [Finish(clock)]);
    assert all[0] == Expire(now, fired) && all[1..] == evs + [Finish(clock)];
    ExpireStarts(s, now, fired);
    StepKeepsInv(s, Expire(now, fired));
    hide Inv, Halfway, Step, Due;
    HalfwayRun(Step(s, Expire(now, fired)), evs, clock, Due(s.timers, now), IdsOf(s.heap, Due(s.timers, now)), s.ran);
  }

  // ----- cancellation -----

  // The id is in no index, and if its timer is in the batch it is marked for deletion.
  ghost predicate Cancelled(s: State, id: TimerId) {
    && id.sequence <= s.numCreated
    && id !in s.active
    && (Live(s.heap, id) ==> EntryOf(s.heap, id.timer) in s.batch && id in s.canceling)
  }

  // Callbacks of the id still ahead in the batch being run.
  function Ahead(s: State, id: TimerId): nat {
    if s.next <= |s.batch| && Live(s.heap, id) && EntryOf(s.heap, id.timer) in s.batch[s.next..] then 1 else 0
  }

  function Runs(s: State, id: TimerId): nat {
    multiset(s.ran)[id]
  }

  lemma CancelKeepsRuns(s: State, id: TimerId)
    requires Inv(s)
    ensures Inv(CancelTimer(s, id))
    ensures Runs(CancelTimer(s, id), id) + Ahead(CancelTimer(s, id), id) <= Runs(s, id) + Ahead(s, id)
  {
    CancelKeepsOwned(s, id);
  }

  lemma CancelledIsOut(s: State, id: TimerId)
    requires Cancelled(s, id)
    ensures id !in s.active
  {
  }

  lemma CancelCancels(s: State, id: TimerId)
    requires Inv(s) && id.sequence <= s.numCreated
    ensures Cancelled(CancelTimer(s, id), id)
  {
  }

  lemma ResetOneKeepsCancelled(s: State, id: TimerId)
    requires Owned(s) && s.batch != [] && s.batch[0].timer in s.heap && Cancelled(s, id)
    ensures Cancelled(ResetOne(s), id)
    ensures ResetOne(s).ran == s.ran
  {
  }

  lemma {:induction false} ResetAllKeepsCancelled(s: State, id: TimerId)
    requires Owned(s) && Cancelled(s, id)
    ensures Cancelled(ResetAll(s), id) && !Live(ResetAll(s).heap, id)
    ensures ResetAll(s).ran == s.ran && ResetAll(s).batch == []
    decreases |s.batch|
  {
    if s.batch != [] {
      ResetOneKeepsOwned(s);
      ResetOneKeepsCancelled(s, id);
      ResetAllKeepsCancelled(ResetOne(s), id);
    }
  }

  lemma AddKeepsCancelled(s: State, a: Addr, when: int, interval: real, clock: int, id: TimerId)
    requires Inv(s) && a !in s.heap && Cancelled(s, id)
    ensures var s' := AddTimer(s, a, when, interval, clock);
            Cancelled(s', id) && s'.ran == s.ran && Ahead(s', id) == Ahead(s, id)
  {
    hide Owned, Insert;
    var s' := AddTimer(s, a, when, interval, clock);
    assert Live(s'.heap, id) <==> Live(s.heap, id);
  }

  lemma CancelKeepsCancelled(s: State, other: TimerId, id: TimerId)
    requires Inv(s) && Cancelled(s, id)
    ensures var s' := CancelTimer(s, other);
            Cancelled(s', id) && s'.ran == s.ran && Ahead(s', id) <= Ahead(s, id)
  {
    hide Owned, Erase;
  }

  lemma RunNextKeepsCancelled(s: State, id: TimerId)
    requires Inv(s) && Enabled(s, RunNext) && Cancelled(s, id)
    ensures var s' := Step(s, RunNext);
            Cancelled(s', id) && Runs(s', id) + Ahead(s', id) == Runs(s, id) + Ahead(s, id)
  {
    var e := s.batch[s.next];
    assert e in s.batch;
    assert s.batch[s.next..] == [e] + s.batch[s.next + 1..];
    assert e !in s.batch[s.next + 1..];
    assert Live(s.heap, id) && e == EntryOf(s.heap, id.timer) <==> id == IdOf(s, e.timer);
  }

  lemma StepKeepsCancelled(s: State, ev: Event, id: TimerId)
    requires Inv(s) && Enabled(s, ev) && Cancelled(s, id)
    ensures Cancelled(Step(s, ev), id)
    ensures Runs(Step(s, ev), id) + Ahead(Step(s, ev), id) <= Runs(s, id) + Ahead(s, id)
  {
    match ev
    case Add(a, when, interval, clock) => AddKeepsCancelled(s, a, when, interval, clock, id);
    case Cancel(other) => CancelKeepsCancelled(s, other, id);
    case Expire(now, fired) => hide Owned, LowerBound, DueCount;
    case RunNext => RunNextKeepsCancelled(s, id);
    case Finish(clock) =>
      ResetAllKeepsCancelled(s.(calling := false, next := 0), id);
      hide Owned, ResetAll;
  }

  lemma {:induction false} RunKeepsCancelled(s: State, evs: seq<Event>, id: TimerId)
    requires Inv(s) && IsRun(s, evs) && Cancelled(s, id)
    ensures Cancelled(Run(s, evs), id)
    ensures Runs(Run(s, evs), id) <= Runs(s, id) + Ahead(s, id)
    decreases |evs|
  {
    if evs != [] {
      StepKeepsInv(s, evs[0]);
      StepKeepsCancelled(s, evs[0], id);
      RunKeepsCancelled(Step(s, evs[0]), evs[1..], id);
    }
  }

  /** Once cancelled, a timer is never in the queue again, and its callback runs again at most
      once, and only if it is still ahead in the batch being run. */
  lemma CancelIsFinal(s: State, id: TimerId, evs: seq<Event>)
    requires Inv(s) && id.sequence <= s.numCreated && IsRun(CancelTimer(s, id), evs)
    ensures id !in Run(CancelTimer(s, id), evs).active
    ensures Runs(Run(CancelTimer(s, id), evs), id) <= Runs(s, id) + Ahead(s, id)
  {
    CancelKeepsOwned(s, id);
    CancelCancels(s, id);
    CancelKeepsRuns(s, id);
    hide Owned, Cancelled, Runs, Ahead, CancelTimer;
    RunKeepsCancelled(CancelTimer(s, id), evs, id);
    CancelledIsOut(Run(CancelTimer(s, id), evs), id);
  }

  // The states differ only in whether a dead id is marked for deletion.
  ghost predicate Twins(s: State, t: State, id: TimerId) {
    && t == s.(canceling := t.canceling)
    && t.canceling - {id} == s.canceling - {id}
    && id.sequence <= s.numCreated && !Live(s.heap, id)
  }

  lemma ResetOneTwins(s: State, t: State, id: TimerId)
    requires Twins(s, t, id) && s.batch != [] && s.batch[0].timer in s.heap
    ensures Twins(ResetOne(s), ResetOne(t), id)
  {
    hide Insert;
    var a := s.batch[0].timer;
    assert IdOf(s, a) != id;
    assert IdOf(s, a) in s.canceling <==> IdOf(s, a) in s.canceling - {id};
    assert IdOf(s, a) in t.canceling <==> IdOf(s, a) in t.canceling - {id};
  }

  lemma {:induction false} ResetAllTwins(s: State, t: State, id: TimerId)
    requires Twins(s, t, id)
    ensures Twins(ResetAll(s), ResetAll(t), id)
    decreases |s.batch|
  {
    if s.batch != [] && s.batch[0].timer in s.heap {
      ResetOneTwins(s, t, id);
      ResetAllTwins(ResetOne(s), ResetOne(t), id);
    }
  }

  lemma FinishTwins(s: State, t: State, id: TimerId, clock: int)
    requires Twins(s, t, id)
    ensures Twins(FinishBatch(s, clock), FinishBatch(t, clock), id)
  {
    hide ResetAll;
    ResetAllTwins(s.(calling := false, next := 0), t.(calling := false, next := 0), id);
  }

  lemma StepTwins(s: State, t: State, id: TimerId, ev: Event)
    requires Twins(s, t, id) && Enabled(s, ev)
    ensures Enabled(t, ev) && Twins(Step(s, ev), Step(t, ev), id)
  {
    hide Insert, Erase, DueCount, FinishBatch;
    match ev
    case Add(_, _, _, _) =>
    case Cancel(x) =>
      assert (s.canceling + {x}) - {id} == (s.canceling - {id}) + ({x} - {id});
      assert (t.canceling + {x}) - {id} == (t.canceling - {id}) + ({x} - {id});
    case Expire(_, _) =>
    case RunNext =>
    case Finish(clock) => FinishTwins(s, t, id, clock);
  }

  lemma {:induction false} RunTwins(s: State, t: State, id: TimerId, evs: seq<Event>)
    requires Inv(s) && Twins(s, t, id) && IsRun(s, evs)
    ensures IsRun(t, evs) && Twins(Run(s, evs), Run(t, evs), id)
    decreases |evs|
  {
    if evs != [] {
      StepKeepsInv(s, evs[0]);
      StepTwins(s, t, id, evs[0]);
      RunTwins(Step(s, evs[0]), Step(t, evs[0]), id, evs[1..]);
    }
  }

  /** Cancelling an id whose timer is gone changes nothing any run can observe, even if
      another timer now lives at its address: the indexes, the timers, the descriptor and the
      callbacks run are the same as if it had not been cancelled. */
  lemma StaleCancelIsInvisible(s: State, id: TimerId, evs: seq<Event>)
    requires Inv(s) && id.sequence <= s.numCreated && !Live(s.heap, id) && IsRun(s, evs)
    ensures IsRun(CancelTimer(s, id), evs)
    ensures var t := Run(CancelTimer(s, id), evs);
            t == Run(s, evs).(canceling := t.canceling)
  {
    RunTwins(s, CancelTimer(s, id), id, evs);
  }

  // ----- the timer descriptor -----

  function Max(a: int, b: int): int {
    if a < b then b else a
  }

  predicate ArmedInTime(s: State) {
    s.fd.Armed? && (s.timers != [] ==> s.fd.deadline <= Max(s.timers[0].when, s.lastArm + 100))
  }

  // At rest a non-empty queue is armed in time; while a batch is being run, only entries that
  // were not due when the batch was taken can be in the queue without being armed for.
  ghost predicate FdOk(s: State) {
    s.timers != [] && (s.calling ==> s.timers[0].when <= s.now) ==> ArmedInTime(s)
  }

  // The clock shows a time after the start of 1970.
  predicate ClockOk(ev: Event) {
    ev.Expire? ==> ev.time > 0
  }

  lemma AddKeepsFdOk(s: State, a: Addr, when: int, interval: real, clock: int)
    requires Inv(s) && FdOk(s) && a !in s.heap
    ensures FdOk(AddTimer(s, a, when, interval, clock))
  {
    assert Entry(when, a) !in s.timers;
    InsertSorted(s.timers, Entry(when, a));
  }

  lemma CancelKeepsFdOk(s: State, id: TimerId)
    requires Inv(s) && FdOk(s)
    ensures FdOk(CancelTimer(s, id))
  {
    if id in s.active {
      EraseSorted(s.timers, EntryOf(s.heap, id.timer));
      var timers := CancelTimer(s, id).timers;
      if timers != [] {
        assert timers[0] in s.timers;
        assert s.timers[0].when <= timers[0].when;
      }
    }
  }

  // Restarted timers are not due before the batch was taken.
  lemma ResetOneEntries(s: State)
    requires Owned(s) && s.batch != [] && s.batch[0].timer in s.heap
    ensures forall e :: e in ResetOne(s).timers ==> e in s.timers || e.when >= s.now
  {
    var a := s.batch[0].timer;
    if s.heap[a].Repeat() && IdOf(s, a) !in s.canceling {
      UnbatchKeepsEntries(s.heap, s.timers, s.batch);
      var e := Entry(s.heap[a].Restart(s.now).expiration, a);
      assert e !in s.timers;
      InsertSorted(s.timers, e);
    }
  }

  lemma {:induction false} ResetAllEntries(s: State)
    requires Owned(s)
    ensures forall e :: e in ResetAll(s).timers ==> e in s.timers || e.when >= s.now
    ensures ResetAll(s).fd == s.fd && ResetAll(s).lastArm == s.lastArm
    decreases |s.batch|
  {
    if s.batch != [] {
      ResetOneKeepsOwned(s);
      ResetOneEntries(s);
      ResetAllEntries(ResetOne(s));
    }
  }

  lemma FinishKeepsFdOk(s: State, clock: int)
    requires Inv(s) && FdOk(s) && s.calling && s.now > 0
    ensures FdOk(FinishBatch(s, clock)) && !FinishBatch(s, clock).calling
  {
    var idle := s.(calling := false, next := 0);
    ResetAllKeepsOwned(idle);
    ResetAllEntries(idle);
    var t := ResetAll(idle);
    if t.timers != [] {
      var e := t.timers[0];
      assert e in t.timers && e == EntryOf(t.heap, e.timer);
      if e.when <= 0 {
        assert e in s.timers;
        assert s.timers[0].when <= e.when;
      }
    }
    hide Owned, ResetAll;
  }

  lemma StepKeepsFdOk(s: State, ev: Event)
    requires Inv(s) && FdOk(s) && Enabled(s, ev) && ClockOk(ev) && (s.calling ==> s.now > 0)
    ensures FdOk(Step(s, ev)) && (Step(s, ev).calling ==> Step(s, ev).now > 0)
  {
    match ev
    case Add(a, when, interval, clock) => AddKeepsFdOk(s, a, when, interval, clock);
    case Cancel(id) => CancelKeepsFdOk(s, id);
    case Expire(now, fired) => TakesExactlyTheDue(s.heap, s.numCreated, s.timers, s.batch, now);
    case RunNext =>
    case Finish(clock) => FinishKeepsFdOk(s, clock);
  }

  lemma {:induction false} RunKeepsFdOk(s: State, evs: seq<Event>)
    requires Inv(s) && FdOk(s) && IsRun(s, evs) && (s.calling ==> s.now > 0)
    requires forall i :: 0 <= i < |evs| ==> ClockOk(evs[i])
    ensures FdOk(Run(s, evs))
    decreases |evs|
  {
    if evs != [] {
      StepKeepsInv(s, evs[0]);
      StepKeepsFdOk(s, evs[0]);
      RunKeepsFdOk(Step(s, evs[0]), evs[1..]);
    }
  }

  /** In every run, whenever the queue is at rest and not empty, the descriptor is armed, or
      has fired unread, for no later than the earliest expiration or 100 microseconds after it
      was last armed. */
  lemma AlwaysArmedInTime(evs: seq<Event>)
    requires IsRun(Start, evs) && forall i :: 0 <= i < |evs| ==> ClockOk(evs[i])
    ensures var s := Run(Start, evs); !s.calling && s.timers != [] ==> ArmedInTime(s)
  {
    RunKeepsFdOk(Start, evs);
  }
}
