/** The thread pool: callers hand in tasks, workers take them, and stop ends it all.

    A step is what a thread does while it holds the lock, or one turn of a worker's loop
    outside it.  Sleepers are woken by a notification, which picks any one of them or all of
    them, or for no reason at all. */
module ThreadPool {

  type Thread = nat
  type Task = nat

  // Where a worker is in its loop.
  datatype Place =
    | Testing      // about to test whether the pool is running
    | Entering     // has found it running, and is about to call take
    | Asleep       // in take, waiting on notEmpty
    | Woken        // in take, woken, and about to acquire the lock again
    | Executing    // running a task
    | Left         // out of its loop

  datatype State = State(
    at: map<Thread, Place>,          // the workers
    max: nat,                        // zero stands for no bound
    running: bool,
    queue: seq<Task>,
    asleepCallers: set<Thread>,      // in run, waiting on notFull
    wokenCallers: set<Thread>,
    task: map<Thread, Task>,         // what the callers inside run hand in
    submitted: seq<Task>,            // history
    taken: seq<Task>)                // history

  function Start(workers: set<Thread>, max: nat): State {
    State(map t | t in workers :: Testing, max, true, [], {}, {}, map[], [], [])
  }

  datatype Event =
    | Submit(thread: Thread, x: Task)               // call run, from outside or from a task
    | SubmitAgain(thread: Thread)                   // continue in run after waking up
    | Test(thread: Thread)                          // the test at the head of a worker's loop
    | Take(thread: Thread, chosen: Thread)          // `chosen` is the caller a notification would wake
    | TakeAgain(thread: Thread, chosen: Thread)
    | Finish(thread: Thread)                        // a worker's task returns
    | Stop
    | Spurious(thread: Thread)

  function Callers(s: State): set<Thread> {
    s.asleepCallers + s.wokenCallers
  }

  predicate Is(s: State, t: Thread, place: Place) {
    t in s.at && s.at[t] == place
  }

  // Free to call run: not in it already, and, if a worker, in a task.
  predicate Free(s: State, t: Thread) {
    t !in s.asleepCallers && t !in s.wokenCallers && (t in s.at ==> s.at[t] == Executing)
  }

  predicate Picks(chosen: Thread, asleep: set<Thread>) {
    asleep != {} ==> chosen in asleep
  }

  predicate Enabled(s: State, ev: Event) {
    match ev
    case Submit(t, _) => Free(s, t)
    case SubmitAgain(t) => t in s.wokenCallers && t in s.task
    case Test(t) => Is(s, t, Testing)
    case Take(t, chosen) => Is(s, t, Entering) && Picks(chosen, s.asleepCallers)
    case TakeAgain(t, chosen) => Is(s, t, Woken) && Picks(chosen, s.asleepCallers)
    case Finish(t) => Is(s, t, Executing) && Free(s, t)
    case Stop => true
    case Spurious(t) => Is(s, t, Asleep) || t in s.asleepCallers
  }

  predicate Full(s: State) {
    s.max > 0 && |s.queue| >= s.max
  }

  function WakeWorkers(s: State): State {
    s.(at := map t | t in s.at :: if s.at[t] == Asleep then Woken else s.at[t])
  }

  function NotifyCaller(s: State, chosen: Thread): State {
    if s.max == 0 || s.asleepCallers == {} then s
    else s.(asleepCallers := s.asleepCallers - {chosen}, wokenCallers := s.wokenCallers + {chosen})
  }

  // The body of `run` once the lock is held.
  function TrySubmit(s: State, t: Thread, x: Task): State {
    if Full(s) then s.(asleepCallers := s.asleepCallers + {t}, task := s.task[t := x])
    else WakeWorkers(s.(queue := s.queue + [x], submitted := s.submitted + [x], task := s.task - {t}))
  }

  // The body of `take` once the lock is held.  Without a task it returns an empty one.
  function TryTake(s: State, t: Thread, chosen: Thread): State {
    if s.queue == [] then s.(at := s.at[t := if s.running then Asleep else Testing])
    else NotifyCaller(s.(queue := s.queue[1..], taken := s.taken + [s.queue[0]], at := s.at[t := Executing]), chosen)
  }

  function Step(s: State, ev: Event): State
    requires Enabled(s, ev)
  {
    match ev
    case Submit(t, x) =>
      if s.at == map[] then s.(submitted := s.submitted + [x], taken := s.taken + [x])   // run in the caller
      else TrySubmit(s, t, x)
    case SubmitAgain(t) => TrySubmit(s.(wokenCallers := s.wokenCallers - {t}), t, s.task[t])
    case Test(t) => s.(at := s.at[t := if s.running then Entering else Left])
    case Take(t, chosen) => TryTake(s, t, chosen)
    case TakeAgain(t, chosen) => TryTake(s, t, chosen)
    case Finish(t) => s.(at := s.at[t := Testing])
    case Stop => WakeWorkers(s.(running := false))
    case Spurious(t) =>
      if Is(s, t, Asleep) then s.(at := s.at[t := Woken])
      else s.(asleepCallers := s.asleepCallers - {t}, wokenCallers := s.wokenCallers + {t})
  }

  predicate IsRun(s: State, evs: seq<Event>)
    decreases |evs|
  {
    evs == [] || (Enabled(s, evs[0]) && IsRun(Step(s, evs[0]), evs[1..]))
  }

  function Run(s: State, evs: seq<Event>): State
    requires IsRun(s, evs)
    decreases |evs|
  {
    if evs == [] then s else Run(Step(s, evs[0]), evs[1..])
  }

  // ----- what every interleaving keeps -----

  // Callers inside run have their task, and workers among them are in the middle of one.
  predicate Placed(s: State) {
    && s.asleepCallers !! s.wokenCallers
    && s.task.Keys == Callers(s)
    && (forall t :: t in Callers(s) && t in s.at ==> s.at[t] == Executing)
    && (s.at == map[] ==> Callers(s) == {})
  }

  predicate Conserved(s: State) {
    && s.taken + s.queue == s.submitted
    && (s.max > 0 ==> |s.queue| <= s.max)
    && (s.at == map[] ==> s.queue == [])
  }

  // A worker sleeps only while the pool runs and has no task.
  predicate WorkersAwake(at: map<Thread, Place>, running: bool, queue: seq<Task>) {
    forall t :: t in at && at[t] == Asleep ==> running && queue == []
  }

  // Callers sleep only while enough of them are awake for all free slots.
  predicate CallersAwake(max: nat, queued: nat, asleep: set<Thread>, woken: set<Thread>) {
    asleep != {} ==> max > 0 && max - queued <= |woken|
  }

  predicate EnoughAwake(s: State) {
    WorkersAwake(s.at, s.running, s.queue) && CallersAwake(s.max, |s.queue|, s.asleepCallers, s.wokenCallers)
  }

  predicate Inv(s: State) {
    Placed(s) && Conserved(s) && EnoughAwake(s)
  }

  lemma MovesOver(t: Thread, asleep: set<Thread>, woken: set<Thread>)
    requires t in asleep && asleep !! woken
    ensures |woken + {t}| == |woken| + 1 && (asleep - {t}) + (woken + {t}) == asleep + woken
  {
  }

  lemma SubmitPlaced(s: State, t: Thread, x: Task)
    requires Placed(s.(task := s.task - {t})) && Free(s, t) && s.at != map[]
    ensures Placed(TrySubmit(s, t, x))
  {
    var s' := TrySubmit(s, t, x);
    if Full(s) {
      assert s.task[t := x].Keys == (s.task - {t}).Keys + {t};
      assert Callers(s') == Callers(s) + {t};
    } else {
      assert s'.at.Keys == s.at.Keys;
      assert exists u :: u in s.at;
    }
  }

  lemma SubmitConserved(s: State, t: Thread, x: Task)
    requires Conserved(s) && s.at != map[]
    ensures Conserved(TrySubmit(s, t, x))
  {
    assert s.taken + (s.queue + [x]) == s.taken + s.queue + [x];
    assert exists u :: u in s.at;
    assert TrySubmit(s, t, x).at.Keys == s.at.Keys;
  }

  lemma SubmitKeepsInv(s: State, t: Thread, x: Task)
    requires Placed(s.(task := s.task - {t})) && Conserved(s) && Free(s, t) && s.at != map[]
    requires WorkersAwake(s.at, s.running, s.queue)
    requires s.asleepCallers != {} ==> s.max > 0 && s.max - |s.queue| <= |s.wokenCallers| + 1
    ensures Inv(TrySubmit(s, t, x))
  {
    SubmitPlaced(s, t, x);
    SubmitConserved(s, t, x);
    hide Placed, Free;
  }

  lemma NotifyPlaced(s: State, chosen: Thread)
    requires Placed(s) && Picks(chosen, s.asleepCallers)
    ensures Placed(NotifyCaller(s, chosen)) && Callers(NotifyCaller(s, chosen)) == Callers(s)
  {
    if s.asleepCallers != {} {
      MovesOver(chosen, s.asleepCallers, s.wokenCallers);
    }
  }

  lemma MovePlaced(s: State, t: Thread, place: Place, queue: seq<Task>, taken: seq<Task>)
    requires Placed(s) && t in s.at && t !in Callers(s)
    ensures Placed(s.(at := s.at[t := place], queue := queue, taken := taken))
  {
    assert t in s.at[t := place];
  }

  lemma TakePlaced(s: State, t: Thread, chosen: Thread)
    requires Placed(s) && t in s.at && s.at[t] != Executing && Picks(chosen, s.asleepCallers)
    ensures Placed(TryTake(s, t, chosen)) && Callers(TryTake(s, t, chosen)) == Callers(s)
  {
    assert t !in Callers(s);
    hide Placed, Picks;
    if s.queue == [] {
      MovePlaced(s, t, if s.running then Asleep else Testing, s.queue, s.taken);
    } else {
      var queue, taken := s.queue[1..], s.taken + [s.queue[0]];
      MovePlaced(s, t, Executing, queue, taken);
      NotifyPlaced(s.(at := s.at[t := Executing], queue := queue, taken := taken), chosen);
    }
  }

  lemma TakeConserved(s: State, t: Thread, chosen: Thread)
    requires Conserved(s) && t in s.at
    ensures Conserved(TryTake(s, t, chosen))
  {
    assert t in TryTake(s, t, chosen).at;
    if s.queue != [] {
      assert s.taken + [s.queue[0]] + s.queue[1..] == s.taken + s.queue;
    }
  }

  lemma CallerWoken(max: nat, queued: nat, asleep: set<Thread>, woken: set<Thread>, chosen: Thread)
    requires CallersAwake(max, queued, asleep, woken) && asleep !! woken && chosen in asleep
    ensures CallersAwake(max, queued, asleep - {chosen}, woken + {chosen})
    ensures queued > 0 ==> CallersAwake(max, queued - 1, asleep - {chosen}, woken + {chosen})
  {
    MovesOver(chosen, asleep, woken);
  }

  lemma WorkerMoved(at: map<Thread, Place>, running: bool, queue: seq<Task>, t: Thread)
    requires WorkersAwake(at, running, queue)
    ensures queue == [] ==> WorkersAwake(at[t := if running then Asleep else Testing], running, queue)
    ensures queue != [] ==> WorkersAwake(at[t := Executing], running, queue[1..])
  {
  }

  lemma TakeEnough(s: State, t: Thread, chosen: Thread)
    requires EnoughAwake(s) && s.asleepCallers !! s.wokenCallers && t in s.at && Picks(chosen, s.asleepCallers)
    ensures EnoughAwake(TryTake(s, t, chosen))
  {
    WorkerMoved(s.at, s.running, s.queue, t);
    if s.asleepCallers == {} {
      assert CallersAwake(s.max, |TryTake(s, t, chosen).queue|, s.asleepCallers, s.wokenCallers);
    } else {
      assert s.max > 0;
      CallerWoken(s.max, |s.queue|, s.asleepCallers, s.wokenCallers, chosen);
    }
    hide WorkersAwake, CallersAwake;
  }

  lemma TakeKeepsInv(s: State, t: Thread, chosen: Thread)
    requires Inv(s) && t in s.at && s.at[t] != Executing && Picks(chosen, s.asleepCallers)
    ensures Inv(TryTake(s, t, chosen))
  {
    TakePlaced(s, t, chosen);
    TakeConserved(s, t, chosen);
    TakeEnough(s, t, chosen);
    hide Placed, Conserved, EnoughAwake, TryTake;
  }

  // A woken caller is about to run again, as if it had just called.
  lemma CallerLeaves(s: State, t: Thread)
    requires Placed(s) && t in s.wokenCallers
    ensures var s' := s.(wokenCallers := s.wokenCallers - {t});
            && (Conserved(s) ==> Conserved(s')) && Placed(s'.(task := s'.task - {t}))
            && Free(s', t) && |s'.wokenCallers| == |s.wokenCallers| - 1
    ensures s.at != map[]
  {
    assert t in Callers(s);
    assert (s.task - {t}).Keys == s.asleepCallers + (s.wokenCallers - {t});
  }

  lemma NewCaller(s: State, t: Thread)
    requires Placed(s) && Free(s, t)
    ensures s.task - {t} == s.task
  {
  }

  lemma SpuriousPlaced(s: State, t: Thread)
    requires Placed(s) && Enabled(s, Spurious(t))
    ensures Placed(Step(s, Spurious(t)))
  {
    var s' := Step(s, Spurious(t));
    if Is(s, t, Asleep) {
      assert t in s'.at;
    } else {
      MovesOver(t, s.asleepCallers, s.wokenCallers);
    }
  }

  lemma SpuriousKeepsInv(s: State, t: Thread)
    requires Inv(s) && Enabled(s, Spurious(t))
    ensures Inv(Step(s, Spurious(t)))
  {
    SpuriousPlaced(s, t);
    if Is(s, t, Asleep) {
      assert t in Step(s, Spurious(t)).at;
    } else {
      CallerWoken(s.max, |s.queue|, s.asleepCallers, s.wokenCallers, t);
    }
    hide Placed, CallersAwake;
  }

  // With no workers started, run executes what it is given itself.
  lemma RunHereKeepsInv(s: State, t: Thread, x: Task)
    requires Inv(s) && Enabled(s, Submit(t, x)) && s.at == map[]
    ensures Inv(Step(s, Submit(t, x)))
  {
  }

  lemma StopKeepsInv(s: State)
    requires Inv(s)
    ensures Inv(Step(s, Stop))
  {
    var s' := Step(s, Stop);
    assert s'.at.Keys == s.at.Keys;
    assert s.at != map[] ==> exists u :: u in s.at;
  }

  // A worker moves on without touching anything else.
  lemma MoveKeepsInv(s: State, t: Thread, place: Place)
    requires Inv(s) && t in s.at && t !in Callers(s) && place != Asleep
    ensures Inv(s.(at := s.at[t := place]))
  {
    assert t in s.at[t := place];
  }

  lemma StepKeepsInv(s: State, ev: Event)
    requires Inv(s) && Enabled(s, ev)
    ensures Inv(Step(s, ev))
  {
    match ev
    case Submit(t, x) =>
      if s.at == map[] {
        RunHereKeepsInv(s, t, x);
      } else {
        NewCaller(s, t);
        assert s.(task := s.task - {t}) == s;
        hide Placed, Conserved, TrySubmit, Free;
        SubmitKeepsInv(s, t, x);
      }
    case SubmitAgain(t) =>
      hide Placed, Conserved, TrySubmit, Free;
      CallerLeaves(s, t);
      SubmitKeepsInv(s.(wokenCallers := s.wokenCallers - {t}), t, s.task[t]);
    case Test(t) => MoveKeepsInv(s, t, if s.running then Entering else Left);
    case Take(t, chosen) => TakeKeepsInv(s, t, chosen);
    case TakeAgain(t, chosen) => TakeKeepsInv(s, t, chosen);
    case Finish(t) => MoveKeepsInv(s, t, Testing);
    case Stop => StopKeepsInv(s);
    case Spurious(t) => SpuriousKeepsInv(s, t);
  }

  lemma {:induction false} RunKeepsInv(s: State, evs: seq<Event>)
    requires Inv(s) && IsRun(s, evs)
    ensures Inv(Run(s, evs)) && Run(s, evs).max == s.max
    decreases |evs|
  {
    hide Inv;
    if evs != [] {
      StepKeepsInv(s, evs[0]);
      RunKeepsInv(Step(s, evs[0]), evs[1..]);
    }
  }

  // The tasks that the calls of a run hand in: each call its own task, when it first finds a free
  // slot.  `asked` is what the callers inside run have asked for.
  function HandedIn(s: State, evs: seq<Event>, asked: map<Thread, Task>): seq<Task>
    requires IsRun(s, evs)
    decreases |evs|
  {
    if evs == [] then []
    else
      var asked' := if evs[0].Submit? then asked[evs[0].thread := evs[0].x] else asked;
      (if (evs[0].Submit? || evs[0].SubmitAgain?) && (s.max == 0 || |s.queue| < s.max) && evs[0].thread in asked'
       then [asked'[evs[0].thread]] else [])
      + HandedIn(Step(s, evs[0]), evs[1..], asked')
  }

  predicate Keeps(task: map<Thread, Task>, asked: map<Thread, Task>) {
    forall t :: t in task ==> t in asked && asked[t] == task[t]
  }

  lemma TrySubmits(s: State, t: Thread, x: Task)
    ensures var s' := TrySubmit(s, t, x);
            && s'.submitted == s.submitted + (if s.max == 0 || |s.queue| < s.max then [x] else [])
            && s'.task == if s.max == 0 || |s.queue| < s.max then s.task - {t} else s.task[t := x]
  {
  }

  lemma SubmitStep(s: State, ev: Event, asked: map<Thread, Task>)
    requires Inv(s) && Enabled(s, ev) && Keeps(s.task, asked)
    ensures var s' := Step(s, ev);
            var asked' := if ev.Submit? then asked[ev.thread := ev.x] else asked;
            && Keeps(s'.task, asked')
            && s'.submitted == s.submitted
                 + (if (ev.Submit? || ev.SubmitAgain?) && (s.max == 0 || |s.queue| < s.max) && ev.thread in asked'
                    then [asked'[ev.thread]] else [])
  {
    hide EnoughAwake;
    match ev
    case Submit(t, x) =>
      TrySubmits(s, t, x);
      assert s.at == map[] ==> t !in s.task;
      hide TrySubmit, Placed;
    case SubmitAgain(t) =>
      TrySubmits(s.(wokenCallers := s.wokenCallers - {t}), t, s.task[t]);
      hide TrySubmit, Placed;
    case _ => hide Placed, Conserved;
  }

  lemma {:induction false} RunHandsIn(s: State, evs: seq<Event>, asked: map<Thread, Task>)
    requires Inv(s) && IsRun(s, evs) && Keeps(s.task, asked)
    ensures Run(s, evs).submitted == s.submitted + HandedIn(s, evs, asked)
    decreases |evs|
  {
    hide Inv, Keeps;
    if evs != [] {
      StepKeepsInv(s, evs[0]);
      SubmitStep(s, evs[0], asked);
      RunHandsIn(Step(s, evs[0]), evs[1..], if evs[0].Submit? then asked[evs[0].thread := evs[0].x] else asked);
    }
  }

  /** A worker that comes for a task gets the first one if there is any; otherwise it sleeps while
      the pool runs, and goes back to its test when it does not.  And a caller is out of run exactly
      when there was a free slot, or no worker to wait for. */
  lemma WorkerTakes(s: State, ev: Event)
    requires Inv(s) && Enabled(s, ev)
    ensures ev.Take? || ev.TakeAgain? ==>
              var s' := Step(s, ev);
              && s'.taken == s.taken + (if s.queue == [] then [] else [s.queue[0]])
              && Is(s', ev.thread, if s.queue != [] then Executing else if s.running then Asleep else Testing)
    ensures ev.Test? ==> Is(Step(s, ev), ev.thread, if s.running then Entering else Left)
    ensures ev.Finish? ==> Is(Step(s, ev), ev.thread, Testing)
    ensures ev.Submit? || ev.SubmitAgain? ==>
              (ev.thread in Callers(Step(s, ev)) <==> s.max > 0 && |s.queue| >= s.max && s.at != map[])
  {
    hide EnoughAwake, Conserved;
    if ev.Submit? || ev.SubmitAgain? {
      assert s.at == map[] ==> ev.Submit?;
    }
  }

  /** In every interleaving tasks taken and tasks queued are those handed in, in order, a bounded
      queue stays within its bound, a queue with a task in it has no sleeping worker, and a
      caller sleeps beside a free slot only while a woken caller is about to fill it. */
  lemma NoLostWakeup(workers: set<Thread>, max: nat, evs: seq<Event>)
    requires IsRun(Start(workers, max), evs)
    ensures var s := Run(Start(workers, max), evs);
            && s.taken + s.queue == HandedIn(Start(workers, max), evs, map[])
            && (max > 0 ==> |s.queue| <= max)
            && (s.queue != [] ==> forall t :: t in s.at ==> s.at[t] != Asleep)
            && (s.asleepCallers != {} && !Full(s) ==> s.wokenCallers != {})
  {
    RunKeepsInv(Start(workers, max), evs);
    RunHandsIn(Start(workers, max), evs, map[]);
    assert [] + HandedIn(Start(workers, max), evs, map[]) == HandedIn(Start(workers, max), evs, map[]);
    hide HandedIn;
  }

  lemma StayStep(s: State, ev: Event)
    requires Enabled(s, ev)
    ensures Step(s, ev).running <==> s.running && ev != Stop
    ensures forall t :: Is(Step(s, ev), t, Left) ==> Is(s, t, Left) || !s.running
  {
  }

  /** The pool runs until stop is called, and until then no worker leaves its loop. */
  lemma {:induction false} WorkersStayUntilStop(s: State, evs: seq<Event>)
    requires IsRun(s, evs) && forall t :: Is(s, t, Left) ==> !s.running
    ensures Run(s, evs).running <==> s.running && Stop !in evs
    ensures forall t :: Is(Run(s, evs), t, Left) ==> !Run(s, evs).running
    decreases |evs|
  {
    if evs != [] {
      StayStep(s, evs[0]);
      hide Step, Is;
      WorkersStayUntilStop(Step(s, evs[0]), evs[1..]);
      assert Stop in evs <==> evs[0] == Stop || Stop in evs[1..];
    }
  }

  // ----- stopping: the workers -----

  // How far a worker of a stopped pool is from having left its loop.
  function Distance(s: State, t: Thread): nat {
    if t !in s.at then 0
    else match s.at[t]
      case Left => 0
      case Testing => 1
      case Executing => 2
      case _ => 3
  }

  predicate MovesWorker(ev: Event, t: Thread) {
    (ev.Test? || ev.Take? || ev.TakeAgain? || ev.Finish?) && ev.thread == t
  }

  function Moves(evs: seq<Event>, t: Thread): nat {
    if evs == [] then 0 else (if MovesWorker(evs[0], t) then 1 else 0) + Moves(evs[1..], t)
  }

  lemma StepWindsDown(s: State, ev: Event, t: Thread)
    requires Inv(s) && !s.running && Enabled(s, ev)
    ensures !Step(s, ev).running
    ensures Distance(Step(s, ev), t) + (if MovesWorker(ev, t) then 1 else 0) <= Distance(s, t)
  {
    hide Placed, Conserved;
  }

  /** Once the pool is stopped no worker sleeps, whatever happens afterwards, and each worker makes
      at most three more moves before it has left its loop, so joining it waits only for what
      it may still be executing. */
  lemma {:induction false} StopReleasesWorkers(s: State, evs: seq<Event>, t: Thread)
    requires Inv(s) && !s.running && IsRun(s, evs)
    ensures !Run(s, evs).running && !Is(Run(s, evs), t, Asleep)
    ensures Distance(Run(s, evs), t) + Moves(evs, t) <= Distance(s, t) <= 3
    decreases |evs|
  {
    if evs != [] {
      StepKeepsInv(s, evs[0]);
      StepWindsDown(s, evs[0], t);
      StopReleasesWorkers(Step(s, evs[0]), evs[1..], t);
      hide Inv;
    }
  }

  // ----- stopping: the callers -----

  // Past its test, and not out of take yet.
  predicate PastTest(s: State, t: Thread) {
    t in s.at && (s.at[t] == Entering || s.at[t] == Asleep || s.at[t] == Woken)
  }

  function WorkersPastTest(s: State): set<Thread> {
    set t | t in s.at && PastTest(s, t)
  }

  // No slot is free, and nobody is going to free one.
  predicate Stranded(s: State) {
    !s.running && Full(s) && WorkersPastTest(s) == {}
  }

  lemma PastAfter(s: State, ev: Event)
    requires Inv(s) && !s.running && Enabled(s, ev)
    ensures WorkersPastTest(Step(s, ev)) == WorkersPastTest(s) - if ev.Take? || ev.TakeAgain? then {ev.thread} else {}
    ensures ev.Take? || ev.TakeAgain? ==> ev.thread in WorkersPastTest(s)
  {
    hide Placed, Conserved;
    assert Step(s, ev).at.Keys == s.at.Keys;
  }

  lemma StepStrands(s: State, ev: Event)
    requires Inv(s) && Stranded(s) && Enabled(s, ev)
    ensures Stranded(Step(s, ev)) && Callers(s) <= Callers(Step(s, ev)) && Step(s, ev).submitted == s.submitted
  {
    PastAfter(s, ev);
    hide Inv, WorkersPastTest;
  }

  /** A stopped pool with a full queue and no worker past its test never lets a caller out of run
      again, in no continuation, spurious wakeups included. */
  lemma {:induction false} StrandedForEver(s: State, evs: seq<Event>)
    requires Inv(s) && Stranded(s) && IsRun(s, evs)
    ensures Callers(s) <= Callers(Run(s, evs)) && Run(s, evs).submitted == s.submitted
    decreases |evs|
  {
    hide Inv, Stranded, Callers;
    if evs != [] {
      StepKeepsInv(s, evs[0]);
      StepStrands(s, evs[0]);
      StrandedForEver(Step(s, evs[0]), evs[1..]);
      assert Callers(s) <= Callers(Step(s, evs[0]));
    }
  }

  lemma RunCons(s: State, ev: Event, evs: seq<Event>)
    requires Enabled(s, ev) && IsRun(Step(s, ev), evs)
    ensures IsRun(s, [ev] + evs) && Run(s, [ev] + evs) == Run(Step(s, ev), evs)
  {
    assert ([ev] + evs)[1..] == evs;
  }

  // Some caller that is inside now is outside after the run.
  ghost predicate LetsOut(s: State, evs: seq<Event>) {
    IsRun(s, evs) && exists t :: t in Callers(s) && t !in Callers(Run(s, evs))
  }

  // No wakeup is spurious.
  predicate Notified(evs: seq<Event>) {
    forall ev :: ev in evs ==> !ev.Spurious?
  }

  lemma SlotLetsOut(s: State) returns (evs: seq<Event>)
    requires Inv(s) && Callers(s) != {} && !Full(s)
    ensures LetsOut(s, evs) && Notified(evs)
  {
    assert s.wokenCallers != {};
    var t :| t in s.wokenCallers;
    assert t in Callers(s) && t in s.task;
    var ev := SubmitAgain(t);
    assert IsRun(Step(s, ev), []);
    RunCons(s, ev, []);
    evs := [ev] + [];
    assert t !in Callers(Run(s, evs));
  }

  lemma WorkerLetsOut(s: State, t: Thread) returns (evs: seq<Event>)
    requires Inv(s) && !s.running && Callers(s) != {} && Full(s) && PastTest(s, t)
    ensures LetsOut(s, evs) && Notified(evs)
  {
    var chosen: Thread := if s.asleepCallers == {} then 0 else var c :| c in s.asleepCallers; c;
    var ev := if s.at[t] == Entering then Take(t, chosen) else TakeAgain(t, chosen);
    assert Enabled(s, ev);
    var s1 := Step(s, ev);
    TakeKeepsInv(s, t, chosen);
    TakePlaced(s, t, chosen);
    var rest := SlotLetsOut(s1);
    RunCons(s, ev, rest);
    evs := [ev] + rest;
    var c :| c in Callers(s1) && c !in Callers(Run(s1, rest));
    assert c in Callers(s);
  }

  /** Callers of a stopped pool can still get out of run exactly when a slot is free or a worker is
      past its test; and then they can without any spurious wakeup. */
  lemma StopLetsCallersOutExactlyWhen(s: State)
    requires Inv(s) && !s.running && Callers(s) != {}
    ensures (exists evs :: LetsOut(s, evs)) <==> !Full(s) || WorkersPastTest(s) != {}
    ensures (exists evs :: LetsOut(s, evs)) <==> (exists evs :: LetsOut(s, evs) && Notified(evs))
  {
    if !Full(s) {
      var evs := SlotLetsOut(s);
    } else if WorkersPastTest(s) != {} {
      var t :| t in WorkersPastTest(s);
      var evs := WorkerLetsOut(s, t);
    } else {
      forall evs ensures !LetsOut(s, evs) {
        if IsRun(s, evs) {
          StrandedForEver(s, evs);
        }
      }
    }
  }

  lemma TakenAfter(s: State, ev: Event)
    requires Inv(s) && s.at != map[] && Enabled(s, ev)
    ensures Step(s, ev).at != map[]
    ensures |Step(s, ev).taken| <= |s.taken| + if ev.Take? || ev.TakeAgain? then 1 else 0
  {
    hide Placed, Conserved, EnoughAwake;
    var t :| t in s.at;
    assert t in Step(s, ev).at;
  }

  lemma StepTakes(s: State, ev: Event)
    requires Inv(s) && !s.running && s.at != map[] && Enabled(s, ev)
    ensures var s' := Step(s, ev);
            s'.at != map[] && !s'.running && |s'.taken| + |WorkersPastTest(s')| <= |s.taken| + |WorkersPastTest(s)|
  {
    PastAfter(s, ev);
    TakenAfter(s, ev);
    StepWindsDown(s, ev, 0);
    hide Inv, WorkersPastTest, Step;
    if ev.Take? || ev.TakeAgain? {
      assert |WorkersPastTest(s) - {ev.thread}| == |WorkersPastTest(s)| - 1;
    }
  }

  lemma {:induction false} RunTakes(s: State, evs: seq<Event>)
    requires Inv(s) && !s.running && s.at != map[] && IsRun(s, evs)
    ensures |Run(s, evs).taken| + |WorkersPastTest(Run(s, evs))| <= |s.taken| + |WorkersPastTest(s)|
    decreases |evs|
  {
    hide Inv, WorkersPastTest;
    if evs != [] {
      StepKeepsInv(s, evs[0]);
      StepTakes(s, evs[0]);
      RunTakes(Step(s, evs[0]), evs[1..]);
    }
  }

  /** After stop at most so many more tasks are taken as there are workers past their test, and at
      most so many more handed in as there are free slots and such workers. */
  lemma StopAdmitsAtMost(s: State, evs: seq<Event>)
    requires Inv(s) && !s.running && s.at != map[] && IsRun(s, evs)
    ensures |Run(s, evs).taken| <= |s.taken| + |WorkersPastTest(s)|
    ensures s.max > 0 ==> |Run(s, evs).submitted| <= |s.submitted| + (s.max - |s.queue|) + |WorkersPastTest(s)|
  {
    RunTakes(s, evs);
    RunKeepsInv(s, evs);
    hide WorkersPastTest, Placed, EnoughAwake;
  }

  // ----- how many callers a stopped pool lets out -----

  // No one calls run any more.
  predicate Quiet(evs: seq<Event>) {
    forall ev :: ev in evs ==> !ev.Submit?
  }

  // All that could still happen has happened: no caller and no worker is awake inside.
  predicate Completed(s: State) {
    s.wokenCallers == {} && WorkersPastTest(s) == {}
  }

  predicate TakesNothing(s: State, ev: Event) {
    (ev.Take? || ev.TakeAgain?) && s.queue == []
  }

  // How many workers come for a task and find none.
  function EmptyTakes(s: State, evs: seq<Event>): nat
    requires IsRun(s, evs)
    decreases |evs|
  {
    if evs == [] then 0
    else (if TakesNothing(s, evs[0]) then 1 else 0) + EmptyTakes(Step(s, evs[0]), evs[1..])
  }

  lemma AgainAfter(s: State, t: Thread)
    requires Placed(s) && Enabled(s, SubmitAgain(t))
    ensures t in Callers(s)
    ensures Callers(Step(s, SubmitAgain(t))) == if Full(s) then Callers(s) else Callers(s) - {t}
    ensures |Step(s, SubmitAgain(t)).submitted| == |s.submitted| + if Full(s) then 0 else 1
  {
    assert t !in s.asleepCallers;
    var s' := Step(s, SubmitAgain(t));
    if Full(s) {
      assert s'.asleepCallers == s.asleepCallers + {t} && s'.wokenCallers == s.wokenCallers - {t};
    } else {
      assert s'.asleepCallers == s.asleepCallers && s'.wokenCallers == s.wokenCallers - {t};
    }
    hide Placed, Step;
  }

  lemma OthersAfter(s: State, ev: Event)
    requires Placed(s) && Enabled(s, ev) && !ev.Submit? && !ev.SubmitAgain?
    ensures Callers(Step(s, ev)) == Callers(s) && Step(s, ev).submitted == s.submitted
  {
    if ev.Take? || ev.TakeAgain? {
      TakePlaced(s, ev.thread, ev.chosen);
      assert TryTake(s, ev.thread, ev.chosen).submitted == s.submitted;
      hide Placed, Callers, TryTake;
    } else {
      if ev.Spurious? && !Is(s, ev.thread, Asleep) {
        MovesOver(ev.thread, s.asleepCallers, s.wokenCallers);
      }
      hide Placed, TryTake, TrySubmit;
    }
  }

  lemma CallersAfter(s: State, ev: Event)
    requires Inv(s) && Enabled(s, ev) && !ev.Submit?
    ensures Callers(Step(s, ev)) == Callers(s) - if ev.SubmitAgain? && !Full(s) then {ev.thread} else {}
    ensures ev.SubmitAgain? ==> ev.thread in Callers(s)
    ensures |Step(s, ev).submitted| == |s.submitted| + if ev.SubmitAgain? && !Full(s) then 1 else 0
  {
    hide Step, Enabled, Callers, Full, Placed, Conserved, EnoughAwake;
    if ev.SubmitAgain? {
      AgainAfter(s, ev.thread);
    } else {
      OthersAfter(s, ev);
    }
  }

  lemma StepCounts(s: State, ev: Event)
    requires Inv(s) && !s.running && Enabled(s, ev) && !ev.Submit?
    ensures var s' := Step(s, ev);
            && |Callers(s')| + |s'.submitted| == |Callers(s)| + |s.submitted|
            && |s'.taken| + |WorkersPastTest(s')| + (if TakesNothing(s, ev) then 1 else 0)
               == |s.taken| + |WorkersPastTest(s)|
  {
    CallersAfter(s, ev);
    PastAfter(s, ev);
    assert |Step(s, ev).taken| == |s.taken| + if (ev.Take? || ev.TakeAgain?) && s.queue != [] then 1 else 0 by {
      hide Inv;
    }
    hide Inv, WorkersPastTest, Callers, Step;
    if ev.SubmitAgain? && !Full(s) {
      assert |Callers(s) - {ev.thread}| == |Callers(s)| - 1;
    } else if ev.Take? || ev.TakeAgain? {
      assert |WorkersPastTest(s) - {ev.thread}| == |WorkersPastTest(s)| - 1;
    }
  }

  lemma {:induction false} RunCounts(s: State, evs: seq<Event>)
    requires Inv(s) && !s.running && IsRun(s, evs) && Quiet(evs)
    ensures var s' := Run(s, evs);
            && Inv(s') && s'.max == s.max
            && |Callers(s')| + |s'.submitted| == |Callers(s)| + |s.submitted|
            && |s'.taken| + |WorkersPastTest(s')| + EmptyTakes(s, evs) == |s.taken| + |WorkersPastTest(s)|
    decreases |evs|
  {
    hide Inv, WorkersPastTest, Callers;
    if evs != [] {
      assert !evs[0].Submit?;
      StepKeepsInv(s, evs[0]);
      StepWindsDown(s, evs[0], 0);
      StepCounts(s, evs[0]);
      RunCounts(Step(s, evs[0]), evs[1..]);
    }
  }

  function Min(a: int, b: int): int {
    if a < b then a else b
  }

  /** When no one else calls and everything has happened, exactly so many callers of a stopped pool
      have got out of run as there were free slots and workers past their test, not counting the
      workers that came while the queue was empty; or all callers, if they were fewer. */
  lemma StopLetsOut(s: State, evs: seq<Event>)
    requires Inv(s) && !s.running && s.max > 0 && IsRun(s, evs) && Quiet(evs) && Completed(Run(s, evs))
    ensures |Callers(s)| - |Callers(Run(s, evs))|
         == Min(|Callers(s)|, (s.max - |s.queue|) + |WorkersPastTest(s)| - EmptyTakes(s, evs))
  {
    hide Inv, Completed, WorkersPastTest, Callers, Run, IsRun, EmptyTakes, Quiet;
    RunCounts(s, evs);
    AtTheEnd(Run(s, evs));
    Lengths(s);
  }

  lemma Lengths(s: State)
    requires Inv(s)
    ensures |s.taken| + |s.queue| == |s.submitted|
  {
  }

  // In the end the queue is full or everybody is out.
  lemma AtTheEnd(s: State)
    requires Inv(s) && Completed(s) && s.max > 0
    ensures |WorkersPastTest(s)| == 0 && |s.taken| + |s.queue| == |s.submitted| && |s.queue| <= s.max
    ensures |s.queue| == s.max || |Callers(s)| == 0
  {
    assert s.asleepCallers == {} ==> Callers(s) == {};
    hide Placed, WorkersPastTest;
  }

  lemma {:induction false} NobodyEnters(s: State, evs: seq<Event>)
    requires Inv(s) && IsRun(s, evs) && Quiet(evs)
    ensures Callers(Run(s, evs)) <= Callers(s)
    decreases |evs|
  {
    hide Inv, Callers;
    if evs != [] {
      assert !evs[0].Submit?;
      StepKeepsInv(s, evs[0]);
      CallersAfter(s, evs[0]);
      NobodyEnters(Step(s, evs[0]), evs[1..]);
    }
  }

  // The step of the best schedule: woken callers first, then workers.
  lemma BestStep(s: State) returns (ev: Event)
    requires Inv(s) && !s.running && s.max > 0 && !Completed(s)
    ensures Enabled(s, ev) && !ev.Submit? && !ev.Spurious?
    ensures TakesNothing(s, ev) ==> Callers(s) == {}
    ensures 2 * |WorkersPastTest(Step(s, ev))| + |Step(s, ev).wokenCallers| < 2 * |WorkersPastTest(s)| + |s.wokenCallers|
  {
    if s.wokenCallers != {} {
      var t :| t in s.wokenCallers;
      assert t in Callers(s);
      ev := SubmitAgain(t);
      assert Step(s, ev).wokenCallers == s.wokenCallers - {t};
    } else {
      var t :| t in WorkersPastTest(s);
      var chosen: Thread := if s.asleepCallers == {} then 0 else var c :| c in s.asleepCallers; c;
      ev := if s.at[t] == Entering then Take(t, chosen) else TakeAgain(t, chosen);
      assert Enabled(s, ev);
      assert s.queue == [] ==> s.asleepCallers == {};
      assert Step(s, ev).wokenCallers <= {chosen};
      assert |Step(s, ev).wokenCallers| <= |{chosen}|;
    }
    PastAfter(s, ev);
    hide Inv, WorkersPastTest;
  }

  lemma {:induction false} BestRun(s: State) returns (evs: seq<Event>)
    requires Inv(s) && !s.running && s.max > 0
    ensures IsRun(s, evs) && Quiet(evs) && Notified(evs) && Completed(Run(s, evs))
    ensures EmptyTakes(s, evs) == 0 || Callers(Run(s, evs)) == {}
    decreases 2 * |WorkersPastTest(s)| + |s.wokenCallers|
  {
    hide Inv, Completed, WorkersPastTest, Callers;
    if Completed(s) {
      evs := [];
    } else {
      var ev := BestStep(s);
      StepKeepsInv(s, ev);
      StepWindsDown(s, ev, 0);
      CallersAfter(s, ev);
      var s1 := Step(s, ev);
      var rest := BestRun(s1);
      NobodyEnters(s1, rest);
      RunCons(s, ev, rest);
      evs := [ev] + rest;
      assert evs[0] == ev && evs[1..] == rest;
    }
  }

  /** So at most as many callers get out as there are callers, or free slots and workers past their
      test; and some schedule, without any spurious wakeup, lets so many out. */
  lemma StopLetsOutAtBest(s: State)
    requires Inv(s) && !s.running && s.max > 0
    ensures forall evs :: IsRun(s, evs) && Quiet(evs) && Completed(Run(s, evs)) ==>
              |Callers(s)| - |Callers(Run(s, evs))| <= Best(s)
    ensures exists evs :: IsRun(s, evs) && Quiet(evs) && Notified(evs) && Completed(Run(s, evs))
              && |Callers(s)| - |Callers(Run(s, evs))| == Best(s)
  {
    hide Inv, Completed, WorkersPastTest, Callers, Run, IsRun, EmptyTakes, Quiet, Notified;
    forall evs | IsRun(s, evs) && Quiet(evs) && Completed(Run(s, evs))
      ensures |Callers(s)| - |Callers(Run(s, evs))| <= Best(s)
    {
      StopLetsOut(s, evs);
    }
    var best := BestRun(s);
    StopLetsOut(s, best);
    assert Callers(Run(s, best)) == {} ==> |Callers(Run(s, best))| == 0;
  }

  function Best(s: State): int {
    Min(|Callers(s)|, (s.max - |s.queue|) + |WorkersPastTest(s)|)
  }

  // Two callers, a full queue of one, and two workers past their test.
  function Crowded(x: Task, y: Task, z: Task): State {
    State(map[3 := Entering, 4 := Entering], 1, false, [x], {1, 2}, {}, map[1 := y, 2 := z], [x], [])
  }

  lemma CrowdedInv(x: Task, y: Task, z: Task)
    ensures Inv(Crowded(x, y, z))
  {
    var s := Crowded(x, y, z);
    assert 3 in s.at && s.task.Keys == Callers(s) && s.taken + s.queue == s.submitted;
  }

  lemma CrowdedStep(x: Task, y: Task, z: Task)
    ensures Enabled(Crowded(x, y, z), Take(3, 1))
    ensures Step(Crowded(x, y, z), Take(3, 1))
         == State(map[3 := Executing, 4 := Entering], 1, false, [], {2}, {1}, map[1 := y, 2 := z], [x], [x])
  {
    var s1 := Step(Crowded(x, y, z), Take(3, 1));
    assert s1.asleepCallers == {2} && s1.wokenCallers == {1} && s1.taken == [x];
    assert s1.at == map[3 := Executing, 4 := Entering];
  }

  lemma CrowdedRest(s1: State, x: Task, y: Task, z: Task)
    requires s1 == State(map[3 := Executing, 4 := Entering], 1, false, [], {2}, {1}, map[1 := y, 2 := z], [x], [x])
    ensures var evs := [Take(4, 2)] + ([SubmitAgain(1)] + []);
            IsRun(s1, evs) && Completed(Run(s1, evs)) && Callers(Run(s1, evs)) == {2}
  {
    var s2 := Step(s1, Take(4, 2));
    assert s2 == s1.(at := map[3 := Executing, 4 := Testing]);
    var s3 := Step(s2, SubmitAgain(1));
    assert s3.asleepCallers == {2} && s3.wokenCallers == {} && s3.at == s2.at;
    assert IsRun(s3, []) && Completed(s3) && Callers(s3) == {2};
    hide Step, Completed, Callers;
    RunCons(s2, SubmitAgain(1), []);
    RunCons(s1, Take(4, 2), [SubmitAgain(1)] + []);
  }

  /** Workers that come too early do cost: of two callers only one gets out if both workers take
      before it has refilled the queue. */
  lemma EarlyWorkerCosts(x: Task, y: Task, z: Task)
    ensures var s := Crowded(x, y, z);
            var evs := [Take(3, 1), Take(4, 2), SubmitAgain(1)];
            Inv(s) && IsRun(s, evs) && Quiet(evs) && Completed(Run(s, evs)) && Callers(Run(s, evs)) == {2}
  {
    hide Step, Completed, Callers, Inv, Crowded;
    var s := Crowded(x, y, z);
    CrowdedInv(x, y, z);
    CrowdedStep(x, y, z);
    CrowdedRest(Step(s, Take(3, 1)), x, y, z);
    RunCons(s, Take(3, 1), [Take(4, 2)] + ([SubmitAgain(1)] + []));
    assert [Take(3, 1)] + ([Take(4, 2)] + ([SubmitAgain(1)] + [])) == [Take(3, 1), Take(4, 2), SubmitAgain(1)];
  }

  lemma StrandingSteps(x: Task, y: Task)
    ensures var calls := [Submit(1, x), Submit(2, y), Stop];
            && IsRun(Start({3}, 1), calls)
            && Run(Start({3}, 1), calls).asleepCallers == {2} && Stranded(Run(Start({3}, 1), calls))
  {
    var s0 := Start({3}, 1);
    var s1 := Step(s0, Submit(1, x));
    var s2 := Step(s1, Submit(2, y));
    var s := Step(s2, Stop);
    assert 3 in s0.at && s1.queue == [x] && s.asleepCallers == {2} && s.at == s0.at;
    assert Stranded(s) && IsRun(s, []);
    hide Stranded, Step;
    RunCons(s2, Stop, []);
    RunCons(s1, Submit(2, y), [Stop] + []);
    RunCons(s0, Submit(1, x), [Submit(2, y)] + ([Stop] + []));
    assert [Submit(1, x)] + ([Submit(2, y)] + ([Stop] + [])) == [Submit(1, x), Submit(2, y), Stop];
  }

  /** Such a run: the only worker sees the stop before it takes anything, so the second of two
      callers never returns. */
  lemma StopStrandsCaller(x: Task, y: Task, evs: seq<Event>)
    ensures var calls := [Submit(1, x), Submit(2, y), Stop];
            IsRun(Start({3}, 1), calls)
            && var s := Run(Start({3}, 1), calls);
               s.asleepCallers == {2} && (IsRun(s, evs) ==> 2 in Callers(Run(s, evs)))
  {
    var calls := [Submit(1, x), Submit(2, y), Stop];
    StrandingSteps(x, y);
    var s := Run(Start({3}, 1), calls);
    RunKeepsInv(Start({3}, 1), calls);
    hide Inv, Stranded, IsRun, Run;
    if IsRun(s, evs) {
      StrandedForEver(s, evs);
      assert 2 in Callers(s);
    }
  }
}
