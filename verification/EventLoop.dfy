/** The cross-thread functor queue of the event loop, with its wakeup descriptor.

    Other threads push functors or store the quit flag and then, as a separate step, write
    the eventfd; the loop thread polls, handles events, swaps the queue out and runs it.  A
    run is any interleaving of these steps. */
module EventLoop {

  type Thread = nat
  type Functor = nat

  datatype Pc =
    | Testing      // about to test the quit flag
    | Polling      // blocked in poll
    | Handling     // running channel handlers
    | Running      // running the functors it has swapped out
    | Exited

  datatype Loop = Loop(
    pc: Pc,
    pending: seq<Functor>,
    functors: seq<Functor>,      // swapped out and not run yet
    calling: bool,
    quit: bool,
    counter: nat,                // the eventfd
    readable: bool,              // poll has reported the eventfd and its handler has not run yet
    waking: set<Thread>,         // other threads between their push or store and their wakeup
    mustWake: bool,              // the loop thread between its push and its wakeup
    executed: seq<Functor>,      // history
    queued: seq<Functor>)        // history

  const Start := Loop(Testing, [], [], false, false, 0, false, {}, false, [], [])

  datatype Event =
    | Push(thread: Thread, f: Functor)
    | PushInLoop(f: Functor)
    | Quit(thread: Thread)
    | QuitInLoop
    | Wakeup(thread: Thread)
    | WakeupInLoop
    | TestQuit
    | PollReturns
    | ReadEventfd
    | SwapQueue
    | RunOne
    | FinishRunning

  // Handlers and functors are the loop thread's own code; while it owes a wakeup it does nothing else.
  predicate InUserCode(s: Loop) {
    (s.pc == Handling || s.pc == Running) && !s.mustWake
  }

  predicate Enabled(s: Loop, ev: Event) {
    match ev
    case Push(t, _) => t !in s.waking
    case PushInLoop(_) => InUserCode(s)
    case Quit(t) => t !in s.waking
    case QuitInLoop => InUserCode(s)
    case Wakeup(t) => t in s.waking
    case WakeupInLoop => s.mustWake
    case TestQuit => s.pc == Testing
    case PollReturns => s.pc == Polling
    case ReadEventfd => s.pc == Handling && s.readable && !s.mustWake
    case SwapQueue => s.pc == Handling && !s.readable && !s.mustWake
    case RunOne => s.pc == Running && s.functors != [] && !s.mustWake
    case FinishRunning => s.pc == Running && s.functors == [] && !s.mustWake
  }

  function Step(s: Loop, ev: Event): Loop
    requires Enabled(s, ev)
  {
    match ev
    case Push(t, f) => s.(pending := s.pending + [f], queued := s.queued + [f], waking := s.waking + {t})
    case PushInLoop(f) => s.(pending := s.pending + [f], queued := s.queued + [f], mustWake := s.calling)
    case Quit(t) => s.(quit := true, waking := s.waking + {t})
    case QuitInLoop => s.(quit := true)
    case Wakeup(t) => s.(counter := s.counter + 1, waking := s.waking - {t})
    case WakeupInLoop => s.(counter := s.counter + 1, mustWake := false)
    case TestQuit => s.(pc := if s.quit then Exited else Polling)
    case PollReturns => s.(pc := Handling, readable := s.counter > 0)
    case ReadEventfd => s.(counter := 0, readable := false)
    case SwapQueue => s.(pc := Running, calling := true, functors := s.pending, pending := [])
    case RunOne => s.(functors := s.functors[1..], executed := s.executed + [s.functors[0]])
    case FinishRunning => s.(pc := Testing, calling := false)
  }

  predicate IsRun(s: Loop, evs: seq<Event>)
    decreases |evs|
  {
    evs == [] || (Enabled(s, evs[0]) && IsRun(Step(s, evs[0]), evs[1..]))
  }

  function Run(s: Loop, evs: seq<Event>): Loop
    requires IsRun(s, evs)
    decreases |evs|
  {
    if evs == [] then s else Run(Step(s, evs[0]), evs[1..])
  }

  // ----- what every interleaving keeps -----

  // Poll will return: the eventfd is readable, or a thread is about to make it so.
  predicate Signalled(s: Loop) {
    s.counter > 0 || s.waking != {} || s.mustWake
  }

  predicate Inv(s: Loop) {
    && s.executed + (s.functors + s.pending) == s.queued
    && (s.calling <==> s.pc == Running)
    && (s.functors != [] ==> s.pc == Running)
    && (s.mustWake ==> s.pc == Running)
    && (s.readable ==> s.pc == Handling)
    && (s.pc != Handling && s.pending != [] ==> Signalled(s))
    && (s.pc == Polling && s.quit ==> Signalled(s))
  }

  lemma StepKeepsInv(s: Loop, ev: Event)
    requires Inv(s) && Enabled(s, ev)
    ensures Inv(Step(s, ev))
  {
    match ev
    case Push(_, f) =>
      assert s.executed + (s.functors + (s.pending + [f])) == s.executed + (s.functors + s.pending) + [f];
    case PushInLoop(f) =>
      assert s.executed + (s.functors + (s.pending + [f])) == s.executed + (s.functors + s.pending) + [f];
    case SwapQueue =>
      assert s.functors + s.pending == s.pending + [];
    case RunOne =>
      assert s.functors == [s.functors[0]] + s.functors[1..];
      assert s.executed + [s.functors[0]] + (s.functors[1..] + s.pending) == s.executed + (s.functors + s.pending);
    case _ =>
  }

  /** In every interleaving the functors executed, swapped out and pending are those queued, in
      order, so each runs at most once and in its turn; and the loop is never left in poll with
      work or a quit request and no wakeup on the way. */
  lemma {:induction false} RunKeepsInv(s: Loop, evs: seq<Event>)
    requires Inv(s) && IsRun(s, evs)
    ensures Inv(Run(s, evs))
    decreases |evs|
  {
    if evs != [] {
      StepKeepsInv(s, evs[0]);
      RunKeepsInv(Step(s, evs[0]), evs[1..]);
    }
  }

  // The functors handed in by the calls of a run, and whether one of them asks to quit.
  function Pushed(evs: seq<Event>): seq<Functor> {
    if evs == [] then []
    else (if evs[0].Push? || evs[0].PushInLoop? then [evs[0].f] else []) + Pushed(evs[1..])
  }

  predicate AsksToQuit(evs: seq<Event>) {
    exists ev :: ev in evs && (ev.Quit? || ev.QuitInLoop?)
  }

  lemma HistoryStep(s: Loop, ev: Event)
    requires Enabled(s, ev)
    ensures Step(s, ev).queued == s.queued + if ev.Push? || ev.PushInLoop? then [ev.f] else []
    ensures Step(s, ev).quit <==> s.quit || ev.Quit? || ev.QuitInLoop?
  {
  }

  // The histories are the calls made, and nothing else.
  lemma {:induction false} HistoryIsCalls(s: Loop, evs: seq<Event>)
    requires IsRun(s, evs)
    ensures Run(s, evs).queued == s.queued + Pushed(evs)
    ensures Run(s, evs).quit <==> s.quit || AsksToQuit(evs)
    decreases |evs|
  {
    if evs != [] {
      HistoryStep(s, evs[0]);
      hide Step;
      HistoryIsCalls(Step(s, evs[0]), evs[1..]);
      assert evs == [evs[0]] + evs[1..];
    }
  }

  /** In every run from the beginning the functors run, swapped out and pending are those handed
      in by the calls, in order; and the loop is in poll with work or a quit request only while the
      eventfd is readable or a thread is about to write it. */
  lemma EachFunctorInItsTurn(evs: seq<Event>)
    requires IsRun(Start, evs)
    ensures var s := Run(Start, evs);
            && s.executed + s.functors + s.pending == Pushed(evs)
            && (s.quit <==> AsksToQuit(evs))
            && (s.pc == Polling && (s.pending != [] || s.quit) ==> s.counter > 0 || s.waking != {})
  {
    RunKeepsInv(Start, evs);
    HistoryIsCalls(Start, evs);
    hide Run, IsRun, Pushed, AsksToQuit;
    Regroup(Run(Start, evs), Pushed(evs));
  }

  lemma Regroup(s: Loop, pushed: seq<Functor>)
    requires s.executed + (s.functors + s.pending) == s.queued && s.queued == [] + pushed
    ensures s.executed + s.functors + s.pending == pushed
  {
    assert s.executed + s.functors + s.pending == s.executed + (s.functors + s.pending);
    assert [] + pushed == pushed;
  }

  // ----- nothing is lost -----

  // The steps that happen by themselves once no one calls in any more; poll returns only
  // because the eventfd is readable, not because of a timeout or another descriptor.
  predicate Own(s: Loop, ev: Event) {
    match ev
    case Wakeup(_) => true
    case WakeupInLoop => true
    case TestQuit => true
    case PollReturns => s.counter > 0
    case ReadEventfd => true
    case SwapQueue => true
    case RunOne => true
    case FinishRunning => true
    case _ => false
  }

  predicate IsOwnRun(s: Loop, evs: seq<Event>)
    decreases |evs|
  {
    evs == [] || (Enabled(s, evs[0]) && Own(s, evs[0]) && IsOwnRun(Step(s, evs[0]), evs[1..]))
  }

  lemma {:induction false} OwnRunIsRun(s: Loop, evs: seq<Event>)
    requires IsOwnRun(s, evs)
    ensures IsRun(s, evs)
    decreases |evs|
  {
    if evs != [] {
      OwnRunIsRun(Step(s, evs[0]), evs[1..]);
    }
  }

  // No step is left that would happen by itself.
  ghost predicate AtRest(s: Loop) {
    forall ev :: Own(s, ev) ==> !Enabled(s, ev)
  }

  // Wakeups on the way, and one that has arrived.
  function Signals(s: Loop): nat {
    2 * |s.waking| + (if s.mustWake then 2 else 0) + (if s.counter > 0 then 1 else 0)
  }

  // Steps up to the moment at which poll has returned and the eventfd is about to be read.
  function ToRead(s: Loop): nat {
    match s.pc
    case Testing => 2
    case Polling => 1
    case Handling => if s.readable then 0 else |s.pending| + 4
    case Running => |s.functors| + 3
    case Exited => 0
  }

  function Measure(s: Loop): nat {
    Signals(s) * (|s.functors| + |s.pending| + 5) + ToRead(s)
  }

  lemma Multiply(k: nat, k': nat, q: nat, q': nat)
    requires k' <= k && q' <= q
    ensures k' * q' <= k * q && (k' < k ==> k' * q' + q <= k * q)
  {
    assert k' * q' <= k' * q;
    assert k' < k ==> (k' + 1) * q <= k * q;
  }

  // What a wakeup, and reading the eventfd, do to the signals.
  lemma SignalsAfter(s: Loop, ev: Event)
    requires Inv(s) && Enabled(s, ev) && Own(s, ev) && (s.readable ==> s.counter > 0)
    ensures Signals(Step(s, ev)) <= Signals(s)
    ensures ev.Wakeup? || ev.WakeupInLoop? || ev.ReadEventfd? ==> Signals(Step(s, ev)) < Signals(s)
  {
    if ev.Wakeup? {
      assert |s.waking - {ev.thread}| == |s.waking| - 1;
    }
  }

  /** Every step the loop and its callers make by themselves lowers the measure. */
  lemma OwnStepCounts(s: Loop, ev: Event)
    requires Inv(s) && Enabled(s, ev) && Own(s, ev) && (s.readable ==> s.counter > 0)
    ensures Measure(Step(s, ev)) < Measure(s)
    ensures var s' := Step(s, ev); (s'.readable ==> s'.counter > 0) && s'.queued == s.queued && s'.quit == s.quit
  {
    var s' := Step(s, ev);
    SignalsAfter(s, ev);
    Multiply(Signals(s), Signals(s'), |s.functors| + |s.pending| + 5, |s'.functors| + |s'.pending| + 5);
    hide Signals;
  }

  /** So it cannot go on for ever, in no order of steps. */
  lemma {:induction false} OwnRunIsShort(s: Loop, evs: seq<Event>)
    requires Inv(s) && IsOwnRun(s, evs) && (s.readable ==> s.counter > 0)
    ensures IsRun(s, evs) && Inv(Run(s, evs))
    ensures |evs| + Measure(Run(s, evs)) <= Measure(s)
    ensures Run(s, evs).queued == s.queued && Run(s, evs).quit == s.quit
    decreases |evs|
  {
    hide Inv, Measure;
    OwnRunIsRun(s, evs);
    if evs != [] {
      StepKeepsInv(s, evs[0]);
      OwnStepCounts(s, evs[0]);
      OwnRunIsShort(Step(s, evs[0]), evs[1..]);
    }
  }

  // It comes to rest only in poll with nothing to do, or at its exit.
  lemma RestMeansDone(s: Loop)
    requires Inv(s) && AtRest(s)
    ensures s.pc == Exited || (s.pc == Polling && s.executed == s.queued && !s.quit)
  {
    assert s.waking == {} by {
      if t :| t in s.waking { assert Enabled(s, Wakeup(t)); }
    }
    assert !Enabled(s, WakeupInLoop) && !Enabled(s, TestQuit) && !Enabled(s, ReadEventfd) && !Enabled(s, SwapQueue);
    assert !Enabled(s, RunOne) && !Enabled(s, FinishRunning);
    if s.pc == Polling {
      assert Enabled(s, PollReturns);
      assert s.executed + ([] + []) == s.executed;
    }
  }

  lemma {:induction false} ExitNeedsQuit(s: Loop, evs: seq<Event>)
    requires IsRun(s, evs) && (s.pc == Exited ==> s.quit)
    ensures Run(s, evs).pc == Exited ==> Run(s, evs).quit
    decreases |evs|
  {
    if evs != [] {
      ExitNeedsQuit(Step(s, evs[0]), evs[1..]);
    }
  }

  lemma {:induction false} ReadableRun(s: Loop, evs: seq<Event>)
    requires IsRun(s, evs) && (s.readable ==> s.counter > 0)
    ensures Run(s, evs).readable ==> Run(s, evs).counter > 0
    decreases |evs|
  {
    if evs != [] {
      ReadableRun(Step(s, evs[0]), evs[1..]);
    }
  }

  /** After any run, if no one calls in any more and quit has not been asked for, the loop comes
      to rest within a bounded number of steps, in whatever order they are taken and without any
      timeout, and then it has run everything that was queued. */
  lemma NothingIsLost(calls: seq<Event>, evs: seq<Event>)
    requires IsRun(Start, calls) && !AsksToQuit(calls) && IsOwnRun(Run(Start, calls), evs)
    ensures var s := Run(Start, calls);
            && IsRun(s, evs) && |evs| <= Measure(s)
            && (AtRest(Run(s, evs)) ==> Run(s, evs).executed == Pushed(calls))
  {
    HistoryIsCalls(Start, calls);
    assert [] + Pushed(calls) == Pushed(calls);
    RunKeepsInv(Start, calls);
    ReadableRun(Start, calls);
    ExitNeedsQuit(Start, calls);
    var s := Run(Start, calls);
    OwnRunIsShort(s, evs);
    ExitNeedsQuit(s, evs);
    hide Inv, Measure, AtRest;
    if AtRest(Run(s, evs)) {
      RestMeansDone(Run(s, evs));
    }
  }

  /** And if quit has been asked for, it comes to rest at its exit. */
  lemma QuitIsHonoured(calls: seq<Event>, evs: seq<Event>)
    requires IsRun(Start, calls) && AsksToQuit(calls) && IsOwnRun(Run(Start, calls), evs)
    ensures var s := Run(Start, calls);
            && IsRun(s, evs) && |evs| <= Measure(s)
            && (AtRest(Run(s, evs)) ==> Run(s, evs).pc == Exited)
  {
    HistoryIsCalls(Start, calls);
    RunKeepsInv(Start, calls);
    ReadableRun(Start, calls);
    var s := Run(Start, calls);
    OwnRunIsShort(s, evs);
    hide Inv, Measure, AtRest;
    if AtRest(Run(s, evs)) {
      RestMeansDone(Run(s, evs));
    }
  }
}
