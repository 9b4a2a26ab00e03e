/** The connector: it creates non-blocking sockets, waits for each to connect, and hands the
    connected one over or closes it and tries again later, waiting longer each time. */
module ConnectorSystem {

  const INIT_RETRY_DELAY_MS := 500
  const MAX_RETRY_DELAY_MS := 30000

  datatype Option<T> = None | Some(value: T)
  datatype Phase = Disconnected | Connecting | Connected

  // Answers of the kernel: to connect, and to the question what became of it.
  datatype Answer = InProgress | Refused | Fatal
  datatype Outcome = Good | SocketError | SelfConnect

  type Socket = nat

  datatype State = State(
    connect: bool,                 // set by start, cleared by stop
    phase: Phase,
    channel: Option<Socket>,       // the channel object and its socket
    watching: bool,                // the channel is registered with the poller
    delay: nat,                    // retryDelayMs_
    resets: nat,                   // queued resetChannel calls
    timers: nat,                   // scheduled startInLoop calls
    starts: nat,                   // queued startInLoop calls
    stops: nat,                    // queued stopInLoop calls
    created: nat,                  // sockets so far; they are numbered from 0
    closed: multiset<Socket>,
    handed: multiset<Socket>,
    delays: seq<nat>)              // history: delays scheduled since construction or restart

  function Start(): State {
    State(false, Disconnected, None, false, INIT_RETRY_DELAY_MS, 0, 0, 0, 0, 0, multiset{}, multiset{}, [])
  }

  datatype Event =
    | RequestStart                     // start(), by any thread
    | RunStart(answer: Answer)         // the loop runs startInLoop
    | TimerStart(answer: Answer)       // the retry timer runs startInLoop
    | RequestStop                      // stop(), by any thread
    | RunStop                          // the loop runs stopInLoop
    | Restart(answer: Answer)
    | RunReset                         // the loop runs resetChannel
    | Write(outcome: Outcome)          // handleWrite
    | Error                            // handleError

  function Min(a: nat, b: nat): nat {
    if a < b then a else b
  }

  function Close(s: State, sock: Socket): State {
    s.(closed := s.closed + multiset{sock})
  }

  function Retry(s: State, sock: Socket): State {
    var s1 := Close(s, sock).(phase := Disconnected);
    if s1.connect
    then s1.(timers := s1.timers + 1, delays := s1.delays + [s1.delay],
             delay := Min(s1.delay * 2, MAX_RETRY_DELAY_MS))
    else s1
  }

  function Watch(s: State, sock: Socket): State {
    s.(phase := Connecting, channel := Some(sock), watching := true)
  }

  function Connect(s: State, answer: Answer): State {
    var sock, s1 := s.created, s.(created := s.created + 1);
    match answer
    case InProgress => Watch(s1, sock)
    case Refused => Retry(s1, sock)
    case Fatal => Close(s1, sock)
  }

  // A new channel may be made only once the last one is gone.
  predicate MayConnect(s: State, answer: Answer) {
    s.connect && answer == InProgress ==> s.channel == None
  }

  function StartInLoop(s: State, answer: Answer): State {
    if s.connect then Connect(s, answer) else s
  }

  function Restarted(s: State): State {
    s.(phase := Disconnected, delay := INIT_RETRY_DELAY_MS, connect := true, delays := [])
  }

  function RemoveAndReset(s: State): State {
    s.(watching := false, resets := s.resets + 1)
  }

  function StopInLoop(s: State): State
    requires s.phase == Connecting ==> s.channel.Some?
  {
    if s.phase == Connecting
    then Retry(RemoveAndReset(s.(phase := Disconnected)), s.channel.value)
    else s
  }

  function HandleWrite(s: State, outcome: Outcome): State
    requires s.phase == Connecting ==> s.channel.Some?
  {
    if s.phase == Connecting then
      var sock, s1 := s.channel.value, RemoveAndReset(s);
      match outcome
      case Good =>
        var s2 := s1.(phase := Connected);
        if s2.connect then s2.(handed := s2.handed + multiset{sock}) else Close(s2, sock)
      case _ => Retry(s1, sock)
    else s
  }

  // The conditions are the source's assertions, and that what runs was queued or scheduled.
  predicate Enabled(s: State, ev: Event) {
    match ev
    case RequestStart => true
    case RunStart(answer) => s.starts > 0 && s.phase == Disconnected && MayConnect(s, answer)
    case TimerStart(answer) => s.timers > 0 && s.phase == Disconnected && MayConnect(s, answer)
    case RequestStop => true
    case RunStop => s.stops > 0 && (s.phase == Connecting ==> s.channel.Some?)
    case Restart(answer) => MayConnect(s.(connect := true), answer)
    case RunReset => s.resets > 0
    case Write(_) => s.channel.Some? && (s.phase == Connecting || s.phase == Disconnected)
    case Error => s.channel.Some? && s.phase == Connecting
  }

  function Step(s: State, ev: Event): State
    requires Enabled(s, ev)
  {
    match ev
    case RequestStart => s.(connect := true, starts := s.starts + 1)
    case RunStart(answer) => StartInLoop(s.(starts := s.starts - 1), answer)
    case TimerStart(answer) => StartInLoop(s.(timers := s.timers - 1), answer)
    case RequestStop => s.(connect := false, stops := s.stops + 1)
    case RunStop => StopInLoop(s.(stops := s.stops - 1))
    case Restart(answer) => StartInLoop(Restarted(s), answer)
    case RunReset => s.(resets := s.resets - 1, channel := None, watching := false)
    case Write(outcome) => HandleWrite(s, outcome)
    case Error => Retry(RemoveAndReset(s), s.channel.value)
  }

  predicate IsRun(s: State, evs: seq<Event>)
    decreases |evs|
  {
    evs == [] || (Enabled(s, evs[0]) && IsRun(Step(s, evs[0]), evs[1..]))
  }

  function Run(s: State, evs: seq<Event>): State
    requires IsRun(s, evs)
    decreases |evs|
  {
    if evs == [] then s else Run(Step(s, evs[0]), evs[1..])
  }

  // ----- sockets -----

  function Held(s: State): multiset<Socket> {
    if s.watching && s.channel.Some? then multiset{s.channel.value} else multiset{}
  }

  // Every socket created is in exactly one place, once: watched, closed, or handed over.
  ghost predicate Owned(held: multiset<Socket>, closed: multiset<Socket>, handed: multiset<Socket>, created: nat) {
    forall k: Socket :: held[k] + closed[k] + handed[k] == if k < created then 1 else 0
  }

  // A channel that is no longer watched waits for its one queued reset.
  predicate Channelled(phase: Phase, channel: Option<Socket>, watching: bool, resets: nat) {
    && (watching ==> channel.Some?)
    && (phase == Connecting ==> watching)
    && resets == (if channel.Some? && !watching then 1 else 0)
  }

  // ----- delays -----

  function Pow2(k: nat): nat {
    if k == 0 then 1 else 2 * Pow2(k - 1)
  }

  function Backoff(k: nat): nat {
    Min(INIT_RETRY_DELAY_MS * Pow2(k), MAX_RETRY_DELAY_MS)
  }

  predicate BackedOff(delay: nat, delays: seq<nat>) {
    delay == Backoff(|delays|) && forall i :: 0 <= i < |delays| ==> delays[i] == Backoff(i)
  }

  lemma BackoffNext(k: nat)
    ensures Backoff(k + 1) == Min(Backoff(k) * 2, MAX_RETRY_DELAY_MS)
  {
  }

  ghost predicate Inv(s: State) {
    && Owned(Held(s), s.closed, s.handed, s.created)
    && Channelled(s.phase, s.channel, s.watching, s.resets)
    && BackedOff(s.delay, s.delays)
  }

  lemma StartIsInv()
    ensures Inv(Start())
  {
  }

  // A socket in hand belongs to nobody: it is created but neither watched, closed nor handed over.
  ghost predicate InHand(held: multiset<Socket>, closed: multiset<Socket>, handed: multiset<Socket>, created: nat,
                         sock: Socket)
  {
    && sock < created
    && forall k: Socket :: held[k] + closed[k] + handed[k] == if k < created && k != sock then 1 else 0
  }

  lemma InHandGoes(held: multiset<Socket>, closed: multiset<Socket>, handed: multiset<Socket>, created: nat, sock: Socket)
    requires InHand(held, closed, handed, created, sock)
    ensures Owned(held + multiset{sock}, closed, handed, created)
    ensures Owned(held, closed + multiset{sock}, handed, created)
    ensures Owned(held, closed, handed + multiset{sock}, created)
  {
  }

  lemma NewIsInHand(held: multiset<Socket>, closed: multiset<Socket>, handed: multiset<Socket>, created: nat)
    requires Owned(held, closed, handed, created)
    ensures InHand(held, closed, handed, created + 1, created)
  {
  }

  lemma HeldIsInHand(closed: multiset<Socket>, handed: multiset<Socket>, created: nat, sock: Socket)
    requires Owned(multiset{sock}, closed, handed, created)
    ensures InHand(multiset{}, closed, handed, created, sock)
  {
    assert multiset{sock}[sock] == 1;
  }

  lemma RetryKeepsInv(s: State, sock: Socket)
    requires InHand(Held(s), s.closed, s.handed, s.created, sock)
    requires Channelled(Disconnected, s.channel, s.watching, s.resets) && BackedOff(s.delay, s.delays)
    ensures Inv(Retry(s, sock))
  {
    BackoffNext(|s.delays|);
    InHandGoes(Held(s), s.closed, s.handed, s.created, sock);
    hide Backoff, Owned, InHand, Channelled;
  }

  lemma ConnectKeepsInv(s: State, answer: Answer)
    requires Inv(s) && s.phase == Disconnected && (answer == InProgress ==> s.channel == None)
    ensures Inv(Connect(s, answer))
  {
    hide BackedOff, Owned, InHand;
    var sock, s1 := s.created, s.(created := s.created + 1);
    NewIsInHand(Held(s), s.closed, s.handed, s.created);
    if answer == Refused {
      RetryKeepsInv(s1, sock);
    } else {
      InHandGoes(Held(s1), s1.closed, s1.handed, s1.created, sock);
      assert multiset{} + multiset{sock} == multiset{sock};
    }
  }

  lemma RetryOutcome(s: State, sock: Socket)
    requires InHand(Held(s), s.closed, s.handed, s.created, sock) && BackedOff(s.delay, s.delays)
    ensures var s' := Retry(s, sock);
            && s'.closed[sock] == 1 && s'.connect == s.connect
            && (s.connect ==> s'.timers == s.timers + 1 && s'.delays == s.delays + [Backoff(|s.delays|)])
            && (!s.connect ==> s'.timers == s.timers && s'.delays == s.delays)
  {
    hide Backoff;
  }

  // Where the new socket goes.
  lemma ConnectPlaces(s: State, answer: Answer)
    requires Inv(s) && (answer == InProgress ==> s.channel == None)
    ensures var s' := Connect(s, answer);
            if answer == InProgress then Held(s') == multiset{s.created} && s'.closed == s.closed
            else Held(s') == Held(s) && s'.closed == s.closed + multiset{s.created}
  {
    hide Owned, BackedOff;
  }

  lemma RemoveTakesInHand(s: State)
    requires Inv(s) && s.phase == Connecting
    ensures s.channel.Some?
    ensures var s1 := RemoveAndReset(s);
            && InHand(Held(s1), s1.closed, s1.handed, s1.created, s.channel.value)
            && Channelled(Disconnected, s1.channel, s1.watching, s1.resets)
            && Channelled(Connected, s1.channel, s1.watching, s1.resets)
  {
    hide BackedOff, Owned, InHand;
    HeldIsInHand(s.closed, s.handed, s.created, s.channel.value);
  }

  lemma WriteKeepsInv(s: State, outcome: Outcome)
    requires Inv(s) && Enabled(s, Write(outcome)) && s.phase == Connecting
    ensures Inv(HandleWrite(s, outcome))
  {
    RemoveTakesInHand(s);
    hide BackedOff, Owned, InHand, Channelled;
    var sock, s1 := s.channel.value, RemoveAndReset(s);
    if outcome == Good {
      InHandGoes(Held(s1), s1.closed, s1.handed, s1.created, sock);
    } else {
      RetryKeepsInv(s1, sock);
    }
  }

  lemma StopKeepsInv(s: State)
    requires Inv(s)
    ensures s.phase == Connecting ==> s.channel.Some?
    ensures Inv(StopInLoop(s))
  {
    hide BackedOff, Owned, InHand;
    if s.phase == Connecting {
      RemoveTakesInHand(s);
      RetryKeepsInv(RemoveAndReset(s.(phase := Disconnected)), s.channel.value);
    }
  }

  lemma RestartedKeepsInv(s: State)
    requires Inv(s)
    ensures Inv(Restarted(s))
  {
    hide Owned;
  }

  lemma StepKeepsInv(s: State, ev: Event)
    requires Inv(s) && Enabled(s, ev)
    ensures Inv(Step(s, ev))
  {
    hide Owned, InHand, Connect, Retry;
    match ev
    case RequestStart =>
    case RunStart(answer) =>
      if s.connect { ConnectKeepsInv(s.(starts := s.starts - 1), answer); }
    case TimerStart(answer) =>
      if s.connect { ConnectKeepsInv(s.(timers := s.timers - 1), answer); }
    case RequestStop =>
    case RunStop => StopKeepsInv(s.(stops := s.stops - 1));
    case Restart(answer) =>
      RestartedKeepsInv(s);
      ConnectKeepsInv(Restarted(s), answer);
    case RunReset =>
    case Write(outcome) =>
      if s.phase == Connecting { WriteKeepsInv(s, outcome); }
    case Error =>
      RemoveTakesInHand(s);
      RetryKeepsInv(RemoveAndReset(s), s.channel.value);
  }

  /** In every run each socket is watched, closed once, or handed over once, and the delay
      before retry number k since construction or restart is min(500 * 2^k, 30000) ms. */
  lemma {:induction false} RunKeepsInv(s: State, evs: seq<Event>)
    requires Inv(s) && IsRun(s, evs)
    ensures Inv(Run(s, evs))
    decreases |evs|
  {
    if evs != [] {
      StepKeepsInv(s, evs[0]);
      RunKeepsInv(Step(s, evs[0]), evs[1..]);
    }
  }

  // ----- what a step does, from the event -----

  // A socket is created: an attempt comes to run and is wanted.
  predicate Attempts(s: State, ev: Event) {
    ((ev.RunStart? || ev.TimerStart?) && s.connect) || ev.Restart?
  }

  // The socket being connected fails, or is given up.
  predicate Fails(s: State, ev: Event) {
    && s.phase == Connecting && s.channel.Some?
    && (ev.Error? || ev.RunStop? || (ev.Write? && ev.outcome != Good))
  }

  // The socket being connected is connected.
  predicate Succeeds(s: State, ev: Event) {
    s.phase == Connecting && s.channel.Some? && ev == Write(Good)
  }

  // Another attempt is scheduled.
  predicate Retries(s: State, ev: Event) {
    (Fails(s, ev) && s.connect) || (Attempts(s, ev) && ev.answer == Refused)
  }

  lemma RetryChanges(s: State, sock: Socket)
    ensures var s' := Retry(s, sock);
            && s' == s.(closed := s.closed + multiset{sock}, phase := Disconnected, timers := s'.timers,
                        delays := s'.delays, delay := s'.delay)
            && s'.timers == s.timers + (if s.connect then 1 else 0)
            && |s'.delays| == |s.delays| + (if s.connect then 1 else 0)
  {
  }

  lemma ConnectChanges(s: State, answer: Answer)
    requires s.connect && s.phase == Disconnected
    ensures var s' := Connect(s, answer);
            && s' == s.(created := s.created + 1, closed := s'.closed, phase := s'.phase, channel := s'.channel,
                        watching := s'.watching, timers := s'.timers, delays := s'.delays, delay := s'.delay)
            && s'.closed == (if answer == InProgress then s.closed else s.closed + multiset{s.created})
            && s'.phase == (if answer == InProgress then Connecting else Disconnected)
            && s'.timers == s.timers + (if answer == Refused then 1 else 0)
            && |s'.delays| == |s.delays| + (if answer == Refused then 1 else 0)
  {
    RetryChanges(s.(created := s.created + 1), s.created);
    hide Retry;
  }

  lemma WriteChanges(s: State, outcome: Outcome)
    requires s.phase == Connecting && s.channel.Some?
    ensures var s' := HandleWrite(s, outcome);
            && s' == s.(closed := s'.closed, handed := s'.handed, phase := s'.phase, watching := s'.watching,
                        resets := s'.resets, timers := s'.timers, delays := s'.delays, delay := s'.delay)
            && s'.handed == (if outcome == Good && s.connect then s.handed + multiset{s.channel.value} else s.handed)
            && s'.closed == (if outcome == Good && s.connect then s.closed else s.closed + multiset{s.channel.value})
            && s'.phase == (if outcome == Good then Connected else Disconnected)
            && s'.timers == s.timers + (if outcome != Good && s.connect then 1 else 0)
            && |s'.delays| == |s.delays| + (if outcome != Good && s.connect then 1 else 0)
  {
    RetryChanges(RemoveAndReset(s), s.channel.value);
    hide Retry;
  }

  lemma StopChanges(s: State)
    requires s.phase == Connecting ==> s.channel.Some?
    ensures var s' := StopInLoop(s);
            if s.phase == Connecting then
              && s' == s.(closed := s.closed + multiset{s.channel.value}, phase := Disconnected,
                          watching := s'.watching, resets := s'.resets,
                          timers := s'.timers, delays := s'.delays, delay := s'.delay)
              && s'.timers == s.timers + (if s.connect then 1 else 0)
              && |s'.delays| == |s.delays| + (if s.connect then 1 else 0)
            else s' == s
  {
    if s.phase == Connecting {
      RetryChanges(RemoveAndReset(s.(phase := Disconnected)), s.channel.value);
    }
    hide Retry;
  }

  // What the event means for the sockets.
  predicate SocketsFit(s: State, ev: Event, s': State) {
    && s'.created == s.created + (if Attempts(s, ev) then 1 else 0)
    && s'.handed == (if Succeeds(s, ev) && s.connect then s.handed + multiset{s.channel.value} else s.handed)
    && s'.closed == (if Fails(s, ev) || (Succeeds(s, ev) && !s.connect) then s.closed + multiset{s.channel.value}
                     else if Attempts(s, ev) && ev.answer != InProgress then s.closed + multiset{s.created}
                     else s.closed)
  }

  // And for the attempts to come.
  predicate RetriesFit(s: State, ev: Event, s': State) {
    && s'.timers == s.timers - (if ev.TimerStart? then 1 else 0) + (if Retries(s, ev) then 1 else 0)
    && |s'.delays| == (if ev.Restart? then 0 else |s.delays|) + (if Retries(s, ev) then 1 else 0)
    && s'.connect == (ev.RequestStart? || ev.Restart? || (s.connect && !ev.RequestStop?))
    && s'.phase == (if Attempts(s, ev) && ev.answer == InProgress then Connecting
                    else if Succeeds(s, ev) then Connected
                    else if Fails(s, ev) || Attempts(s, ev) then Disconnected else s.phase)
    && s'.starts == s.starts + (if ev.RequestStart? then 1 else 0) - (if ev.RunStart? then 1 else 0)
    && s'.stops == s.stops + (if ev.RequestStop? then 1 else 0) - (if ev.RunStop? then 1 else 0)
  }

  /** A socket is handed over exactly when it has connected without error, and not to itself, and is
      still wanted.  It is closed exactly when it fails, is not wanted any more when it connects, or
      the kernel does not let it begin.  Sockets are created by attempts only.  A retry is scheduled
      exactly when an attempt that is wanted fails or is refused.  The connector is connecting after
      an attempt that is in progress, connected after success, and wanted after start or restart
      and until stop. */
  lemma StepOutcome(s: State, ev: Event)
    requires Inv(s) && Enabled(s, ev)
    ensures SocketsFit(s, ev, Step(s, ev)) && RetriesFit(s, ev, Step(s, ev))
  {
    assert s.phase == Connecting ==> s.channel.Some?;
    hide Inv;
    if ev.RunStart? || ev.TimerStart? || ev.Restart? {
      AttemptOutcome(s, ev);
      hide SocketsFit, RetriesFit, Step;
    } else {
      OtherOutcome(s, ev);
      hide SocketsFit, RetriesFit, Step;
    }
  }

  lemma ConnectOutcome(s: State, answer: Answer, s': State)
    requires s.connect && s.phase == Disconnected && s' == Connect(s, answer)
    ensures s'.created == s.created + 1 && s'.handed == s.handed && s'.connect
    ensures s'.closed == (if answer == InProgress then s.closed else s.closed + multiset{s.created})
    ensures s'.phase == (if answer == InProgress then Connecting else Disconnected)
    ensures s'.timers == s.timers + (if answer == Refused then 1 else 0)
    ensures |s'.delays| == |s.delays| + (if answer == Refused then 1 else 0)
    ensures s'.starts == s.starts && s'.stops == s.stops
  {
    ConnectChanges(s, answer);
    hide Connect;
  }

  lemma AttemptOutcome(s: State, ev: Event)
    requires Enabled(s, ev) && (ev.RunStart? || ev.TimerStart? || ev.Restart?)
    ensures SocketsFit(s, ev, Step(s, ev)) && RetriesFit(s, ev, Step(s, ev))
  {
    hide Connect;
    var s' := Step(s, ev);
    match ev
    case RunStart(answer) =>
      if s.connect { ConnectOutcome(s.(starts := s.starts - 1), answer, s'); }
    case TimerStart(answer) =>
      if s.connect { ConnectOutcome(s.(timers := s.timers - 1), answer, s'); }
    case Restart(answer) => ConnectOutcome(Restarted(s), answer, s');
  }

  lemma OtherOutcome(s: State, ev: Event)
    requires Enabled(s, ev) && !ev.RunStart? && !ev.TimerStart? && !ev.Restart?
    requires s.phase == Connecting ==> s.channel.Some?
    ensures SocketsFit(s, ev, Step(s, ev)) && RetriesFit(s, ev, Step(s, ev))
  {
    hide HandleWrite, StopInLoop, Retry, Connect;
    match ev
    case RunStop => StopChanges(s.(stops := s.stops - 1));
    case Write(outcome) =>
      if s.phase == Connecting {
        WriteChanges(s, outcome);
      } else {
        IdleWrite(s, outcome);
      }
    case Error => RetryChanges(RemoveAndReset(s), s.channel.value);
    case _ =>
  }

  lemma IdleWrite(s: State, outcome: Outcome)
    requires s.phase != Connecting
    ensures HandleWrite(s, outcome) == s
  {
  }

  // Retries scheduled since construction or restart, n of them before the run.
  function RetriesSince(s: State, evs: seq<Event>, n: nat): nat
    requires IsRun(s, evs)
    decreases |evs|
  {
    if evs == [] then n
    else RetriesSince(Step(s, evs[0]), evs[1..],
                      (if evs[0].Restart? then 0 else n) + (if Retries(s, evs[0]) then 1 else 0))
  }

  lemma {:induction false} DelaysAreRetries(s: State, evs: seq<Event>)
    requires Inv(s) && IsRun(s, evs)
    ensures |Run(s, evs).delays| == RetriesSince(s, evs, |s.delays|)
    decreases |evs|
  {
    hide Inv, Retries;
    if evs != [] {
      StepKeepsInv(s, evs[0]);
      StepOutcome(s, evs[0]);
      DelaysAreRetries(Step(s, evs[0]), evs[1..]);
    }
  }

  /** In every run from the beginning each socket created is watched, closed once or handed over
      once, and only one of these; and after k retries since construction or restart the delays
      were, and the next one is, min(500 * 2^k, 30000). */
  lemma EverySocketOnce(evs: seq<Event>)
    requires IsRun(Start(), evs)
    ensures var s := Run(Start(), evs);
            && (forall k: Socket :: k < s.created ==>
                  (if s.watching && s.channel == Some(k) then 1 else 0) + s.closed[k] + s.handed[k] == 1)
            && (forall k: Socket :: k >= s.created ==> k !in s.closed && k !in s.handed)
            && |s.delays| == RetriesSince(Start(), evs, 0)
            && (forall i :: 0 <= i < |s.delays| ==> s.delays[i] == Min(500 * Pow2(i), 30000))
            && s.delay == Min(500 * Pow2(|s.delays|), 30000)
  {
    RunKeepsInv(Start(), evs);
    DelaysAreRetries(Start(), evs);
    hide RetriesSince;
  }

  // ----- the assertion at the head of startInLoop -----

  function Pending(s: State): nat {
    s.timers + s.starts
  }

  // startInLoop is due and would not find the connector disconnected.
  predicate MeetsAssertion(s: State) {
    s.phase != Disconnected && Pending(s) >= 1
  }

  // Nobody calls start or restart.
  predicate Quiet(evs: seq<Event>) {
    forall ev :: ev in evs ==> !ev.RequestStart? && !ev.Restart?
  }

  // Two attempts are under way or to come, and nothing keeps them from meeting.
  predicate Collides(s: State) {
    || (s.phase != Disconnected && Pending(s) >= 1)
    || (s.phase == Disconnected && s.connect && !s.watching && Pending(s) >= 2)
  }

  lemma StepStaysClear(s: State, ev: Event)
    requires Inv(s) && !Collides(s) && Enabled(s, ev) && !ev.RequestStart? && !ev.Restart?
    ensures !Collides(Step(s, ev))
  {
    hide Owned, BackedOff;
  }

  lemma {:induction false} RunStaysClear(s: State, evs: seq<Event>)
    requires Inv(s) && !Collides(s) && IsRun(s, evs) && Quiet(evs)
    ensures !Collides(Run(s, evs))
    decreases |evs|
  {
    hide Inv, Collides;
    if evs != [] {
      assert !evs[0].RequestStart? && !evs[0].Restart?;
      StepKeepsInv(s, evs[0]);
      StepStaysClear(s, evs[0]);
      RunStaysClear(Step(s, evs[0]), evs[1..]);
    }
  }

  ghost predicate Reaches(s: State, evs: seq<Event>) {
    IsRun(s, evs) && Quiet(evs) && MeetsAssertion(Run(s, evs))
  }

  // One of two pending attempts connects while the other is still to come.
  lemma AttemptsMeet(s: State) returns (evs: seq<Event>)
    requires Inv(s) && s.phase == Disconnected && s.connect && s.channel == None && Pending(s) >= 2
    ensures Reaches(s, evs)
  {
    var ev := if s.starts > 0 then RunStart(InProgress) else TimerStart(InProgress);
    assert IsRun(Step(s, ev), []);
    RunCons(s, ev, []);
    evs := [ev] + [];
    assert MeetsAssertion(Step(s, ev));
    hide Inv;
  }

  /** Without further calls of start or restart, startInLoop can come to run while the connector
      is not disconnected exactly when it is due and the connector is not disconnected now, or
      when two attempts are due, wanted, and no channel from before a restart is in the way. */
  lemma AssertionCanFailExactlyWhen(s: State)
    requires Inv(s)
    ensures (exists evs :: Reaches(s, evs)) <==> Collides(s)
  {
    if !Collides(s) {
      forall evs ensures !Reaches(s, evs) {
        if IsRun(s, evs) && Quiet(evs) {
          RunStaysClear(s, evs);
        }
      }
    } else if s.phase != Disconnected {
      assert Reaches(s, []);
    } else if s.channel == None {
      var evs := AttemptsMeet(s);
    } else {
      var s1 := Step(s, RunReset);
      StepKeepsInv(s, RunReset);
      var rest := AttemptsMeet(s1);
      RunCons(s, RunReset, rest);
      assert Reaches(s, [RunReset] + rest);
    }
  }

  // ----- callers that keep it -----

  /** What a caller can see: start is called once, and restart only after a connection has been
      handed over since the last start or restart. */
  predicate Polite(s: State, evs: seq<Event>, started: bool, delivered: bool)
    requires IsRun(s, evs)
    decreases |evs|
  {
    evs == [] ||
    (var s' := Step(s, evs[0]);
     && (evs[0].RequestStart? ==> !started)
     && (evs[0].Restart? ==> delivered)
     && Polite(s', evs[1..], started || evs[0].RequestStart?,
               !evs[0].Restart? && (delivered || |s'.handed| > |s.handed|)))
  }

  // One attempt at a time, none before start, and a connection handed over stays until restart.
  predicate Single(s: State, started: bool, delivered: bool) {
    && Pending(s) + (if s.phase == Disconnected then 0 else 1) <= 1
    && (!started ==> Pending(s) == 0 && s.phase == Disconnected)
    && (delivered ==> started && s.phase == Connected)
  }

  lemma StepKeepsSingle(s: State, ev: Event, started: bool, delivered: bool)
    requires Single(s, started, delivered) && Enabled(s, ev)
    requires (ev.RequestStart? ==> !started) && (ev.Restart? ==> delivered)
    ensures var s' := Step(s, ev);
            Single(s', started || ev.RequestStart?, !ev.Restart? && (delivered || |s'.handed| > |s.handed|))
  {
  }

  lemma {:induction false} PoliteRun(s: State, evs: seq<Event>, started: bool, delivered: bool)
    requires IsRun(s, evs) && Polite(s, evs, started, delivered) && Single(s, started, delivered)
    ensures !MeetsAssertion(Run(s, evs))
    decreases |evs|
  {
    if evs != [] {
      StepKeepsSingle(s, evs[0], started, delivered);
      var s' := Step(s, evs[0]);
      PoliteRun(s', evs[1..], started || evs[0].RequestStart?,
                !evs[0].Restart? && (delivered || |s'.handed| > |s.handed|));
    }
  }

  /** With such callers the assertion holds whenever startInLoop is due, in every run. */
  lemma PoliteCallersAreSafe(evs: seq<Event>)
    requires IsRun(Start(), evs) && Polite(Start(), evs, false, false)
    ensures !MeetsAssertion(Run(Start(), evs))
  {
    PoliteRun(Start(), evs, false, false);
  }

  lemma RunCons(s: State, ev: Event, evs: seq<Event>)
    requires Enabled(s, ev) && IsRun(Step(s, ev), evs)
    ensures IsRun(s, [ev] + evs) && Run(s, [ev] + evs) == Run(Step(s, ev), evs)
  {
    assert ([ev] + evs)[1..] == evs;
  }

  lemma Unroll(s: State, evs: seq<Event>, i: nat)
    requires i < |evs| && Enabled(s, evs[i]) && IsRun(Step(s, evs[i]), evs[i + 1..])
    ensures IsRun(s, evs[i..]) && Run(s, evs[i..]) == Run(Step(s, evs[i]), evs[i + 1..])
  {
    assert evs[i..][0] == evs[i] && evs[i..][1..] == evs[i + 1..];
  }

  /** Starting again after stop is not safe: a retry scheduled before stop is still due after the
      connector has been started again and is connecting. */
  lemma StaleRetry()
    ensures var evs := [RequestStart, RunStart(Refused), RequestStop, RunStop, RequestStart, RunStart(InProgress)];
            IsRun(Start(), evs) && MeetsAssertion(Run(Start(), evs))
            && Run(Start(), evs).timers == 1 && Run(Start(), evs).phase == Connecting
  {
    var evs := [RequestStart, RunStart(Refused), RequestStop, RunStop, RequestStart, RunStart(InProgress)];
    var s1 := Step(Start(), evs[0]);
    var s2 := Step(s1, evs[1]);
    var s3 := Step(s2, evs[2]);
    var s4 := Step(s3, evs[3]);
    var s5 := Step(s4, evs[4]);
    var s6 := Step(s5, evs[5]);
    assert s6.timers == 1 && s6.phase == Connecting;
    assert evs[6..] == [] && IsRun(s6, evs[6..]);
    hide Step, Run, IsRun;
    Unroll(s5, evs, 5);
    Unroll(s4, evs, 4);
    Unroll(s3, evs, 3);
    Unroll(s2, evs, 2);
    Unroll(s1, evs, 1);
    Unroll(Start(), evs, 0);
    assert evs[0..] == evs;
  }

  // The first half of the next run: stop is called, and then the connection succeeds.
  lemma ClosesWhenStopped() returns (s4: State)
    ensures var evs := [RequestStart, RunStart(InProgress), RequestStop, Write(Good)];
            IsRun(Start(), evs) && Run(Start(), evs) == s4
    ensures s4 == State(false, Connected, Some(0), false, 500, 1, 0, 0, 1, 1, s4.closed, multiset{}, [])
    ensures s4.closed[0] == 1
  {
    var evs := [RequestStart, RunStart(InProgress), RequestStop, Write(Good)];
    var s1 := Step(Start(), evs[0]);
    var s2 := Step(s1, evs[1]);
    var s3 := Step(s2, evs[2]);
    s4 := Step(s3, evs[3]);
    assert evs[4..] == [] && IsRun(s4, evs[4..]);
    Unroll(s3, evs, 3);
    Unroll(s2, evs, 2);
    Unroll(s1, evs, 1);
    Unroll(Start(), evs, 0);
    assert evs[0..] == evs;
  }

  lemma {:induction false} RunConcat(s: State, evs: seq<Event>, more: seq<Event>)
    requires IsRun(s, evs) && IsRun(Run(s, evs), more)
    ensures IsRun(s, evs + more) && Run(s, evs + more) == Run(Run(s, evs), more)
    decreases |evs|
  {
    hide Step;
    if evs == [] {
      assert evs + more == more;
    } else {
      assert (evs + more)[0] == evs[0] && (evs + more)[1..] == evs[1..] + more;
      RunConcat(Step(s, evs[0]), evs[1..], more);
    }
  }

  /** Nor is it when no retry is due: if the connection succeeds between stop and stopInLoop, its
      socket is closed and not handed over, and yet the connector counts as connected when it is
      started again. */
  lemma ConnectedButClosed()
    ensures var evs := [RequestStart, RunStart(InProgress), RequestStop, Write(Good)] + [RunStop, RunReset, RequestStart];
            IsRun(Start(), evs)
            && var s := Run(Start(), evs);
               MeetsAssertion(s) && s.phase == Connected && s.created == 1 && s.closed[0] == 1 && s.handed == multiset{}
  {
    var s4 := ClosesWhenStopped();
    var first, evs := [RequestStart, RunStart(InProgress), RequestStop, Write(Good)], [RunStop, RunReset, RequestStart];
    var s7 := StartsAgain(s4);
    hide Step, IsRun, Run;
    RunConcat(Start(), first, evs);
  }

  // The second half: stopInLoop, the queued reset, and start.
  lemma StartsAgain(s4: State) returns (s7: State)
    requires s4.phase == Connected && s4.stops == 1 && s4.resets == 1 && s4.starts == 0 && s4.timers == 0
    ensures var evs := [RunStop, RunReset, RequestStart]; IsRun(s4, evs) && Run(s4, evs) == s7
    ensures s7.phase == Connected && s7.starts == 1 && s7.timers == 0 && s7.created == s4.created
    ensures s7.closed == s4.closed && s7.handed == s4.handed
  {
    var evs := [RunStop, RunReset, RequestStart];
    var s5 := Step(s4, evs[0]);
    var s6 := Step(s5, evs[1]);
    s7 := Step(s6, evs[2]);
    assert evs[3..] == [] && IsRun(s7, evs[3..]);
    Unroll(s6, evs, 2);
    Unroll(s5, evs, 1);
    Unroll(s4, evs, 0);
    assert evs[0..] == evs;
    hide Step, IsRun, Run;
  }

  // ----- trying on -----

  predicate GivesUp(ev: Event) {
    (ev.RunStart? || ev.TimerStart? || ev.Restart?) && ev.answer == Fatal
  }

  // While connecting, the channel has the socket created last.
  predicate Latest(s: State) {
    s.phase == Connecting ==> s.created > 0 && s.channel == Some(s.created - 1)
  }

  // The socket created last has been handed over.
  predicate Delivered(s: State) {
    s.phase == Connected && s.created > 0 && s.created - 1 in s.handed
  }

  // A connector that is wanted is connecting, has delivered, or has another attempt coming.
  predicate Trying(s: State) {
    s.connect ==> s.phase == Connecting || Delivered(s) || Pending(s) > 0
  }

  lemma StepKeepsLatest(s: State, ev: Event)
    requires Inv(s) && Latest(s) && Enabled(s, ev)
    ensures Latest(Step(s, ev))
  {
    hide Owned, BackedOff;
  }

  lemma StepKeepsTrying(s: State, ev: Event)
    requires Latest(s) && Trying(s) && Enabled(s, ev) && !GivesUp(ev)
    ensures Trying(Step(s, ev))
  {
  }

  lemma {:induction false} RunKeepsTrying(s: State, evs: seq<Event>)
    requires Inv(s) && Latest(s) && Trying(s) && IsRun(s, evs) && forall ev :: ev in evs ==> !GivesUp(ev)
    ensures Trying(Run(s, evs))
    decreases |evs|
  {
    hide Inv, Latest, Trying;
    if evs != [] {
      assert !GivesUp(evs[0]);
      StepKeepsInv(s, evs[0]);
      StepKeepsLatest(s, evs[0]);
      StepKeepsTrying(s, evs[0]);
      RunKeepsTrying(Step(s, evs[0]), evs[1..]);
    }
  }

  /** Unless the kernel answers with an error that is not worth another try, a connector that is
      wanted is always connecting, has handed its latest socket over, or has another attempt
      coming. */
  lemma NeverGivesUp(evs: seq<Event>)
    requires IsRun(Start(), evs) && forall ev :: ev in evs ==> !GivesUp(ev)
    ensures var s := Run(Start(), evs);
            s.connect ==> s.phase == Connecting || s.timers + s.starts > 0
                          || (s.phase == Connected && s.created > 0 && s.created - 1 in s.handed)
  {
    RunKeepsTrying(Start(), evs);
  }

  // ----- after stop -----

  predicate Revives(ev: Event) {
    ev.RequestStart? || ev.Restart?
  }

  /** After stop, and until start or restart, no socket is created or handed over and no retry
      is scheduled, though retries scheduled before still come to run. */
  lemma {:induction false} StopIsFinal(s: State, evs: seq<Event>)
    requires IsRun(s, evs) && !s.connect && forall ev :: ev in evs ==> !Revives(ev)
    ensures var s' := Run(s, evs);
            !s'.connect && s'.created == s.created && s'.handed == s.handed && s'.timers <= s.timers
            && s'.delays == s.delays && s'.delay == s.delay
    decreases |evs|
  {
    if evs != [] {
      assert !Revives(evs[0]);
      StopIsFinal(Step(s, evs[0]), evs[1..]);
    }
  }

  /** A connector that is connecting, or watches nothing, has no socket open once it has
      stopped: all those not handed over are closed. */
  lemma StopLetsGo(s: State)
    requires Inv(s) && (s.phase == Connecting || !s.watching)
    ensures Held(StopInLoop(s)) == multiset{}
    ensures forall k: Socket :: k < s.created ==> StopInLoop(s).closed[k] + StopInLoop(s).handed[k] == 1
  {
    StopKeepsInv(s);
    assert StopInLoop(s).created == s.created;
  }
}
