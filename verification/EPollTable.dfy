/** The epoll poller's registry and the kernel's interest list, which it must mirror.  A
    channel is marked added while the kernel knows it; disabling it takes it out of the
    kernel's list but not out of the registry. */
module EPollTable {
  import opened Channels

  type Fd = nat

  datatype Option<T> = None | Some(value: T)
  datatype Op = Insert | Modify | Delete

  datatype Mark = Mark(added: bool, events: Mask)

  datatype State = State(channels: map<Fd, Mark>, kernel: map<Fd, Mask>)

  function Start(): State {
    State(map[], map[])
  }

  // epoll_ctl: None stands for EEXIST and ENOENT.
  function Ctl(kernel: map<Fd, Mask>, op: Op, fd: Fd, events: Mask): Option<map<Fd, Mask>> {
    match op
    case Insert => if fd in kernel then None else Some(kernel[fd := events])
    case Modify => if fd in kernel then Some(kernel[fd := events]) else None
    case Delete => if fd in kernel then Some(kernel - {fd}) else None
  }

  datatype Event =
    | Add(fd: Fd, events: Mask)         // first update of a channel
    | Change(fd: Fd, events: Mask)      // later updates
    | Remove(fd: Fd)

  predicate Enabled(s: State, ev: Event) {
    match ev
    case Add(fd, _) => fd !in s.channels
    case Change(fd, _) => fd in s.channels
    case Remove(fd) => fd in s.channels && s.channels[fd].events == NONE_EVENT
  }

  // The call to epoll_ctl that an event makes, if any, and the new registry.
  function Call(s: State, ev: Event): Option<Op>
    requires Enabled(s, ev)
  {
    match ev
    case Add(_, _) => Some(Insert)
    case Change(fd, events) =>
      if !s.channels[fd].added then Some(Insert) else if events == NONE_EVENT then Some(Delete) else Some(Modify)
    case Remove(fd) => if s.channels[fd].added then Some(Delete) else None
  }

  function Registry(s: State, ev: Event): map<Fd, Mark>
    requires Enabled(s, ev)
  {
    match ev
    case Add(fd, events) => s.channels[fd := Mark(true, events)]
    case Change(fd, events) => s.channels[fd := Mark(!s.channels[fd].added || events != NONE_EVENT, events)]
    case Remove(fd) => s.channels - {fd}
  }

  function Wanted(ev: Event): Mask {
    if ev.Remove? then NONE_EVENT else ev.events
  }

  // None when the kernel refuses the call.
  function Step(s: State, ev: Event): Option<State>
    requires Enabled(s, ev)
  {
    match Call(s, ev)
    case None => Some(s.(channels := Registry(s, ev)))
    case Some(op) =>
      match Ctl(s.kernel, op, ev.fd, Wanted(ev))
      case None => None
      case Some(kernel) => Some(State(Registry(s, ev), kernel))
  }

  predicate IsRun(s: State, evs: seq<Event>)
    decreases |evs|
  {
    evs == [] || (Enabled(s, evs[0]) && (Step(s, evs[0]).Some? ==> IsRun(Step(s, evs[0]).value, evs[1..])))
  }

  function Run(s: State, evs: seq<Event>): Option<State>
    requires IsRun(s, evs)
    decreases |evs|
  {
    if evs == [] then Some(s)
    else match Step(s, evs[0])
      case None => None
      case Some(s') => Run(s', evs[1..])
  }

  /** The kernel watches exactly the channels marked added, each with its own mask, and a
      channel that wants events is marked added. */
  ghost predicate Inv(s: State) {
    && (forall fd :: fd in s.kernel <==> fd in s.channels && s.channels[fd].added)
    && (forall fd :: fd in s.kernel && fd in s.channels ==> s.kernel[fd] == s.channels[fd].events)
    && (forall fd :: fd in s.channels && !s.channels[fd].added ==> s.channels[fd].events == NONE_EVENT)
  }

  lemma StepKeepsInv(s: State, ev: Event)
    requires Inv(s) && Enabled(s, ev)
    ensures Step(s, ev).Some? && Inv(Step(s, ev).value)
  {
  }

  // What an update comes to: which call is made, and that it is not refused.
  lemma UpdateOutcome(s: State, ev: Event)
    requires Inv(s) && Enabled(s, ev) && !ev.Remove?
    ensures var op := if ev.fd !in s.channels || !s.channels[ev.fd].added then Insert
                      else if ev.events == NONE_EVENT then Delete else Modify;
            && Ctl(s.kernel, op, ev.fd, ev.events).Some?
            && Step(s, ev) == Some(State(s.channels[ev.fd := Mark(op != Delete, ev.events)],
                                         Ctl(s.kernel, op, ev.fd, ev.events).value))
  {
  }

  lemma RemoveOutcome(s: State, fd: Fd)
    requires Inv(s) && Enabled(s, Remove(fd))
    ensures s.channels[fd].added ==> Ctl(s.kernel, Delete, fd, NONE_EVENT).Some?
    ensures Step(s, Remove(fd)) ==
              Some(State(s.channels - {fd}, if s.channels[fd].added
                                            then Ctl(s.kernel, Delete, fd, NONE_EVENT).value else s.kernel))
  {
  }

  // What the channels ask for.
  ghost function Interest(evs: seq<Event>): map<Fd, Mask>
    decreases |evs|
  {
    if evs == [] then map[]
    else
      var before, ev := Interest(evs[..|evs| - 1]), evs[|evs| - 1];
      if ev.Remove? || ev.events == NONE_EVENT then before - {ev.fd} else before[ev.fd := ev.events]
  }

  // What the kernel reports on.
  ghost function Watched(s: State): map<Fd, Mask> {
    map fd | fd in s.kernel && s.kernel[fd] != NONE_EVENT :: s.kernel[fd]
  }

  lemma {:induction false} RunSnoc(s: State, evs: seq<Event>, ev: Event)
    requires IsRun(s, evs + [ev])
    ensures IsRun(s, evs)
    ensures Run(s, evs).Some? ==>
              Enabled(Run(s, evs).value, ev) && Run(s, evs + [ev]) == Step(Run(s, evs).value, ev)
    decreases |evs|
  {
    if evs == [] {
      assert (evs + [ev])[0] == ev && (evs + [ev])[1..] == [];
    } else {
      assert (evs + [ev])[0] == evs[0] && (evs + [ev])[1..] == evs[1..] + [ev];
      if Step(s, evs[0]).Some? {
        RunSnoc(Step(s, evs[0]).value, evs[1..], ev);
      }
    }
  }

  lemma KernelStep(s: State, ev: Event)
    requires Inv(s) && Enabled(s, ev)
    ensures Step(s, ev).Some?
    ensures var k, k' := s.kernel, Step(s, ev).value.kernel;
            && (forall fd :: fd != ev.fd ==> (fd in k' <==> fd in k) && (fd in k ==> k'[fd] == k[fd]))
            && (Wanted(ev) != NONE_EVENT ==> ev.fd in k' && k'[ev.fd] == Wanted(ev))
            && (Wanted(ev) == NONE_EVENT && ev.fd in k' ==> k'[ev.fd] == NONE_EVENT)
  {
  }

  lemma WatchedStep(s: State, ev: Event)
    requires Inv(s) && Enabled(s, ev)
    ensures Step(s, ev).Some?
    ensures Watched(Step(s, ev).value) ==
              if Wanted(ev) == NONE_EVENT then Watched(s) - {ev.fd} else Watched(s)[ev.fd := Wanted(ev)]
  {
    hide Step, Inv, Wanted;
    KernelStep(s, ev);
  }

  /** In every run epoll_ctl is never refused: nothing present is inserted and nothing absent
      modified or deleted.  And what the kernel watches is exactly what the channels last asked
      for. */
  lemma {:induction false} RunMirrors(evs: seq<Event>)
    requires IsRun(Start(), evs)
    ensures Run(Start(), evs).Some?
    ensures Inv(Run(Start(), evs).value)
    ensures Watched(Run(Start(), evs).value) == Interest(evs)
    decreases |evs|
  {
    if evs != [] {
      var before, ev := evs[..|evs| - 1], evs[|evs| - 1];
      assert before + [ev] == evs;
      RunSnoc(Start(), before, ev);
      RunMirrors(before);
      var s := Run(Start(), before).value;
      StepKeepsInv(s, ev);
      WatchedStep(s, ev);
    }
  }
}
