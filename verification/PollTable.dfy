/** The two indexes of the poll(2) poller: a vector of entries, and for each registered
    descriptor the position of its entry.  An entry is parked, so that poll ignores it, by
    storing -fd-1 in place of fd. */
module PollTable {
  import opened Channels

  type Fd = nat

  datatype Entry = Entry(fd: int, events: Mask)

  datatype State = State(pollfds: seq<Entry>, index: map<Fd, nat>)

  function Start(): State {
    State([], map[])
  }

  datatype Event =
    | Add(fd: Fd, events: Mask)         // first update of a channel
    | Change(fd: Fd, events: Mask)      // later updates
    | Remove(fd: Fd)

  function Owner(e: Entry): Fd {
    if e.fd < 0 then -e.fd - 1 else e.fd
  }

  predicate Registered(s: State, fd: Fd) {
    fd in s.index && s.index[fd] < |s.pollfds|
  }

  predicate Parked(s: State, fd: Fd) {
    Registered(s, fd) && s.pollfds[s.index[fd]].fd < 0
  }

  predicate Enabled(s: State, ev: Event) {
    match ev
    case Add(fd, _) => fd !in s.index
    case Change(fd, _) => Registered(s, fd)
    case Remove(fd) => Parked(s, fd) && s.pollfds[s.index[fd]].events == NONE_EVENT
  }

  function Changed(e: Entry, fd: Fd, events: Mask): Entry {
    Entry(if events == NONE_EVENT then -1 - fd else e.fd, events)
  }

  function Step(s: State, ev: Event): State
    requires Enabled(s, ev)
  {
    match ev
    case Add(fd, events) => State(s.pollfds + [Entry(fd, events)], s.index[fd := |s.pollfds|])
    case Change(fd, events) =>
      s.(pollfds := s.pollfds[s.index[fd] := Changed(s.pollfds[s.index[fd]], fd, events)])
    case Remove(fd) =>
      var idx, last := s.index[fd], |s.pollfds| - 1;
      if idx == last then State(s.pollfds[..last], s.index - {fd})
      else State(s.pollfds[idx := s.pollfds[last]][..last], (s.index - {fd})[Owner(s.pollfds[last]) := idx])
  }

  predicate IsRun(s: State, evs: seq<Event>)
    decreases |evs|
  {
    evs == [] || (Enabled(s, evs[0]) && IsRun(Step(s, evs[0]), evs[1..]))
  }

  function Run(s: State, evs: seq<Event>): State
    requires IsRun(s, evs)
    decreases |evs|
  {
    if evs == [] then s else Run(Step(s, evs[0]), evs[1..])
  }

  // ----- the bijection -----

  /** Each registered descriptor has its own entry, and each entry belongs to the descriptor
      whose index names it. */
  ghost predicate Inv(s: State) {
    && (forall fd :: fd in s.index ==> s.index[fd] < |s.pollfds| && Owner(s.pollfds[s.index[fd]]) == fd)
    && (forall i :: 0 <= i < |s.pollfds| ==>
          Owner(s.pollfds[i]) in s.index && s.index[Owner(s.pollfds[i])] == i)
  }

  // What the table means: the entry of each descriptor, wherever it is stored.
  ghost function Entries(s: State): map<Fd, Entry>
    requires Inv(s)
  {
    map fd | fd in s.index :: s.pollfds[s.index[fd]]
  }

  // The stored position and the entry there belong together.
  lemma Position(s: State, fd: Fd)
    requires Inv(s) && fd in s.index
    ensures Registered(s, fd) && fd in Entries(s) && Entries(s)[fd] == s.pollfds[s.index[fd]]
    ensures Owner(s.pollfds[s.index[fd]]) == fd
    ensures var last := Owner(s.pollfds[|s.pollfds| - 1]); last in s.index && s.index[last] == |s.pollfds| - 1
  {
  }

  ghost function Meaning(m: map<Fd, Entry>, ev: Event): map<Fd, Entry> {
    match ev
    case Add(fd, events) => m[fd := Entry(fd, events)]
    case Change(fd, events) => if fd in m then m[fd := Changed(m[fd], fd, events)] else m
    case Remove(fd) => m - {fd}
  }

  lemma AddRefines(s: State, fd: Fd, events: Mask)
    requires Inv(s) && Enabled(s, Add(fd, events))
    ensures Inv(Step(s, Add(fd, events)))
    ensures Entries(Step(s, Add(fd, events))) == Entries(s)[fd := Entry(fd, events)]
  {
    assert forall i :: 0 <= i < |s.pollfds| ==> Step(s, Add(fd, events)).pollfds[i] == s.pollfds[i];
  }

  lemma ChangeRefines(s: State, fd: Fd, events: Mask)
    requires Inv(s) && Enabled(s, Change(fd, events))
    ensures Inv(Step(s, Change(fd, events)))
    ensures fd in Entries(s)
    ensures Entries(Step(s, Change(fd, events))) == Entries(s)[fd := Changed(Entries(s)[fd], fd, events)]
  {
  }

  lemma RemoveKeepsInv(s: State, fd: Fd)
    requires Inv(s) && Enabled(s, Remove(fd))
    ensures Inv(Step(s, Remove(fd)))
  {
    var s' := Step(s, Remove(fd));
    var idx, last := s.index[fd], |s.pollfds| - 1;
    var moved := Owner(s.pollfds[last]);
    assert s.index[moved] == last;
    forall i | 0 <= i < |s'.pollfds|
      ensures Owner(s'.pollfds[i]) in s'.index && s'.index[Owner(s'.pollfds[i])] == i
    {
      assert s'.pollfds[i] == if i == idx then s.pollfds[last] else s.pollfds[i];
      assert s.index[Owner(s.pollfds[i])] == i;
    }
    forall g | g in s'.index ensures s'.index[g] < |s'.pollfds| && Owner(s'.pollfds[s'.index[g]]) == g {
      assert g in s.index && g != fd;
      if g != moved {
        assert s'.index[g] == s.index[g] != idx;
        assert s'.pollfds[s.index[g]] == s.pollfds[s.index[g]];
      }
    }
  }

  lemma RemoveRefines(s: State, fd: Fd)
    requires Inv(s) && Enabled(s, Remove(fd))
    ensures Inv(Step(s, Remove(fd)))
    ensures Entries(Step(s, Remove(fd))) == Entries(s) - {fd}
  {
    RemoveKeepsInv(s, fd);
    var s' := Step(s, Remove(fd));
    var last := |s.pollfds| - 1;
    var moved := Owner(s.pollfds[last]);
    assert s.index[moved] == last;
    assert s'.index.Keys == s.index.Keys - {fd};
    forall g | g in s'.index ensures s'.pollfds[s'.index[g]] == s.pollfds[s.index[g]] {
      if g != moved {
        assert s'.index[g] == s.index[g];
        assert s.index[g] != s.index[fd];
      }
    }
  }

  /** One step does to the table what it should do to the map of entries: in particular
      removal by swapping with the last entry loses no other entry and moves none to another
      descriptor. */
  lemma StepRefines(s: State, ev: Event)
    requires Inv(s) && Enabled(s, ev)
    ensures Inv(Step(s, ev))
    ensures Entries(Step(s, ev)) == Meaning(Entries(s), ev)
  {
    hide Step, Entries, Inv, Changed;
    match ev
    case Add(fd, events) => AddRefines(s, fd, events);
    case Change(fd, events) => ChangeRefines(s, fd, events);
    case Remove(fd) => RemoveRefines(s, fd);
  }

  ghost function Meanings(m: map<Fd, Entry>, evs: seq<Event>): map<Fd, Entry>
    decreases |evs|
  {
    if evs == [] then m else Meanings(Meaning(m, evs[0]), evs[1..])
  }

  /** In every run the vector and the indexes stay in bijection, and the table means the map
      that the same events build. */
  lemma {:induction false} RunRefines(s: State, evs: seq<Event>)
    requires Inv(s) && IsRun(s, evs)
    ensures Inv(Run(s, evs))
    ensures Entries(Run(s, evs)) == Meanings(Entries(s), evs)
    decreases |evs|
  {
    if evs != [] {
      StepRefines(s, evs[0]);
      RunRefines(Step(s, evs[0]), evs[1..]);
    }
  }

  // ----- which entries poll ignores -----

  // Since it was last added, the descriptor has been changed to an empty mask.
  ghost predicate Disabled(evs: seq<Event>, fd: Fd) {
    exists i :: 0 <= i < |evs| && evs[i] == Change(fd, NONE_EVENT) && Remove(fd) !in evs[i..]
  }

  lemma ParkedStep(s: State, ev: Event, fd: Fd)
    requires Inv(s) && Enabled(s, ev)
    ensures Parked(Step(s, ev), fd) <==> ev == Change(fd, NONE_EVENT) || (Parked(s, fd) && ev != Remove(fd))
  {
    var s' := Step(s, ev);
    StepRefines(s, ev);
    assert fd in s'.index <==> fd in Entries(s');
    assert fd in s.index <==> fd in Entries(s);
    assert Parked(s', fd) <==> fd in Entries(s') && Entries(s')[fd].fd < 0;
    assert Parked(s, fd) <==> fd in Entries(s) && Entries(s)[fd].fd < 0;
    hide Step, Inv, Parked, Entries;
  }

  lemma DisabledStep(evs: seq<Event>, fd: Fd)
    requires evs != []
    ensures Disabled(evs, fd) <==>
              Disabled(evs[1..], fd) || (evs[0] == Change(fd, NONE_EVENT) && Remove(fd) !in evs[1..])
  {
    if i :| 0 <= i < |evs| && evs[i] == Change(fd, NONE_EVENT) && Remove(fd) !in evs[i..] {
      assert i > 0 ==> evs[1..][i - 1] == evs[i] && evs[1..][i - 1..] == evs[i..];
      assert i == 0 ==> evs[i..] == [evs[0]] + evs[1..];
    }
    if j :| 0 <= j < |evs[1..]| && evs[1..][j] == Change(fd, NONE_EVENT) && Remove(fd) !in evs[1..][j..] {
      assert evs[j + 1] == evs[1..][j] && evs[j + 1..] == evs[1..][j..];
    }
    if evs[0] == Change(fd, NONE_EVENT) && Remove(fd) !in evs[1..] {
      assert evs[0..] == [evs[0]] + evs[1..];
    }
  }

  lemma {:induction false} ParkedRun(s: State, evs: seq<Event>, fd: Fd)
    requires Inv(s) && IsRun(s, evs)
    ensures Parked(Run(s, evs), fd) <==> Disabled(evs, fd) || (Parked(s, fd) && Remove(fd) !in evs)
    decreases |evs|
  {
    if evs != [] {
      StepRefines(s, evs[0]);
      ParkedStep(s, evs[0], fd);
      DisabledStep(evs, fd);
      ParkedRun(Step(s, evs[0]), evs[1..], fd);
      assert Remove(fd) in evs <==> evs[0] == Remove(fd) || Remove(fd) in evs[1..];
      hide Parked, Inv, Disabled;
    }
  }

  // The mask set last, if any: what the channel's own mask is, since every change of it is an event.
  function LastMask(evs: seq<Event>, fd: Fd, before: Mask): Mask {
    if evs == [] then before
    else LastMask(evs[1..], fd, if evs[0].fd == fd && !evs[0].Remove? then evs[0].events else before)
  }

  lemma MaskStep(s: State, ev: Event, fd: Fd, before: Mask)
    requires Inv(s) && Enabled(s, ev) && (fd in Entries(s) ==> Entries(s)[fd].events == before)
    ensures Inv(Step(s, ev)) && (fd in Entries(Step(s, ev)) ==>
              Entries(Step(s, ev))[fd].events == if ev.fd == fd && !ev.Remove? then ev.events else before)
  {
    StepRefines(s, ev);
    hide Step, Inv, Entries;
  }

  lemma {:induction false} MaskRun(s: State, evs: seq<Event>, fd: Fd, before: Mask)
    requires Inv(s) && IsRun(s, evs) && (fd in Entries(s) ==> Entries(s)[fd].events == before)
    ensures Inv(Run(s, evs))
    ensures fd in Entries(Run(s, evs)) ==> Entries(Run(s, evs))[fd].events == LastMask(evs, fd, before)
    decreases |evs|
  {
    hide Inv, Entries;
    if evs != [] {
      MaskStep(s, evs[0], fd, before);
      MaskRun(Step(s, evs[0]), evs[1..], fd, if evs[0].fd == fd && !evs[0].Remove? then evs[0].events else before);
    }
  }

  // The assertion about the entry in removeChannel, for a channel with the given mask.
  predicate RemoveAssertion(s: State, fd: Fd, events: Mask) {
    && Registered(s, fd)
    && s.pollfds[s.index[fd]].fd == -1 - fd && s.pollfds[s.index[fd]].events == events
  }

  /** A descriptor is ignored exactly when it has been disabled at some time since it was added,
      whatever its mask is now: setting a mask again does not bring it back.  That is also exactly
      when the assertion about the entry in removeChannel holds of the channel. */
  lemma IgnoredExactlyOnceDisabled(evs: seq<Event>, fd: Fd)
    requires IsRun(Start(), evs)
    ensures Parked(Run(Start(), evs), fd) <==> Disabled(evs, fd)
    ensures RemoveAssertion(Run(Start(), evs), fd, LastMask(evs, fd, NONE_EVENT)) <==> Disabled(evs, fd)
  {
    ParkedRun(Start(), evs, fd);
    MaskRun(Start(), evs, fd, NONE_EVENT);
    var s := Run(Start(), evs);
    if Registered(s, fd) {
      Position(s, fd);
    }
    hide Inv, Entries, Disabled;
  }

  /** So a channel enabled again after having been disabled is not watched. */
  lemma EnabledButIgnored(fd: Fd, events: Mask)
    requires events != NONE_EVENT
    ensures var evs := [Add(fd, events), Change(fd, NONE_EVENT), Change(fd, events)];
            IsRun(Start(), evs) && Parked(Run(Start(), evs), fd)
            && Run(Start(), evs).pollfds == [Entry(-1 - fd, events)]
  {
    var evs := [Add(fd, events), Change(fd, NONE_EVENT), Change(fd, events)];
    var s1 := Step(Start(), evs[0]);
    var s2 := Step(s1, evs[1]);
    assert evs[1..] == [Change(fd, NONE_EVENT), Change(fd, events)] && evs[1..][1..] == [Change(fd, events)];
    assert IsRun(s2, [Change(fd, events)]) && IsRun(s1, evs[1..]);
    assert Run(s2, [Change(fd, events)]) == Step(s2, Change(fd, events));
  }

  /** And a channel first seen with an empty mask cannot be removed before it is disabled again. */
  lemma AddedEmptyCannotBeRemoved(fd: Fd)
    ensures IsRun(Start(), [Add(fd, NONE_EVENT)]) && Registered(Run(Start(), [Add(fd, NONE_EVENT)]), fd)
    ensures !Enabled(Run(Start(), [Add(fd, NONE_EVENT)]), Remove(fd))
  {
    assert Run(Start(), [Add(fd, NONE_EVENT)]) == Step(Start(), Add(fd, NONE_EVENT));
  }
}
