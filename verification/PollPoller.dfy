/** The poll(2) poller over channels that carry their own position in its vector. */
module PollPoller {
  import opened Channels
  import T = PollTable

  class Poller {
    var pollfds: seq<T.Entry>
    var channels: map<nat, Channel>

    constructor ()
      ensures Valid() && channels == map[] && View() == T.Start()
    {
      pollfds := [];
      channels := map[];
    }

    // Each channel is filed under its own descriptor and has a position.
    ghost predicate Filed()
      reads this, channels.Values
    {
      forall fd :: fd in channels ==> channels[fd].fd == fd && channels[fd].index >= 0
    }

    ghost function View(): T.State
      requires Filed()
      reads this, channels.Values
    {
      T.State(pollfds, map fd | fd in channels :: channels[fd].index)
    }

    // The entry of every channel, except that of `c`, has the channel's mask.
    ghost predicate ValidBut(c: Channel?)
      reads this, channels.Values
    {
      && Filed()
      && T.Inv(View())
      && (forall fd :: fd in channels && channels[fd] != c ==>
            fd in T.Entries(View()) && T.Entries(View())[fd].events == channels[fd].events)
    }

    ghost predicate Valid()
      reads this, channels.Values
    {
      ValidBut(null)
    }

    // The assertions of updateChannel about the channel and the map.
    predicate MayUpdate(c: Channel)
      reads this, c
    {
      if c.index < 0 then c.fd !in channels else c.fd in channels && channels[c.fd] == c
    }

    /** A channel that has been entered once and is not registered any more can never be updated
        again, whatever else is. */
    lemma RemovedStaysOut(c: Channel)
      requires c.index >= 0 && c !in channels.Values
      ensures !MayUpdate(c)
    {
    }

    method Enter(c: Channel)
      requires ValidBut(c) && c.index < 0 && c.fd !in channels
      modifies this, c`index
      ensures channels == old(channels)[c.fd := c]
      ensures Valid()
      ensures T.Enabled(old(View()), T.Add(c.fd, c.events))
      ensures View() == T.Step(old(View()), T.Add(c.fd, c.events))
    {
      hide T.Inv, T.Entries;
      ghost var before := View();
      pollfds := pollfds + [T.Entry(c.fd, c.events)];
      c.index := |pollfds| - 1;
      channels := channels[c.fd := c];
      T.AddRefines(before, c.fd, c.events);
      assert View().index == before.index[c.fd := |before.pollfds|];
      assert View() == T.Step(before, T.Add(c.fd, c.events));
      hide T.Step, View;
    }

    method Note(c: Channel)
      requires ValidBut(c) && c.fd in channels && channels[c.fd] == c
      modifies this`pollfds
      ensures Valid()
      ensures T.Enabled(old(View()), T.Change(c.fd, c.events))
      ensures View() == T.Step(old(View()), T.Change(c.fd, c.events))
    {
      ghost var before := View();
      T.Position(before, c.fd);
      hide T.Inv, T.Entries;
      T.ChangeRefines(before, c.fd, c.events);
      var pfd := pollfds[c.index];
      assert pfd.fd == c.fd || pfd.fd == -1 - c.fd;
      pfd := pfd.(events := c.events);
      if c.events == NONE_EVENT {
        pfd := pfd.(fd := -1 - c.fd);
      }
      pollfds := pollfds[c.index := pfd];
      assert View() == T.Step(before, T.Change(c.fd, c.events));
    }

    /** Enter a new channel at the end, or note a known channel's new mask in its entry. */
    method UpdateChannel(c: Channel)
      requires ValidBut(c)
      requires MayUpdate(c)
      modifies this, c`index
      ensures channels == old(channels)[c.fd := c] && (old(c.index) >= 0 ==> c.index == old(c.index))
      ensures Valid()
      ensures var ev := if old(c.index) < 0 then T.Add(c.fd, c.events) else T.Change(c.fd, c.events);
              T.Enabled(old(View()), ev) && View() == T.Step(old(View()), ev)
    {
      hide T.Inv, T.Entries, T.Step;
      if c.index < 0 {
        Enter(c);
      } else {
        Note(c);
      }
    }

    /** Set a channel's mask and tell the poller: enableReading, enableWriting, disableWriting
        and disableAll are this with the mask they compute. */
    method SetEvents(c: Channel, events: Mask)
      requires Valid()
      requires MayUpdate(c)
      modifies this, c
      ensures c.events == events && channels == old(channels)[c.fd := c]
      ensures Valid()
      ensures var ev := if old(c.index) < 0 then T.Add(c.fd, events) else T.Change(c.fd, events);
              T.Enabled(old(View()), ev) && View() == T.Step(old(View()), ev)
    {
      hide T.Inv, T.Entries, T.Step;
      ghost var before := View();
      c.events := events;
      assert View() == before;
      UpdateChannel(c);
    }

    // The work of RemoveChannel on the two indexes.
    method SwapOut(c: Channel)
      requires Filed() && c.fd in channels && channels[c.fd] == c
      requires T.Inv(View()) && T.Enabled(View(), T.Remove(c.fd))
      modifies this, channels.Values
      ensures channels == old(channels) - {c.fd} && c.index == old(c.index)
      ensures forall ch: Channel :: ch in old(channels.Values) ==> ch.events == old(ch.events)
      ensures Filed() && View() == T.Step(old(View()), T.Remove(c.fd))
    {
      ghost var before := View();
      T.Position(before, c.fd);
      hide T.Inv, T.Entries;
      var idx := c.index;
      channels := channels - {c.fd};
      if idx != |pollfds| - 1 {
        var atEnd := pollfds[|pollfds| - 1].fd;
        pollfds := pollfds[idx := pollfds[|pollfds| - 1]];
        if atEnd < 0 {
          atEnd := -atEnd - 1;
        }
        channels[atEnd].index := idx;
      }
      pollfds := pollfds[..|pollfds| - 1];
      assert View().index == T.Step(before, T.Remove(c.fd)).index;
    }

    /** Take a disabled channel out, by moving the last entry into its place.  The channel
        itself keeps its old index, so it cannot be entered again. */
    method RemoveChannel(c: Channel)
      requires Valid() && c.fd in channels && channels[c.fd] == c
      requires c.events == NONE_EVENT && T.Parked(View(), c.fd)
      modifies this, channels.Values
      ensures channels == old(channels) - {c.fd} && c.index == old(c.index) >= 0 && !MayUpdate(c)
      ensures forall ch: Channel :: ch in old(channels.Values) ==> ch.events == old(ch.events)
      ensures Valid()
      ensures T.Enabled(old(View()), T.Remove(c.fd))
      ensures View() == T.Step(old(View()), T.Remove(c.fd))
    {
      ghost var before := View();
      T.Position(before, c.fd);
      assert T.Entries(before)[c.fd].events == c.events;
      hide T.Inv, T.Entries, T.Step;
      T.RemoveRefines(before, c.fd);
      SwapOut(c);
    }
  }
}
