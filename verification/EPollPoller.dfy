/** The epoll poller.  A channel's index is a marker: new, known to the kernel, or taken out
    of the kernel's list while still registered here. */
module EPollPoller {
  import opened Channels
  import T = EPollTable

  const NEW := -1
  const ADDED := 1
  const DELETED := 2

  // The kernel hands back the channel that is filed under the descriptor.
  ghost predicate HandsBack(kernel: map<nat, Mask>, data: map<nat, Channel>, channels: map<nat, Channel>) {
    forall fd :: fd in kernel && fd in channels ==> fd in data && data[fd] == channels[fd]
  }

  function Pointers(data: map<nat, Channel>, op: T.Op, c: Channel): map<nat, Channel> {
    if op == T.Delete then data - {c.fd} else data[c.fd := c]
  }

  lemma HandsBackFiled(kernel: map<nat, Mask>, data: map<nat, Channel>, channels: map<nat, Channel>,
                       op: T.Op, c: Channel, m: Mask)
    requires HandsBack(kernel, data, channels) && T.Ctl(kernel, op, c.fd, m).Some?
    ensures HandsBack(T.Ctl(kernel, op, c.fd, m).value, Pointers(data, op, c), channels[c.fd := c])
  {
  }

  lemma HandsBackErased(kernel: map<nat, Mask>, data: map<nat, Channel>, channels: map<nat, Channel>, c: Channel)
    requires HandsBack(kernel, data, channels)
    ensures HandsBack(kernel, data, channels - {c.fd})
    ensures var r := T.Ctl(kernel, T.Delete, c.fd, NONE_EVENT);
            r.Some? ==> HandsBack(r.value, Pointers(data, T.Delete, c), channels - {c.fd})
  {
  }

  class Poller {
    var channels: map<nat, Channel>
    var kernel: map<nat, Mask>          // what the kernel keeps for a descriptor: the mask
    var data: map<nat, Channel>         // and the pointer it hands back with events

    constructor ()
      ensures Valid() && channels == map[] && View() == T.Start()
    {
      channels := map[];
      kernel := map[];
      data := map[];
    }

    // Each channel is filed under its own descriptor.
    ghost predicate Filed()
      reads this`channels, channels.Values
    {
      forall fd :: fd in channels ==>
        channels[fd].fd == fd && (channels[fd].index == ADDED || channels[fd].index == DELETED)
    }

    // The registry as it was when the mask of `c` was still `was`.
    ghost function Marks(c: Channel?, was: Mask): map<nat, T.Mark>
      reads this`channels, channels.Values
    {
      map fd | fd in channels ::
        T.Mark(channels[fd].index == ADDED, if channels[fd] == c then was else channels[fd].events)
    }

    ghost function View(): T.State
      reads this, channels.Values
    {
      T.State(Marks(null, NONE_EVENT), kernel)
    }

    /** The kernel watches exactly the channels marked added, each with its own mask. */
    ghost predicate Valid()
      reads this, channels.Values
    {
      Filed() && HandsBack(kernel, data, channels) && T.Inv(View())
    }

    lemma MarkOf(c: Channel, was: Mask)
      requires Filed() && c.fd in channels && channels[c.fd] == c
      ensures c.fd in Marks(c, was) && Marks(c, was)[c.fd] == T.Mark(c.index == ADDED, was)
      ensures c.fd in Marks(null, was) && Marks(null, was)[c.fd] == T.Mark(c.index == ADDED, c.events)
      ensures c.index == ADDED || c.index == DELETED
    {
    }

    lemma Unmarked(c: Channel, was: Mask)
      ensures c.fd in Marks(c, was) <==> c.fd in channels
    {
    }

    // Valid before the mask of `c` was changed from `was`.
    ghost predicate WasValid(c: Channel, was: Mask)
      reads this, channels.Values
    {
      Filed() && HandsBack(kernel, data, channels) && T.Inv(T.State(Marks(c, was), kernel))
    }

    /** epoll_ctl, which is only called where it cannot be refused. */
    method Update(op: T.Op, c: Channel)
      requires T.Ctl(kernel, op, c.fd, c.events).Some?
      modifies this`kernel, this`data
      ensures kernel == T.Ctl(old(kernel), op, c.fd, c.events).value
      ensures data == Pointers(old(data), op, c)
    {
      if op == T.Delete {
        kernel, data := kernel - {c.fd}, data - {c.fd};
      } else {
        kernel, data := kernel[c.fd := c.events], data[c.fd := c];
      }
    }

    method File(c: Channel, index: int, ghost was: Mask)
      requires Filed() && (index == ADDED || index == DELETED)
      requires c.fd in channels ==> channels[c.fd] == c
      modifies this`channels, c`index
      ensures channels == old(channels)[c.fd := c] && c.index == index && Filed()
      ensures Marks(null, NONE_EVENT) == old(Marks(c, was))[c.fd := T.Mark(index == ADDED, c.events)]
    {
      channels := channels[c.fd := c];
      c.index := index;
    }

    // A channel the kernel does not know.
    method Register(c: Channel, ghost was: Mask)
      requires WasValid(c, was)
      requires c.index == NEW ==> c.fd !in channels
      requires c.index != NEW ==> c.fd in channels && channels[c.fd] == c && c.index == DELETED
      modifies this, c`index
      ensures channels == old(channels)[c.fd := c] && Valid()
      ensures var before := T.State(old(Marks(c, was)), old(kernel));
              var ev := if old(c.index) == NEW then T.Add(c.fd, c.events) else T.Change(c.fd, c.events);
              T.Enabled(before, ev) && T.Step(before, ev) == T.Some(View())
    {
      ghost var before := T.State(Marks(c, was), kernel);
      ghost var ev := if c.index == NEW then T.Add(c.fd, c.events) else T.Change(c.fd, c.events);
      if c.fd in channels {
        MarkOf(c, was);
      }
      Unmarked(c, was);
      hide T.Inv, T.Step, T.Ctl, Marks, Filed, HandsBack, Pointers;
      T.StepKeepsInv(before, ev);
      T.UpdateOutcome(before, ev);
      HandsBackFiled(kernel, data, channels, T.Insert, c, c.events);
      File(c, ADDED, was);
      Update(T.Insert, c);
    }

    // A channel the kernel knows.
    method Rewatch(c: Channel, ghost was: Mask)
      requires WasValid(c, was)
      requires c.fd in channels && channels[c.fd] == c && c.index == ADDED
      modifies this, c`index
      ensures channels == old(channels)[c.fd := c] && Valid()
      ensures var before := T.State(old(Marks(c, was)), old(kernel));
              T.Enabled(before, T.Change(c.fd, c.events))
              && T.Step(before, T.Change(c.fd, c.events)) == T.Some(View())
    {
      ghost var before := T.State(Marks(c, was), kernel);
      MarkOf(c, was);
      hide T.Inv, T.Step, T.Ctl, Marks, Filed, HandsBack, Pointers;
      T.StepKeepsInv(before, T.Change(c.fd, c.events));
      T.UpdateOutcome(before, T.Change(c.fd, c.events));
      if c.events == NONE_EVENT {
        HandsBackFiled(kernel, data, channels, T.Delete, c, c.events);
        Update(T.Delete, c);
        assert Marks(c, was) == before.channels;
        File(c, DELETED, was);
      } else {
        HandsBackFiled(kernel, data, channels, T.Modify, c, c.events);
        Update(T.Modify, c);
        assert Marks(c, was) == before.channels;
        File(c, ADDED, was);
      }
    }

    /** Register a new channel, or a disabled one again; change or end the kernel's watch on
        one it knows. */
    method UpdateChannel(c: Channel, ghost was: Mask)
      requires WasValid(c, was)
      requires c.index == NEW ==> c.fd !in channels
      requires c.index != NEW ==> c.fd in channels && channels[c.fd] == c
      modifies this, c`index
      ensures channels == old(channels)[c.fd := c] && Valid()
      ensures var before := T.State(old(Marks(c, was)), old(kernel));
              var ev := if old(c.index) == NEW then T.Add(c.fd, c.events) else T.Change(c.fd, c.events);
              T.Enabled(before, ev) && T.Step(before, ev) == T.Some(View())
    {
      if c.fd in channels {
        MarkOf(c, was);
      }
      hide T.Inv, T.Step, Marks, Filed, HandsBack;
      if c.index == NEW || c.index == DELETED {
        Register(c, was);
      } else {
        Rewatch(c, was);
      }
    }

    /** Set a channel's mask and tell the poller, as the channel's enable and disable
        operations do. */
    method SetEvents(c: Channel, events: Mask)
      requires Valid()
      requires c.index == NEW ==> c.fd !in channels
      requires c.index != NEW ==> c.fd in channels && channels[c.fd] == c
      modifies this, c
      ensures c.events == events && channels == old(channels)[c.fd := c] && Valid()
      ensures var ev := if old(c.index) == NEW then T.Add(c.fd, events) else T.Change(c.fd, events);
              T.Enabled(old(View()), ev) && T.Step(old(View()), ev) == T.Some(View())
    {
      hide T.Inv, T.Step;
      ghost var before, was := View(), c.events;
      c.events := events;
      assert Marks(c, was) == before.channels;
      UpdateChannel(c, was);
    }

    method Erase(c: Channel)
      requires Filed() && c.fd in channels && channels[c.fd] == c
      modifies this`channels
      ensures channels == old(channels) - {c.fd} && c !in channels.Values && Filed()
      ensures Marks(null, NONE_EVENT) == old(Marks(null, NONE_EVENT)) - {c.fd}
    {
      channels := channels - {c.fd};
    }

    method Forget(c: Channel)
      requires Valid() && c.fd in channels && channels[c.fd] == c && c.events == NONE_EVENT
      modifies this
      ensures channels == old(channels) - {c.fd} && c !in channels.Values && Valid()
      ensures T.Enabled(old(View()), T.Remove(c.fd))
      ensures T.Step(old(View()), T.Remove(c.fd)) == T.Some(View())
    {
      ghost var before := View();
      MarkOf(c, NONE_EVENT);
      HandsBackErased(kernel, data, channels, c);
      hide T.Inv, T.Step, T.Ctl, Marks, Filed, HandsBack, Pointers;
      T.StepKeepsInv(before, T.Remove(c.fd));
      T.RemoveOutcome(before, c.fd);
      Erase(c);
      if c.index == ADDED {
        Update(T.Delete, c);
      }
    }

    /** Forget a channel that wants no events; it can be registered afresh afterwards. */
    method RemoveChannel(c: Channel)
      requires Valid() && c.fd in channels && channels[c.fd] == c && c.events == NONE_EVENT
      modifies this, c`index
      ensures channels == old(channels) - {c.fd} && c.index == NEW && Valid()
      ensures T.Enabled(old(View()), T.Remove(c.fd))
      ensures T.Step(old(View()), T.Remove(c.fd)) == T.Some(View())
    {
      hide *;
      Forget(c);
      c.index := NEW;
    }
  }
}
