/** The connector's methods.  The socket calls and the loop's queues are parameters and
    fields: a kernel answer is passed in, and closing, handing over, queueing and scheduling
    are recorded. */
module Connector {
  import opened ConnectorSystem

  class Connector {
    var connect: bool
    var phase: Phase
    var channel: Option<Socket>
    var watching: bool
    var retryDelayMs: nat
    var resets: nat
    var timers: nat
    var starts: nat
    var stops: nat
    var created: nat
    var closed: multiset<Socket>
    var handed: multiset<Socket>
    var delays: seq<nat>

    ghost function View(): State
      reads this
    {
      State(connect, phase, channel, watching, retryDelayMs, resets, timers, starts, stops, created, closed, handed, delays)
    }

    constructor ()
      ensures View() == ConnectorSystem.Start() && Inv(View())
    {
      connect, phase, channel, watching := false, Disconnected, None, false;
      retryDelayMs := INIT_RETRY_DELAY_MS;
      resets, timers, starts, stops, created := 0, 0, 0, 0, 0;
      closed, handed, delays := multiset{}, multiset{}, [];
      new;
      StartIsInv();
    }

    method CloseSocket(sock: Socket)
      modifies this`closed
      ensures View() == Close(old(View()), sock)
    {
      closed := closed + multiset{sock};
    }

    method Reschedule(sock: Socket)
      modifies this
      ensures View() == Retry(old(View()), sock)
    {
      CloseSocket(sock);
      phase := Disconnected;
      if connect {
        timers, delays := timers + 1, delays + [retryDelayMs];
        retryDelayMs := Min(retryDelayMs * 2, MAX_RETRY_DELAY_MS);
      }
    }

    /** Closes a failed socket, the last place it can be in, and, if still wanted, schedules the
        next attempt with the delay due for it. */
    method RetryLater(sock: Socket)
      requires InHand(Held(View()), closed, handed, created, sock)
      requires Channelled(Disconnected, channel, watching, resets) && BackedOff(retryDelayMs, delays)
      modifies this
      ensures View() == Retry(old(View()), sock) && Inv(View())
      ensures closed[sock] == 1 && connect == old(connect)
      ensures connect ==> timers == old(timers) + 1 && delays == old(delays) + [Backoff(|old(delays)|)]
      ensures !connect ==> timers == old(timers) && delays == old(delays)
    {
      ghost var before := View();
      RetryKeepsInv(before, sock);
      RetryOutcome(before, sock);
      hide Inv, Retry, InHand, Channelled, BackedOff, Backoff, Held;
      Reschedule(sock);
      assert View() == Retry(before, sock);
    }

    method WatchSocket(sock: Socket)
      requires channel == None
      modifies this
      ensures View() == Watch(old(View()), sock)
    {
      phase := Connecting;
      channel, watching := Some(sock), true;
    }

    method Attempt(answer: Answer)
      requires answer == InProgress ==> channel == None
      modifies this
      ensures View() == Connect(old(View()), answer)
    {
      var sock := created;
      created := created + 1;
      match answer
      case InProgress => WatchSocket(sock);
      case Refused => Reschedule(sock);
      case Fatal => CloseSocket(sock);
    }

    /** Creates a socket, which is then watched, or closed with or without a retry: it is in one
        place, and all others are where they were. */
    method ConnectSocket(answer: Answer)
      requires Inv(View()) && phase == Disconnected && (answer == InProgress ==> channel == None)
      modifies this
      ensures View() == Connect(old(View()), answer) && Inv(View())
      ensures if answer == InProgress then Held(View()) == multiset{old(created)} && closed == old(closed)
              else Held(View()) == old(Held(View())) && closed == old(closed) + multiset{old(created)}
    {
      ghost var before := View();
      ConnectKeepsInv(before, answer);
      ConnectPlaces(before, answer);
      hide Inv, Held, Connect;
      Attempt(answer);
      assert View() == Connect(before, answer);
    }

    method RunStartInLoop(answer: Answer)
      requires Inv(View()) && phase == Disconnected && MayConnect(View(), answer)
      modifies this
      ensures View() == StartInLoop(old(View()), answer) && Inv(View())
    {
      hide Inv, Connect;
      if connect {
        ConnectSocket(answer);
      }
    }

    /** start, and what it queues. */
    method RequestStarting()
      requires Inv(View())
      modifies this
      ensures View() == Step(old(View()), RequestStart) && Inv(View())
    {
      StepKeepsInv(View(), RequestStart);
      hide Inv;
      connect, starts := true, starts + 1;
    }

    method RunStarting(answer: Answer)
      requires Inv(View()) && Enabled(View(), RunStart(answer))
      modifies this
      ensures View() == Step(old(View()), RunStart(answer)) && Inv(View())
    {
      hide Owned, Channelled, BackedOff, Connect, StartInLoop;
      starts := starts - 1;
      RunStartInLoop(answer);
    }

    method RunTimer(answer: Answer)
      requires Inv(View()) && Enabled(View(), TimerStart(answer))
      modifies this
      ensures View() == Step(old(View()), TimerStart(answer)) && Inv(View())
    {
      hide Owned, Channelled, BackedOff, Connect, StartInLoop;
      timers := timers - 1;
      RunStartInLoop(answer);
    }

    method RequestStopping()
      requires Inv(View())
      modifies this
      ensures View() == Step(old(View()), RequestStop) && Inv(View())
    {
      StepKeepsInv(View(), RequestStop);
      hide Inv;
      connect, stops := false, stops + 1;
    }

    // Stop watching the channel; it is only deleted later, from the queue.
    method RemoveAndResetChannel() returns (sock: Socket)
      requires channel.Some?
      modifies this
      ensures View() == RemoveAndReset(old(View())) && sock == old(channel).value
    {
      watching := false;
      sock := channel.value;
      resets := resets + 1;
    }

    method RunStopInLoop()
      requires Inv(View()) && (phase == Connecting ==> channel.Some?)
      modifies this
      ensures View() == StopInLoop(old(View())) && Inv(View())
    {
      if phase == Connecting {
        RemoveTakesInHand(View());
        hide Owned, InHand, BackedOff, Retry;
        phase := Disconnected;
        var sock := RemoveAndResetChannel();
        RetryLater(sock);
      }
    }

    method RunStopping()
      requires Inv(View()) && Enabled(View(), RunStop)
      modifies this
      ensures View() == Step(old(View()), RunStop) && Inv(View())
    {
      hide Owned, Channelled, BackedOff, StopInLoop;
      stops := stops - 1;
      RunStopInLoop();
    }

    method BeginAgain()
      modifies this
      ensures View() == Restarted(old(View()))
    {
      phase := Disconnected;
      retryDelayMs, delays := INIT_RETRY_DELAY_MS, [];
      connect := true;
    }

    method RunRestart(answer: Answer)
      requires Inv(View()) && Enabled(View(), Restart(answer))
      modifies this
      ensures View() == Step(old(View()), Restart(answer)) && Inv(View())
    {
      RestartedKeepsInv(View());
      hide Inv, Restarted, StartInLoop;
      BeginAgain();
      RunStartInLoop(answer);
    }

    method ResetChannel()
      requires Inv(View()) && Enabled(View(), RunReset)
      modifies this
      ensures View() == Step(old(View()), RunReset) && Inv(View())
    {
      StepKeepsInv(View(), RunReset);
      hide Inv;
      resets := resets - 1;
      channel, watching := None, false;
    }

    method RunHandleWrite(outcome: Outcome)
      requires Inv(View()) && (phase == Connecting ==> channel.Some?)
      modifies this
      ensures View() == HandleWrite(old(View()), outcome)
    {
      if phase == Connecting {
        RemoveTakesInHand(View());
        hide Owned, InHand, BackedOff, Retry;
        var sock := RemoveAndResetChannel();
        if outcome == SocketError || outcome == SelfConnect {
          RetryLater(sock);
        } else {
          phase := Connected;
          if connect {
            handed := handed + multiset{sock};
          } else {
            CloseSocket(sock);
          }
        }
      }
    }

    /** The socket is writable: it is connected, or it has failed. */
    method OnWritable(outcome: Outcome)
      requires Inv(View()) && Enabled(View(), Write(outcome))
      modifies this
      ensures View() == Step(old(View()), Write(outcome)) && Inv(View())
    {
      StepKeepsInv(View(), Write(outcome));
      hide Inv, HandleWrite;
      RunHandleWrite(outcome);
    }

    method OnError()
      requires Inv(View()) && Enabled(View(), Error)
      modifies this
      ensures View() == Step(old(View()), Error) && Inv(View())
    {
      RemoveTakesInHand(View());
      hide Owned, InHand, BackedOff, Retry;
      var sock := RemoveAndResetChannel();
      RetryLater(sock);
    }
  }
}
