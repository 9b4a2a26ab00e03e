/** What the output path of a connection does, as a transition system over values.

    The socket is the environment: a write takes any part of what it is offered, or fails.
    A run is any sequence of sends, write events, shutdown requests (from the loop thread, or
    from another thread, in which case the rest of the request is a queued functor), and
    closes. */
module ConnSystem {
  import opened Buffer

  datatype Status = Disconnected | Connecting | Connected | Disconnecting

  datatype WriteResult = Wrote(n: nat) | WouldBlock | BrokenPipe | OtherError

  // Callbacks queued for the user: all bytes are on the wire, or the buffer has reached the mark.
  datatype Note = WriteComplete(sent: nat, taken: nat) | HighWater(size: nat)

  // A shutdown of the write side, with what was on the wire and what had been taken by then.
  datatype Shut = Shut(sent: nat, taken: nat)

  datatype Conn = Conn(
    status: Status,
    reading: bool,
    writing: bool,                 // the channel's write interest
    out: seq<Byte>,                // the contents of the output buffer
    mark: nat,
    onWriteComplete: bool,         // the callbacks that are set
    onHighWater: bool,
    deferred: bool,                // a shutdown functor is queued
    wire: seq<Byte>,               // history: what the socket has accepted
    taken: seq<Byte>,              // history: what was sent, without refused messages
    shuts: seq<Shut>,              // history: when the write side was shut down
    early: bool,                   // history: ... while the functor was still queued
    notes: seq<Note>)

  datatype Event =
    | Establish
    | Send(data: seq<Byte>, result: WriteResult)
    | Writable(result: WriteResult)
    | Shutdown(inLoop: bool)
    | RunDeferred
    | Close
    | Destroy

  function Start(mark: nat, onWriteComplete: bool, onHighWater: bool): Conn {
    Conn(Connecting, false, false, [], mark, onWriteComplete, onHighWater, false, [], [], [], false, [])
  }

  // What the socket can answer: it takes at most what it is offered, and once its write side
  // is shut down every write of at least one byte fails, with EPIPE or with a pending error.
  predicate Possible(s: Conn, offered: nat, result: WriteResult) {
    && (result.Wrote? ==> result.n <= offered)
    && (s.shuts != [] ==> !result.Wrote? || offered == 0)
  }

  predicate Enabled(s: Conn, ev: Event) {
    match ev
    case Establish => s.status == Connecting
    case Send(data, result) => s.status != Connecting && Possible(s, |data|, result)
    case Writable(result) => Possible(s, |s.out|, result)
    case Shutdown(_) => true
    case RunDeferred => s.deferred
    case Close => s.status == Connected || s.status == Disconnecting
    case Destroy => s.status == Connected
  }

  function Complete(s: Conn): Conn {
    if s.onWriteComplete then s.(notes := s.notes + [WriteComplete(|s.wire|, |s.taken|)]) else s
  }

  function ShutdownInLoop(s: Conn): Conn {
    if !s.writing then s.(shuts := s.shuts + [Shut(|s.wire|, |s.taken|)]) else s
  }

  // The part of a message that the socket did not take goes into the output buffer.
  function Keep(s: Conn, rest: seq<Byte>): Conn {
    Noted(s, |rest|).(out := s.out + rest, writing := true)
  }

  // The high-water notification, if the buffer is about to reach the mark.
  function Noted(s: Conn, added: nat): Conn {
    if |s.out| + added >= s.mark && |s.out| < s.mark && s.onHighWater
    then s.(notes := s.notes + [HighWater(|s.out| + added)]) else s
  }

  lemma KeepIs(s: Conn, rest: seq<Byte>)
    ensures Noted(s, |rest|).out == s.out
    ensures Keep(s, rest) == Noted(s, |rest|).(out := Noted(s, |rest|).out + rest, writing := true)
  {
  }

  function SendInLoop(s: Conn, data: seq<Byte>, result: WriteResult): Conn
    requires Possible(s, |data|, result)
  {
    if s.status == Disconnected then s
    else if !s.writing && s.out == [] then
      if result.Wrote? then
        var s' := s.(wire := s.wire + data[..result.n], taken := s.taken + data);
        if result.n == |data| then Complete(s') else Keep(s', data[result.n..])
      else if result.BrokenPipe? then s
      else if data == [] then s
      else Keep(s.(taken := s.taken + data), data)
    else if data == [] then s
    else Keep(s.(taken := s.taken + data), data)
  }

  function HandleWrite(s: Conn, result: WriteResult): Conn
    requires Possible(s, |s.out|, result)
  {
    if s.writing && result.Wrote? && result.n > 0 then
      var s' := s.(wire := s.wire + s.out[..result.n], out := s.out[result.n..]);
      if s'.out != [] then s' else Drained(s')
    else s
  }

  // The buffer has just become empty.
  function Drained(s: Conn): Conn {
    var s' := Complete(s.(writing := false));
    if s.status == Disconnecting then ShutdownInLoop(s'.(early := s.early || s.deferred)) else s'
  }

  function Step(s: Conn, ev: Event): Conn
    requires Enabled(s, ev)
  {
    match ev
    case Establish => s.(status := Connected, reading := true)
    case Send(data, result) => SendInLoop(s, data, result)
    case Writable(result) => HandleWrite(s, result)
    case Shutdown(inLoop) =>
      if s.status != Connected then s
      else if inLoop then ShutdownInLoop(s.(status := Disconnecting))
      else s.(status := Disconnecting, deferred := true)
    case RunDeferred => ShutdownInLoop(s.(deferred := false))
    case Close => s.(status := Disconnected, reading := false, writing := false)
    case Destroy => s.(status := Disconnected, reading := false, writing := false)
  }

  predicate IsRun(s: Conn, evs: seq<Event>)
    decreases |evs|
  {
    evs == [] || (Enabled(s, evs[0]) && IsRun(Step(s, evs[0]), evs[1..]))
  }

  function Run(s: Conn, evs: seq<Event>): Conn
    requires IsRun(s, evs)
    decreases |evs|
  {
    if evs == [] then s else Run(Step(s, evs[0]), evs[1..])
  }

  // ----- what every run keeps while the connection is up -----

  // Bytes on the wire and bytes in the buffer are the bytes taken, in order, and the channel
  // waits for the socket exactly when there is something in the buffer.
  predicate Conserved(s: Conn) {
    && s.wire + s.out == s.taken
    && (s.writing <==> s.out != [])
  }

  // How often the write side has been shut down, and that nothing was left to send then.
  predicate ShutdownsOk(s: Conn) {
    && (forall i :: 0 <= i < |s.shuts| ==> s.shuts[i].sent == s.shuts[i].taken)
    && (s.status != Disconnecting ==> s.shuts == [] && !s.deferred && !s.early)
    && (!s.early ==> |s.shuts| <= 1 && (s.deferred ==> s.shuts == []))
    && (s.early ==> 1 <= |s.shuts| <= if s.deferred then 1 else 2)
    && (s.status == Disconnecting && !s.deferred && s.out == [] ==> s.shuts != [])
  }

  // Completion was only ever announced when all bytes taken were on the wire.
  predicate NotesOk(s: Conn) {
    forall i :: 0 <= i < |s.notes| && s.notes[i].WriteComplete? ==> s.notes[i].sent == s.notes[i].taken
  }

  predicate Inv(s: Conn) {
    && NotesOk(s)
    && (s.status != Disconnected ==> Conserved(s) && ShutdownsOk(s))
    && (s.status == Connecting ==> s.out == [] && s.taken == [])
    && (s.status == Disconnected ==> !s.writing)
  }

  lemma KeepKeepsInv(s: Conn, rest: seq<Byte>)
    requires NotesOk(s) && ShutdownsOk(s) && (s.status == Connected || s.status == Disconnecting)
    requires s.wire + (s.out + rest) == s.taken && rest != []
    ensures Inv(Keep(s, rest))
  {
  }

  lemma CompleteKeepsInv(s: Conn)
    requires NotesOk(s) && ShutdownsOk(s) && (s.status == Connected || s.status == Disconnecting)
    requires s.wire == s.taken && s.out == [] && !s.writing
    ensures Inv(Complete(s))
  {
    assert s.wire + s.out == s.wire;
  }

  lemma DirectKeepsInv(s: Conn, data: seq<Byte>, n: nat)
    requires Inv(s) && (s.status == Connected || s.status == Disconnecting) && !s.writing
    requires n <= |data|
    ensures var s' := s.(wire := s.wire + data[..n], taken := s.taken + data);
            Inv(if n == |data| then Complete(s') else Keep(s', data[n..]))
  {
    hide Keep, Complete;
    var head, tail := data[..n], data[n..];
    var s' := s.(wire := s.wire + head, taken := s.taken + data);
    assert s.out == [] && s.wire + [] == s.wire;
    assert data == head + tail;
    if n == |data| {
      assert head == data;
      CompleteKeepsInv(s');
    } else {
      assert s'.wire + ([] + tail) == s'.taken;
      KeepKeepsInv(s', tail);
    }
  }

  lemma BufferedKeepsInv(s: Conn, data: seq<Byte>)
    requires Inv(s) && (s.status == Connected || s.status == Disconnecting)
    requires data != []
    ensures Inv(Keep(s.(taken := s.taken + data), data))
  {
    hide Keep;
    assert s.wire + (s.out + data) == (s.wire + s.out) + data;
    KeepKeepsInv(s.(taken := s.taken + data), data);
  }

  lemma SendKeepsInv(s: Conn, data: seq<Byte>, result: WriteResult)
    requires Inv(s) && s.status != Connecting && Possible(s, |data|, result)
    ensures Inv(SendInLoop(s, data, result))
  {
    if s.status != Disconnected {
      if !s.writing && result.Wrote? {
        DirectKeepsInv(s, data, result.n);
      } else if data != [] && (s.writing || !result.BrokenPipe?) {
        BufferedKeepsInv(s, data);
      }
    }
    hide Keep, Complete, NotesOk, ShutdownsOk;
  }

  lemma WriteKeepsInv(s: Conn, result: WriteResult)
    requires Inv(s) && Possible(s, |s.out|, result)
    ensures Inv(HandleWrite(s, result))
  {
    if s.writing && result.Wrote? {
      assert s.out == s.out[..result.n] + s.out[result.n..];
      assert s.wire + s.out[..result.n] + s.out[result.n..] == s.wire + s.out;
    }
  }

  lemma StepKeepsInv(s: Conn, ev: Event)
    requires Inv(s) && Enabled(s, ev)
    ensures Inv(Step(s, ev))
  {
    match ev
    case Send(data, result) => SendKeepsInv(s, data, result);
    case Writable(result) => WriteKeepsInv(s, result);
    case _ =>
  }

  /** In every run, while the connection is up: no byte is lost, duplicated or reordered, write
      interest is on exactly when bytes wait, the write side is shut down only with everything
      on the wire, and completion is announced only then. */
  lemma {:induction false} RunKeepsInv(s: Conn, evs: seq<Event>)
    requires Inv(s) && IsRun(s, evs)
    ensures Inv(Run(s, evs))
    decreases |evs|
  {
    if evs != [] {
      StepKeepsInv(s, evs[0]);
      RunKeepsInv(Step(s, evs[0]), evs[1..]);
    }
  }

  // Sending changes the bytes, the write interest and the notifications only.
  predicate SameButBytes(s: Conn, s': Conn) {
    s' == s.(wire := s'.wire, taken := s'.taken, out := s'.out, writing := s'.writing, notes := s'.notes)
  }

  lemma KeepChanges(s: Conn, rest: seq<Byte>)
    ensures var s' := Keep(s, rest);
            s' == s.(out := s.out + rest, writing := true, notes := s'.notes)
            && s'.notes == s.notes + if s.onHighWater && |s.out| < s.mark <= |s'.out| then [HighWater(|s'.out|)] else []
  {
  }

  lemma CompleteChanges(s: Conn)
    ensures var s' := Complete(s);
            s' == s.(notes := s.notes + if s.onWriteComplete then [WriteComplete(|s.wire|, |s.taken|)] else [])
  {
  }

  lemma SendKeepsMode(s: Conn, data: seq<Byte>, result: WriteResult)
    requires Possible(s, |data|, result)
    ensures SameButBytes(s, SendInLoop(s, data, result))
  {
    var more := s.(taken := s.taken + data);
    KeepChanges(more, data);
    if result.Wrote? {
      var sent := more.(wire := s.wire + data[..result.n]);
      CompleteChanges(sent);
      KeepChanges(sent, data[result.n..]);
    }
    hide Keep, Complete;
  }

  lemma SendBytes(s: Conn, data: seq<Byte>, result: WriteResult)
    requires Possible(s, |data|, result) && (s.status != Disconnected ==> (s.writing <==> s.out != []))
    ensures var s' := SendInLoop(s, data, result);
            && s'.taken == s.taken + Handed(s, Send(data, result))
            && |s'.wire| == |s.wire| + Took(s, Send(data, result))
  {
    var more := s.(taken := s.taken + data);
    KeepChanges(more, data);
    if result.Wrote? {
      var sent := more.(wire := s.wire + data[..result.n]);
      CompleteChanges(sent);
      KeepChanges(sent, data[result.n..]);
    }
    hide Keep, Complete;
  }

  lemma SendNotes(s: Conn, data: seq<Byte>, result: WriteResult)
    requires Possible(s, |data|, result) && (s.status != Disconnected ==> (s.writing <==> s.out != []))
    ensures var s' := SendInLoop(s, data, result);
            s'.notes == s.notes
              + (if s.onWriteComplete && s.status != Disconnected && s.out == [] && result == Wrote(|data|)
                 then [WriteComplete(|s'.wire|, |s'.taken|)] else [])
              + (if s.onHighWater && |s.out| < s.mark <= |s'.out| then [HighWater(|s'.out|)] else [])
  {
    var more := s.(taken := s.taken + data);
    KeepChanges(more, data);
    if result.Wrote? {
      var sent := more.(wire := s.wire + data[..result.n]);
      CompleteChanges(sent);
      KeepChanges(sent, data[result.n..]);
    }
    hide Keep, Complete;
  }

  // ----- what was sent and what the socket took, from the events -----

  // The bytes a send hands over: its message, unless the connection is down, or nothing is waiting
  // and the socket answers that the pipe is broken.
  function Handed(s: Conn, ev: Event): seq<Byte> {
    if ev.Send? && s.status != Disconnected && !(s.out == [] && ev.result == BrokenPipe) then ev.data else []
  }

  // How many bytes the socket takes: of a message when nothing is waiting, and of what is waiting
  // when it has become writable.
  function Took(s: Conn, ev: Event): nat {
    match ev
    case Send(_, Wrote(n)) => if s.status != Disconnected && s.out == [] then n else 0
    case Writable(Wrote(n)) => if s.status != Disconnected then n else 0
    case _ => 0
  }

  function HandedBy(s: Conn, evs: seq<Event>): seq<Byte>
    requires IsRun(s, evs)
    decreases |evs|
  {
    if evs == [] then [] else Handed(s, evs[0]) + HandedBy(Step(s, evs[0]), evs[1..])
  }

  function TookBy(s: Conn, evs: seq<Event>): nat
    requires IsRun(s, evs)
    decreases |evs|
  {
    if evs == [] then 0 else Took(s, evs[0]) + TookBy(Step(s, evs[0]), evs[1..])
  }

  lemma WriteBytes(s: Conn, result: WriteResult)
    requires Inv(s) && Possible(s, |s.out|, result)
    ensures HandleWrite(s, result).taken == s.taken
    ensures |HandleWrite(s, result).wire| == |s.wire| + Took(s, Writable(result))
  {
    hide NotesOk, ShutdownsOk;
  }

  lemma StepHistory(s: Conn, ev: Event)
    requires Inv(s) && Enabled(s, ev)
    ensures Step(s, ev).taken == s.taken + Handed(s, ev)
    ensures |Step(s, ev).wire| == |s.wire| + Took(s, ev)
  {
    match ev
    case Send(data, result) =>
      SendBytes(s, data, result);
      hide SendInLoop, Inv;
    case Writable(result) =>
      WriteBytes(s, result);
      hide HandleWrite, Inv;
    case _ =>
      hide Inv;
  }

  lemma {:induction false} HistoryIsEvents(s: Conn, evs: seq<Event>)
    requires Inv(s) && IsRun(s, evs)
    ensures Run(s, evs).taken == s.taken + HandedBy(s, evs)
    ensures |Run(s, evs).wire| == |s.wire| + TookBy(s, evs)
    decreases |evs|
  {
    hide Inv, Handed, Took;
    if evs != [] {
      StepKeepsInv(s, evs[0]);
      StepHistory(s, evs[0]);
      HistoryIsEvents(Step(s, evs[0]), evs[1..]);
    }
  }

  /** In every run from the beginning, while the connection is up: the bytes on the wire, as many as
      the socket took, followed by those in the output buffer are exactly the bytes that the sends
      handed over, in order; write interest is on exactly when bytes wait; at every shutdown of the
      write side, and at every announced completion, all bytes handed over by then were on the wire. */
  lemma NoByteIsLost(mark: nat, onWriteComplete: bool, onHighWater: bool, evs: seq<Event>)
    requires IsRun(Start(mark, onWriteComplete, onHighWater), evs)
    ensures var s0 := Start(mark, onWriteComplete, onHighWater);
            var s := Run(s0, evs);
            && (s.status != Disconnected ==>
                  && s.wire + s.out == HandedBy(s0, evs) && (s.writing <==> s.out != [])
                  && forall i :: 0 <= i < |s.shuts| ==> s.shuts[i].sent == s.shuts[i].taken)
            && s.taken == HandedBy(s0, evs) && |s.wire| == TookBy(s0, evs)
            && (forall i :: 0 <= i < |s.notes| && s.notes[i].WriteComplete? ==> s.notes[i].sent == s.notes[i].taken)
  {
    var s0 := Start(mark, onWriteComplete, onHighWater);
    RunKeepsInv(s0, evs);
    HistoryIsEvents(s0, evs);
    assert [] + HandedBy(s0, evs) == HandedBy(s0, evs);
    hide Handed, Took;
  }

  // ----- the status, from the events -----

  predicate Closed(evs: seq<Event>) {
    Close in evs || Destroy in evs
  }

  // A shutdown is asked for once the connection is established.
  ghost predicate AskedToShut(evs: seq<Event>) {
    exists i: nat, j: nat :: i < j < |evs| && evs[i] == Establish && evs[j].Shutdown?
  }

  lemma AskedSnoc(evs: seq<Event>, ev: Event)
    ensures AskedToShut(evs + [ev]) <==> AskedToShut(evs) || (Establish in evs && ev.Shutdown?)
  {
    var all := evs + [ev];
    if i: nat, j: nat :| i < j < |all| && all[i] == Establish && all[j].Shutdown? {
      assert evs[i] == Establish;
      assert j < |evs| ==> evs[j] == all[j];
    }
    if i: nat, j: nat :| i < j < |evs| && evs[i] == Establish && evs[j].Shutdown? {
      assert all[i] == Establish && all[j].Shutdown?;
    }
    if Establish in evs && ev.Shutdown? {
      var i: nat :| i < |evs| && evs[i] == Establish;
      assert all[i] == Establish && all[|evs|].Shutdown?;
    }
  }

  lemma EstablishedOnce(evs: seq<Event>, ev: Event)
    ensures Establish in evs + [ev] <==> Establish in evs || ev == Establish
    ensures Closed(evs + [ev]) <==> Closed(evs) || ev == Close || ev == Destroy
    ensures AskedToShut(evs) ==> Establish in evs
  {
  }

  function StatusNext(status: Status, ev: Event): Status {
    match ev
    case Establish => Connected
    case Close => Disconnected
    case Destroy => Disconnected
    case Shutdown(_) => if status == Connected then Disconnecting else status
    case _ => status
  }

  lemma StatusStep(s: Conn, ev: Event)
    requires Enabled(s, ev)
    ensures var s' := Step(s, ev);
            && s'.status == StatusNext(s.status, ev)
            && (s'.reading <==> ev == Establish || (s.reading && ev != Close && ev != Destroy))
            && s'.mark == s.mark && s'.onWriteComplete == s.onWriteComplete && s'.onHighWater == s.onHighWater
  {
    match ev
    case Send(data, result) =>
      SendKeepsMode(s, data, result);
      hide SendInLoop;
    case Writable(result) =>
      WriteKeepsMode(s, result);
      hide HandleWrite;
    case _ =>
  }

  lemma WriteKeepsMode(s: Conn, result: WriteResult)
    requires Possible(s, |s.out|, result)
    ensures var s' := HandleWrite(s, result);
            s' == s.(wire := s'.wire, out := s'.out, writing := s'.writing, notes := s'.notes, shuts := s'.shuts,
                     early := s'.early)
  {
    if s.writing && result.Wrote? && result.n > 0 {
      DrainedKeepsMode(s.(wire := s.wire + s.out[..result.n], out := s.out[result.n..]));
    }
    hide Drained;
  }

  lemma DrainedKeepsMode(s: Conn)
    ensures var s' := Drained(s);
            s' == s.(writing := false, notes := s'.notes, shuts := s'.shuts, early := s'.early)
  {
    CompleteChanges(s.(writing := false));
    hide Complete;
  }

  // What the events make of the status.
  ghost predicate StatusFits(status: Status, evs: seq<Event>) {
    && (status == Connecting <==> Establish !in evs)
    && (status == Disconnected <==> Closed(evs))
    && (status == Disconnecting <==> AskedToShut(evs) && !Closed(evs))
  }

  lemma StatusFitsNext(status: Status, evs: seq<Event>, ev: Event)
    requires StatusFits(status, evs)
    requires ev == Establish ==> status == Connecting
    requires ev == Close || ev == Destroy ==> status == Connected || status == Disconnecting
    ensures StatusFits(StatusNext(status, ev), evs + [ev])
  {
    AskedSnoc(evs, ev);
    EstablishedOnce(evs, ev);
    hide AskedToShut, Closed;
  }

  lemma {:induction false} RunStatusFits(s: Conn, evs: seq<Event>)
    requires IsRun(s, evs) && s.status == Connecting && !s.reading
    ensures var s' := Run(s, evs);
            && StatusFits(s'.status, evs) && (s'.reading <==> s'.status == Connected || s'.status == Disconnecting)
            && s'.mark == s.mark && s'.onWriteComplete == s.onWriteComplete && s'.onHighWater == s.onHighWater
    decreases |evs|
  {
    if evs != [] {
      var front, ev := evs[..|evs| - 1], evs[|evs| - 1];
      assert evs == front + [ev];
      RunSnoc(s, front, ev);
      RunStatusFits(s, front);
      hide Step, Run, IsRun, StatusFits, Possible;
      StatusStep(Run(s, front), ev);
      StatusFitsNext(Run(s, front).status, front, ev);
    }
  }

  /** The status of a connection is what the events make it: connecting until it is established,
      down once it is closed, disconnecting when a shutdown has been asked for in between; and it
      is read from while it is up. */
  lemma StatusIsEvents(mark: nat, onWriteComplete: bool, onHighWater: bool, evs: seq<Event>)
    requires IsRun(Start(mark, onWriteComplete, onHighWater), evs)
    ensures var s := Run(Start(mark, onWriteComplete, onHighWater), evs);
            && (s.status == Connecting <==> Establish !in evs)
            && (s.status == Disconnected <==> Closed(evs))
            && (s.status == Disconnecting <==> AskedToShut(evs) && !Closed(evs))
            && (s.reading <==> s.status == Connected || s.status == Disconnecting)
            && s.mark == mark && s.onWriteComplete == onWriteComplete && s.onHighWater == onHighWater
  {
    RunStatusFits(Start(mark, onWriteComplete, onHighWater), evs);
    hide Closed, AskedToShut;
  }

  // ----- shutting down twice -----

  lemma {:induction false} RunSnoc(s: Conn, evs: seq<Event>, ev: Event)
    requires IsRun(s, evs + [ev])
    ensures IsRun(s, evs) && Enabled(Run(s, evs), ev) && Run(s, evs + [ev]) == Step(Run(s, evs), ev)
    decreases |evs|
  {
    if evs == [] {
      assert (evs + [ev])[0] == ev && (evs + [ev])[1..] == [];
    } else {
      assert (evs + [ev])[0] == evs[0] && (evs + [ev])[1..] == evs[1..] + [ev];
      RunSnoc(Step(s, evs[0]), evs[1..], ev);
    }
  }

  // Event i is a shutdown call from another thread, and the connection is still open then.
  predicate Accepted(s: Conn, evs: seq<Event>, i: nat) {
    i < |evs| && evs[i] == Shutdown(false) && IsRun(s, evs[..i]) && Run(s, evs[..i]).status == Connected
  }

  // Event j is a write event that empties the output buffer.
  predicate Empties(s: Conn, evs: seq<Event>, j: nat) {
    && j < |evs| && evs[j].Writable? && IsRun(s, evs[..j]) && Enabled(Run(s, evs[..j]), evs[j])
    && Run(s, evs[..j]).out != [] && Step(Run(s, evs[..j]), evs[j]).out == []
  }

  // The functor of the call at event i has not run yet.
  predicate WaitsSince(s: Conn, evs: seq<Event>, i: nat) {
    Accepted(s, evs, i) && RunDeferred !in evs[i..]
  }

  ghost predicate Waits(s: Conn, evs: seq<Event>) {
    exists i: nat :: WaitsSince(s, evs, i)
  }

  // Event j emptied the buffer, and the functor of the call at event i had not run yet.
  predicate DrainsAt(s: Conn, evs: seq<Event>, i: nat, j: nat) {
    i < j < |evs| && Accepted(s, evs, i) && Empties(s, evs, j) && RunDeferred !in evs[i..j]
  }

  ghost predicate DrainsFirst(s: Conn, evs: seq<Event>) {
    exists i: nat, j: nat :: DrainsAt(s, evs, i, j)
  }

  // Event k runs the functor, and the buffer is empty then.
  predicate RunsEmpty(s: Conn, evs: seq<Event>, k: nat) {
    k < |evs| && evs[k] == RunDeferred && IsRun(s, evs[..k]) && Run(s, evs[..k]).out == []
  }

  // A call from another thread, then a write event that empties the buffer, then the functor
  // on a buffer that is empty again or still.
  ghost predicate DrainsInBetween(s: Conn, evs: seq<Event>) {
    exists i: nat, j: nat, k: nat :: DrainsAt(s, evs, i, j) && j < k && RunsEmpty(s, evs, k)
  }

  // What has happened does not depend on what comes next.
  lemma PrefixFacts(s: Conn, evs: seq<Event>, ev: Event, i: nat)
    requires i < |evs|
    ensures Accepted(s, evs + [ev], i) <==> Accepted(s, evs, i)
    ensures Empties(s, evs + [ev], i) <==> Empties(s, evs, i)
    ensures RunsEmpty(s, evs + [ev], i) <==> RunsEmpty(s, evs, i)
    ensures (evs + [ev])[i..] == evs[i..] + [ev] && (evs + [ev])[i..|evs|] == evs[i..]
    ensures forall j: nat :: i <= j <= |evs| ==> (evs + [ev])[i..j] == evs[i..j]
  {
    assert (evs + [ev])[..i] == evs[..i];
  }

  lemma LastAccepted(s: Conn, evs: seq<Event>, ev: Event)
    requires IsRun(s, evs)
    ensures WaitsSince(s, evs + [ev], |evs|) <==> ev == Shutdown(false) && Run(s, evs).status == Connected
  {
    assert (evs + [ev])[..|evs|] == evs && (evs + [ev])[|evs|..] == [ev];
  }

  lemma WaitsSnoc(s: Conn, evs: seq<Event>, ev: Event)
    requires IsRun(s, evs)
    ensures Waits(s, evs + [ev]) <==>
              (Waits(s, evs) && ev != RunDeferred) || (ev == Shutdown(false) && Run(s, evs).status == Connected)
  {
    LastAccepted(s, evs, ev);
    var all := evs + [ev];
    if i: nat :| WaitsSince(s, all, i) {
      if i < |evs| {
        PrefixFacts(s, evs, ev, i);
        assert ev in all[i..] && WaitsSince(s, evs, i);
      }
    }
    if i: nat :| WaitsSince(s, evs, i) {
      PrefixFacts(s, evs, ev, i);
      assert ev != RunDeferred ==> WaitsSince(s, all, i);
    }
    hide WaitsSince, Accepted;
  }

  lemma DrainsSnoc(s: Conn, evs: seq<Event>, ev: Event)
    ensures DrainsFirst(s, evs + [ev]) <==> DrainsFirst(s, evs) || (Waits(s, evs) && Empties(s, evs + [ev], |evs|))
  {
    hide Accepted, Empties;
    var all := evs + [ev];
    if i: nat, j: nat :| DrainsAt(s, all, i, j) {
      PrefixFacts(s, evs, ev, i);
      if j < |evs| {
        PrefixFacts(s, evs, ev, j);
        assert DrainsAt(s, evs, i, j);
      } else {
        assert WaitsSince(s, evs, i);
      }
    }
    if i: nat, j: nat :| DrainsAt(s, evs, i, j) {
      PrefixFacts(s, evs, ev, i);
      PrefixFacts(s, evs, ev, j);
      assert DrainsAt(s, all, i, j);
    }
    if i: nat :| WaitsSince(s, evs, i) {
      assert i < |evs| by { WaitsWithin(s, evs, i); }
      PrefixFacts(s, evs, ev, i);
      assert Empties(s, all, |evs|) ==> DrainsAt(s, all, i, |evs|);
    }
  }

  lemma WaitsWithin(s: Conn, evs: seq<Event>, i: nat)
    requires WaitsSince(s, evs, i)
    ensures i < |evs|
  {
  }

  // One step and the two flags that record the shutdown's history.
  lemma FlagsStep(s: Conn, ev: Event)
    requires Inv(s) && Enabled(s, ev)
    ensures Step(s, ev).deferred <==> (s.deferred && ev != RunDeferred) || (ev == Shutdown(false) && s.status == Connected)
    ensures Step(s, ev).early <==> s.early || (s.deferred && ev.Writable? && s.out != [] && Step(s, ev).out == [])
    ensures Step(s, ev).status != Disconnected ==>
              s.status != Disconnected
              && (|Step(s, ev).shuts| == 2 <==> |s.shuts| == 2 || (s.early && ev == RunDeferred && s.out == []))
  {
    hide NotesOk;
    if ev.Send? {
      SendKeepsMode(s, ev.data, ev.result);
      hide SendInLoop;
    }
  }

  lemma {:induction false} FlagsAreEvents(s: Conn, evs: seq<Event>)
    requires Inv(s) && IsRun(s, evs) && !s.deferred && !s.early
    ensures Run(s, evs).deferred <==> Waits(s, evs)
    ensures Run(s, evs).early <==> DrainsFirst(s, evs)
    decreases |evs|
  {
    if evs != [] {
      var front, ev := evs[..|evs| - 1], evs[|evs| - 1];
      assert evs == front + [ev];
      RunSnoc(s, front, ev);
      FlagsAreEvents(s, front);
      RunKeepsInv(s, front);
      FlagsStep(Run(s, front), ev);
      WaitsSnoc(s, front, ev);
      DrainsSnoc(s, front, ev);
      assert evs[..|front|] == front;
      assert Empties(s, evs, |front|) <==> ev.Writable? && Run(s, front).out != [] && Run(s, evs).out == [];
      hide Inv, Waits, DrainsFirst, Empties, IsRun;
    }
  }

  lemma BetweenSnoc(s: Conn, evs: seq<Event>, ev: Event)
    ensures DrainsInBetween(s, evs + [ev]) <==>
              DrainsInBetween(s, evs) || (DrainsFirst(s, evs) && RunsEmpty(s, evs + [ev], |evs|))
  {
    hide Accepted, Empties, RunsEmpty;
    var all := evs + [ev];
    if i: nat, j: nat, k: nat :| DrainsAt(s, all, i, j) && j < k && RunsEmpty(s, all, k) {
      RunsWithin(s, all, k);
      PrefixFacts(s, evs, ev, i);
      PrefixFacts(s, evs, ev, j);
      assert DrainsAt(s, evs, i, j);
      if k < |evs| {
        PrefixFacts(s, evs, ev, k);
        assert RunsEmpty(s, evs, k);
      }
    }
    if i: nat, j: nat, k: nat :| DrainsAt(s, evs, i, j) && j < k && RunsEmpty(s, evs, k) {
      RunsWithin(s, evs, k);
      DrainsStill(s, evs, ev, i, j);
      PrefixFacts(s, evs, ev, k);
      assert DrainsAt(s, all, i, j) && RunsEmpty(s, all, k);
    }
    if i: nat, j: nat :| DrainsAt(s, evs, i, j) {
      DrainsStill(s, evs, ev, i, j);
    }
  }

  lemma DrainsStill(s: Conn, evs: seq<Event>, ev: Event, i: nat, j: nat)
    requires DrainsAt(s, evs, i, j)
    ensures DrainsAt(s, evs + [ev], i, j) && j < |evs|
  {
    PrefixFacts(s, evs, ev, i);
    PrefixFacts(s, evs, ev, j);
    hide Accepted, Empties;
  }

  lemma RunsWithin(s: Conn, evs: seq<Event>, k: nat)
    requires RunsEmpty(s, evs, k)
    ensures k < |evs|
  {
  }

  // The write side has been shut down twice exactly when the events say so.
  lemma {:induction false} TwiceIsEvents(s: Conn, evs: seq<Event>)
    requires Inv(s) && IsRun(s, evs) && !s.deferred && !s.early && s.shuts == [] && Run(s, evs).status != Disconnected
    ensures |Run(s, evs).shuts| == 2 <==> DrainsInBetween(s, evs)
    decreases |evs|
  {
    if evs != [] {
      var front, ev := evs[..|evs| - 1], evs[|evs| - 1];
      assert evs == front + [ev];
      RunSnoc(s, front, ev);
      RunKeepsInv(s, front);
      FlagsStep(Run(s, front), ev);
      FlagsAreEvents(s, front);
      TwiceIsEvents(s, front);
      BetweenSnoc(s, front, ev);
      assert evs[..|front|] == front;
      assert RunsEmpty(s, evs, |front|) <==> ev == RunDeferred && Run(s, front).out == [];
      hide Inv, DrainsFirst, DrainsInBetween, RunsEmpty, IsRun;
    }
  }

  /** A shutdown that was asked for is carried out: once nothing waits to be sent and no functor
      waits to run, the write side has been shut down; and it is not before it is asked for. */
  lemma ShutOnceDrained(mark: nat, onWriteComplete: bool, onHighWater: bool, evs: seq<Event>)
    requires IsRun(Start(mark, onWriteComplete, onHighWater), evs) && !Closed(evs)
    ensures var s0 := Start(mark, onWriteComplete, onHighWater);
            var s := Run(s0, evs);
            && (AskedToShut(evs) && s.out == [] && !Waits(s0, evs) ==> s.shuts != [])
            && (s.shuts != [] ==> AskedToShut(evs))
  {
    var s0 := Start(mark, onWriteComplete, onHighWater);
    RunKeepsInv(s0, evs);
    FlagsAreEvents(s0, evs);
    StatusIsEvents(mark, onWriteComplete, onHighWater, evs);
    hide Waits, AskedToShut, Closed;
  }

  /** While the connection is up the write side is shut down at most twice, and twice exactly
      when, after a shutdown call from another thread, a write event emptied the buffer before the
      functor of that call ran, and the functor then ran on an empty buffer. */
  lemma ShutTwiceExactlyWhen(mark: nat, onWriteComplete: bool, onHighWater: bool, evs: seq<Event>)
    requires IsRun(Start(mark, onWriteComplete, onHighWater), evs)
    ensures var s0 := Start(mark, onWriteComplete, onHighWater);
            var s := Run(s0, evs);
            s.status != Disconnected ==> |s.shuts| <= 2 && (|s.shuts| == 2 <==> DrainsInBetween(s0, evs))
  {
    var s0 := Start(mark, onWriteComplete, onHighWater);
    RunKeepsInv(s0, evs);
    if Run(s0, evs).status != Disconnected {
      TwiceIsEvents(s0, evs);
    }
    hide DrainsInBetween;
  }

  lemma {:induction false} NeverDeferred(s: Conn, evs: seq<Event>)
    requires IsRun(s, evs) && !s.deferred && !s.early
    requires forall i :: 0 <= i < |evs| ==> evs[i] != Shutdown(false)
    ensures !Run(s, evs).deferred && !Run(s, evs).early
    decreases |evs|
  {
    if evs != [] {
      NeverDeferred(Step(s, evs[0]), evs[1..]);
    }
  }

  /** If shutdown is only called on the loop thread, the write side is shut down at most once. */
  lemma ShutOnceFromTheLoop(mark: nat, onWriteComplete: bool, onHighWater: bool, evs: seq<Event>)
    requires IsRun(Start(mark, onWriteComplete, onHighWater), evs)
    requires forall i :: 0 <= i < |evs| ==> evs[i] != Shutdown(false)
    ensures var s := Run(Start(mark, onWriteComplete, onHighWater), evs);
            s.status != Disconnected ==> |s.shuts| <= 1
  {
    RunKeepsInv(Start(mark, onWriteComplete, onHighWater), evs);
    NeverDeferred(Start(mark, onWriteComplete, onHighWater), evs);
  }

  lemma {:induction false} ExtendRun(s: Conn, evs: seq<Event>, ev: Event)
    requires IsRun(s, evs) && Enabled(Run(s, evs), ev)
    ensures IsRun(s, evs + [ev]) && Run(s, evs + [ev]) == Step(Run(s, evs), ev)
    decreases |evs|
  {
    hide Step;
    if evs == [] {
      assert (evs + [ev])[1..] == [] && IsRun(Step(s, ev), []);
    } else {
      assert (evs + [ev])[0] == evs[0] && (evs + [ev])[1..] == evs[1..] + [ev];
      ExtendRun(Step(s, evs[0]), evs[1..], ev);
    }
  }

  // One byte waits, and another thread asks for shutdown.
  lemma OneWaits(mark: nat) returns (s3: Conn)
    ensures var evs := [Establish, Send([7], WouldBlock), Shutdown(false)];
            IsRun(Start(mark, false, false), evs) && Run(Start(mark, false, false), evs) == s3
    ensures s3 == Conn(Disconnecting, true, true, [7], mark, false, false, true, [], [7], [], false, [])
  {
    var evs := [Establish, Send([7], WouldBlock), Shutdown(false)];
    var s1 := Step(Start(mark, false, false), evs[0]);
    var s2 := Step(s1, evs[1]);
    assert s2.out == [7] && s2.taken == [7];
    s3 := Step(s2, evs[2]);
    assert evs[3..] == [] && IsRun(s3, evs[3..]);
    hide Step, Run, IsRun;
    Unroll(s2, evs, 2);
    Unroll(s1, evs, 1);
    Unroll(Start(mark, false, false), evs, 0);
    assert evs[0..] == evs;
  }

  // And then the byte goes out, before the functor runs.
  lemma DrainedEarly(mark: nat) returns (s4: Conn)
    ensures var evs := [Establish, Send([7], WouldBlock), Shutdown(false)] + [Writable(Wrote(1))];
            IsRun(Start(mark, false, false), evs) && Run(Start(mark, false, false), evs) == s4
    ensures s4 == Conn(Disconnecting, true, false, [], mark, false, false, true, [7], [7], [Shut(1, 1)], true, [])
  {
    var s3 := OneWaits(mark);
    s4 := Step(s3, Writable(Wrote(1)));
    assert s3.out[..1] == [7] && s3.out[1..] == [] && [] + [7] == s4.wire;
    ExtendRun(Start(mark, false, false), [Establish, Send([7], WouldBlock), Shutdown(false)], Writable(Wrote(1)));
    hide Step, Run, IsRun;
  }

  /** A run that shuts the write side down twice: one byte waits, another thread asks for
      shutdown, the byte goes out, and then the queued functor runs. */
  lemma ShutTwice(mark: nat)
    ensures var evs := [Establish, Send([7], WouldBlock), Shutdown(false)] + [Writable(Wrote(1))] + [RunDeferred];
            IsRun(Start(mark, false, false), evs) && |Run(Start(mark, false, false), evs).shuts| == 2
  {
    var s4 := DrainedEarly(mark);
    var evs := [Establish, Send([7], WouldBlock), Shutdown(false)] + [Writable(Wrote(1))];
    ExtendRun(Start(mark, false, false), evs, RunDeferred);
    assert |Step(s4, RunDeferred).shuts| == 2;
    hide Step, Run, IsRun;
  }

  /** A run in which the functor finds the buffer filled again, because a message sent after the
      shutdown met another error than EPIPE: one shutdown, and a byte taken that is not sent. */
  lemma BufferedAfterShutdown(mark: nat)
    ensures var evs := [Establish, Send([7], WouldBlock), Shutdown(false)] + [Writable(Wrote(1))]
                       + [Send([8], OtherError)] + [RunDeferred];
            IsRun(Start(mark, false, false), evs)
            && var s := Run(Start(mark, false, false), evs);
               s.status == Disconnecting && |s.shuts| == 1 && s.wire == [7] && s.taken == [7, 8]
  {
    var s0 := Start(mark, false, false);
    var s4 := DrainedEarly(mark);
    var evs := [Establish, Send([7], WouldBlock), Shutdown(false)] + [Writable(Wrote(1))];
    var s5 := Step(s4, Send([8], OtherError));
    assert s5.out == [8] && s5.writing && s5.taken == [7, 8];
    var s6 := Step(s5, RunDeferred);
    assert s6.taken == [7, 8] && |s6.shuts| == 1 && s6.wire == [7] && s6.status == Disconnecting;
    hide Step, Run, IsRun;
    ExtendRun(s0, evs, Send([8], OtherError));
    ExtendRun(s0, evs + [Send([8], OtherError)], RunDeferred);
  }

  lemma Unroll(s: Conn, evs: seq<Event>, i: nat)
    requires i < |evs| && Enabled(s, evs[i]) && IsRun(Step(s, evs[i]), evs[i + 1..])
    ensures IsRun(s, evs[i..]) && Run(s, evs[i..]) == Run(Step(s, evs[i]), evs[i + 1..])
  {
    assert evs[i..][0] == evs[i] && evs[i..][1..] == evs[i + 1..];
  }

  function HighWaters(notes: seq<Note>): nat {
    if notes == [] then 0 else HighWaters(notes[..|notes| - 1]) + if notes[|notes| - 1].HighWater? then 1 else 0
  }

  lemma HighWatersSnoc(notes: seq<Note>, n: Note)
    ensures HighWaters(notes + [n]) == HighWaters(notes) + if n.HighWater? then 1 else 0
  {
    assert (notes + [n])[..|notes|] == notes;
  }

  lemma KeepNotes(s: Conn, rest: seq<Byte>)
    ensures HighWaters(Keep(s, rest).notes)
         == HighWaters(s.notes) + if s.onHighWater && |s.out| < s.mark <= |s.out| + |rest| then 1 else 0
  {
    HighWatersSnoc(s.notes, HighWater(|s.out| + |rest|));
  }

  lemma CompleteNotes(s: Conn)
    ensures HighWaters(Complete(s).notes) == HighWaters(s.notes)
  {
    HighWatersSnoc(s.notes, WriteComplete(|s.wire|, |s.taken|));
  }

  lemma SendCrosses(s: Conn, data: seq<Byte>, result: WriteResult)
    requires Possible(s, |data|, result)
    ensures var s' := SendInLoop(s, data, result);
            HighWaters(s'.notes) == HighWaters(s.notes) + if s.onHighWater && |s.out| < s.mark <= |s'.out| then 1 else 0
  {
    hide HighWaters;
    var more := s.(taken := s.taken + data);
    KeepNotes(more, data);
    if result.Wrote? {
      var s' := more.(wire := s.wire + data[..result.n]);
      CompleteNotes(s');
      KeepNotes(s', data[result.n..]);
    }
  }

  lemma WriteCrosses(s: Conn, result: WriteResult)
    requires Possible(s, |s.out|, result)
    ensures HighWaters(HandleWrite(s, result).notes) == HighWaters(s.notes) && |HandleWrite(s, result).out| <= |s.out|
  {
    hide HighWaters;
    if s.writing && result.Wrote? {
      CompleteNotes(s.(wire := s.wire + s.out[..result.n], out := s.out[result.n..], writing := false));
    }
  }

  /** A high-water notification is queued exactly by the steps that take the buffer from below
      the mark to it or beyond, so between two of them it has been below the mark. */
  lemma HighWaterIsCrossing(s: Conn, ev: Event)
    requires Enabled(s, ev)
    ensures var s' := Step(s, ev);
            HighWaters(s'.notes) == HighWaters(s.notes) + if s.onHighWater && |s.out| < s.mark <= |s'.out| then 1 else 0
  {
    hide HighWaters, SendInLoop, HandleWrite;
    match ev
    case Send(data, result) => SendCrosses(s, data, result);
    case Writable(result) => WriteCrosses(s, result);
    case _ =>
  }

  // ----- the notifications of a step -----

  // All that was handed over goes out at once, or what was waiting has gone out.
  predicate Completes(s: Conn, ev: Event)
    requires Enabled(s, ev)
  {
    && s.status != Disconnected
    && if ev.Send? then s.out == [] && ev.result == Wrote(|ev.data|)
       else ev.Writable? && s.out != [] && Step(s, ev).out == []
  }

  lemma WriteNotes(s: Conn, result: WriteResult)
    requires Inv(s) && Possible(s, |s.out|, result)
    ensures var s' := HandleWrite(s, result);
            && |s'.out| <= |s.out|
            && s'.notes == s.notes
                 + (if s.onWriteComplete && s.status != Disconnected && s.out != [] && s'.out == []
                    then [WriteComplete(|s'.wire|, |s'.taken|)] else [])
  {
    hide NotesOk, ShutdownsOk;
    if s.writing && result.Wrote? && result.n > 0 {
      var s1 := s.(wire := s.wire + s.out[..result.n], out := s.out[result.n..]);
      CompleteChanges(s1.(writing := false));
    }
    hide Complete;
  }

  /** A step queues a write-complete notification exactly when all that was handed over goes out at
      once or what was waiting has gone out, and a high-water notification, with the size of the
      buffer, exactly when it takes the buffer from below the mark to it or beyond. */
  lemma NotesOfStep(s: Conn, ev: Event)
    requires Inv(s) && Enabled(s, ev)
    ensures var s' := Step(s, ev);
            s'.notes == s.notes
              + (if s.onWriteComplete && Completes(s, ev) then [WriteComplete(|s'.wire|, |s'.taken|)] else [])
              + (if s.onHighWater && |s.out| < s.mark <= |s'.out| then [HighWater(|s'.out|)] else [])
  {
    match ev
    case Send(data, result) =>
      SendNotes(s, data, result);
      hide SendInLoop, Inv;
    case Writable(result) =>
      WriteNotes(s, result);
      hide HandleWrite, Inv;
    case _ =>
      hide Inv;
  }

  lemma PrefixRun(s: Conn, evs: seq<Event>, k: nat)
    requires evs != [] && Enabled(s, evs[0]) && k <= |evs[1..]| && IsRun(Step(s, evs[0]), evs[1..][..k])
    ensures IsRun(s, evs[..k + 1]) && Run(s, evs[..k + 1]) == Run(Step(s, evs[0]), evs[1..][..k])
  {
    assert evs[..k + 1][0] == evs[0] && evs[..k + 1][1..] == evs[1..][..k];
  }

  /** Between two high-water notifications the buffer has been below the mark: once it is at the
      mark, another notification comes only after a moment at which it is below. */
  lemma {:induction false} MarkIsRevisited(s: Conn, evs: seq<Event>) returns (k: nat)
    requires IsRun(s, evs) && |s.out| >= s.mark && HighWaters(Run(s, evs).notes) > HighWaters(s.notes)
    ensures k <= |evs| && IsRun(s, evs[..k]) && |Run(s, evs[..k]).out| < s.mark
    decreases |evs|
  {
    HighWaterIsCrossing(s, evs[0]);
    StatusStep(s, evs[0]);
    hide HighWaters, Step;
    var s1 := Step(s, evs[0]);
    if |s1.out| < s.mark {
      k := 0;
      assert evs[1..][..0] == [];
    } else {
      k := MarkIsRevisited(s1, evs[1..]);
    }
    PrefixRun(s, evs, k);
    k := k + 1;
  }
}
