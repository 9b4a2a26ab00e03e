/** The asynchronous log itself.  Every method performs one of the steps of `LogSystem`; the
    writer's loop runs with arbitrary producers in between. */
module AsyncLogging {
  import opened LogSystem

  lemma FreshExists(used: set<Addr>) returns (a: Addr)
    ensures a !in used
  {
    a := 0;
    var rest := used;
    while exists b :: b in rest && b >= a
      invariant forall b :: b in used && b >= a ==> b in rest
      decreases |rest|
    {
      var b :| b in rest && b >= a;
      a := b + 1;
      rest := rest - {b};
    }
  }

  function TakenAll(lines: seq<string>): string {
    if lines == [] then "" else TakenAll(lines[..|lines| - 1]) + Taken(lines[|lines| - 1])
  }

  // What producers append while the writer waits and at each of its steps afterwards.
  datatype Turn = Turn(waiting: seq<string>, busy: nat -> seq<string>)

  // What is taken while the writer is busy, in so many visits of the producers.
  function TakenWhileBusy(turn: Turn, steps: nat): string {
    if steps == 0 then "" else TakenWhileBusy(turn, steps - 1) + TakenAll(turn.busy(steps - 1))
  }

  function TakenInTurns(turns: seq<Turn>, steps: seq<nat>): string
    requires |turns| == |steps|
  {
    if turns == [] then ""
    else
      var last := |turns| - 1;
      TakenInTurns(turns[..last], steps[..last]) + (TakenAll(turns[last].waiting) + TakenWhileBusy(turns[last], steps[last]))
  }

  lemma BusyOnce(turn: Turn, before: string, steps: nat)
    ensures before + TakenWhileBusy(turn, steps) + TakenAll(turn.busy(steps)) == before + TakenWhileBusy(turn, steps + 1)
  {
  }

  lemma BusyTwice(turn: Turn, before: string)
    ensures before + TakenAll(turn.busy(0)) + TakenAll(turn.busy(1)) == before + TakenWhileBusy(turn, 2)
  {
    hide TakenAll;
    assert TakenWhileBusy(turn, 1) == TakenAll(turn.busy(0));
    BusyOnce(turn, before, 1);
  }

  lemma NoTurns(turns: seq<Turn>, before: string)
    ensures before == before + TakenInTurns(turns[..0], [])
  {
  }

  lemma OneMoreTurn(turns: seq<Turn>, steps: seq<nat>, t: nat, n: nat, before: string)
    requires t < |turns| && |steps| == t
    ensures before + TakenInTurns(turns[..t], steps) + TakenAll(turns[t].waiting) + TakenWhileBusy(turns[t], n)
         == before + TakenInTurns(turns[..t + 1], steps + [n])
  {
    hide TakenAll, TakenWhileBusy;
    assert turns[..t + 1][..t] == turns[..t] && (steps + [n])[..t] == steps;
  }

  // The last third of the writer's loop, on the batch just written.
  method TakeSpares(memory: map<Addr, string>, new1: Option<Addr>, new2: Option<Addr>, toWrite: seq<Addr>)
    returns (newBuffer1: Option<Addr>, newBuffer2: Option<Addr>, contents: map<Addr, string>)
    requires forall i, j :: 0 <= i < j < |toWrite| ==> toWrite[i] != toWrite[j]
    requires new1.None? && toWrite != [] && (new2.None? ==> |toWrite| >= 2)
    ensures (newBuffer1, newBuffer2, contents) == Recycled(memory, new2, toWrite)
  {
    newBuffer1, newBuffer2, contents := new1, new2, memory;
    var buffersToWrite, destroyed := toWrite, [];
    if |buffersToWrite| > 2 {
      destroyed := buffersToWrite[2..];
      buffersToWrite := buffersToWrite[..2];
    }
    ghost var first, last := buffersToWrite[0], buffersToWrite[|buffersToWrite| - 1];
    if newBuffer1.None? {
      assert buffersToWrite != [];
      newBuffer1 := Some(buffersToWrite[|buffersToWrite| - 1]);
      buffersToWrite := buffersToWrite[..|buffersToWrite| - 1];
      contents := contents[newBuffer1.value := ""];
    }
    if newBuffer2.None? {
      assert buffersToWrite != [];
      newBuffer2 := Some(buffersToWrite[|buffersToWrite| - 1]);
      buffersToWrite := buffersToWrite[..|buffersToWrite| - 1];
      contents := contents[newBuffer2.value := ""];
    }
    Leftover(toWrite, buffersToWrite + destroyed, first, last, new2.Some?);
    contents := contents - set b | b in buffersToWrite + destroyed;
    assert contents == Recycled(memory, new2, toWrite).2;
  }

  class Log {
    var memory: map<Addr, string>
    var currentBuffer: Addr
    var nextBuffer: Option<Addr>
    var buffers: seq<Addr>
    var newBuffer1: Option<Addr>
    var newBuffer2: Option<Addr>
    var buffersToWrite: seq<Addr>
    var output: seq<Item>
    ghost var phase: Phase
    ghost var done: nat
    ghost var lost: string
    ghost var log: seq<Fate>
    ghost var appended: string

    ghost function View(): State
      reads this
    {
      State(memory, currentBuffer, nextBuffer, buffers, phase, newBuffer1, newBuffer2, buffersToWrite, done,
            output, lost, log, appended)
    }

    constructor (a: Addr, b: Addr, c: Addr, d: Addr)
      requires a != b && a != c && a != d && b != c && b != d && c != d
      ensures View() == Start(a, b, c, d) && Inv(View())
    {
      memory := map[a := "", b := "", c := "", d := ""];
      currentBuffer, nextBuffer, buffers := a, Some(b), [];
      newBuffer1, newBuffer2, buffersToWrite := Some(c), Some(d), [];
      output := [];
      phase, done, lost, log, appended := LoopHead, 0, "", [], "";
      new;
      StartIsInv(a, b, c, d);
    }

    /** A producer appends a line; `newAddr` is what the allocator would return. */
    method Append(line: string, newAddr: Addr)
      requires Inv(View()) && newAddr !in memory
      modifies this
      ensures Step(old(View()), Event.Append(line, newAddr)) == Some(View()) && Inv(View())
      ensures phase == old(phase) && done == old(done) && buffersToWrite == old(buffersToWrite)
      ensures appended == old(appended) + Taken(line) && Claim(View()) == old(Claim(View()))
    {
      hide Inv, Claim;
      StepKeepsClaim(View(), Event.Append(line, newAddr));
      if LARGE_BUFFER - |memory[currentBuffer]| > |line| {
        memory := memory[currentBuffer := memory[currentBuffer] + line];
      } else {
        buffers := buffers + [currentBuffer];
        if nextBuffer.Some? {
          currentBuffer := nextBuffer.value;
          nextBuffer := None;
        } else {
          currentBuffer := newAddr;
          memory := memory[newAddr := ""];
        }
        memory := memory[currentBuffer := Put(memory[currentBuffer], line)];
      }
      appended := appended + Taken(line);
      assert View() == AppendLine(old(View()), line, newAddr);
    }

    method Producers(lines: seq<string>)
      requires Inv(View())
      modifies this
      ensures Inv(View()) && Claim(View()) == old(Claim(View()))
      ensures phase == old(phase) && done == old(done) && buffersToWrite == old(buffersToWrite)
      ensures appended == old(appended) + TakenAll(lines)
    {
      hide Inv, Step, Claim, Taken;
      for i := 0 to |lines|
        invariant Inv(View()) && Claim(View()) == old(Claim(View()))
        invariant phase == old(phase) && done == old(done) && buffersToWrite == old(buffersToWrite)
        invariant appended == old(appended) + TakenAll(lines[..i])
      {
        ghost var _ := FreshExists(memory.Keys);
        var a: Addr :| a !in memory;
        Append(lines[i], a);
        assert lines[..i + 1][..i] == lines[..i];
      }
      assert lines[..|lines|] == lines;
    }

    // The writer's critical section.
    method SwapBuffersOut()
      requires Inv(View()) && phase == LoopHead
      modifies this
      ensures Step(old(View()), Swap) == Some(View()) && Inv(View())
      ensures phase == Swapped && appended == old(appended) && Claim(View()) == appended
    {
      hide Inv, Claim;
      OpenInv(View());
      StepKeepsClaim(View(), Swap);
      assert newBuffer1.Some? && memory[newBuffer1.value] == "";
      assert newBuffer2.Some? && memory[newBuffer2.value] == "";
      assert buffersToWrite == [];
      hide SparesOk;
      buffers := buffers + [currentBuffer];
      currentBuffer := newBuffer1.value;
      newBuffer1 := None;
      buffersToWrite, buffers := buffers, buffersToWrite;
      if nextBuffer.None? {
        nextBuffer := newBuffer2;
        newBuffer2 := None;
      }
      phase, done := Swapped, 0;
      assert buffersToWrite != [];
      assert View() == SwapBuffers(old(View()));
    }

    method DropBacklogged()
      requires Inv(View()) && phase == Swapped
      modifies this
      ensures Step(old(View()), DropBacklog) == Some(View()) && Inv(View())
      ensures phase == Writing && done == 0
      ensures if old(|buffersToWrite|) > 25 then buffersToWrite == old(buffersToWrite)[..2]
              else buffersToWrite == old(buffersToWrite) && memory == old(memory) && output == old(output)
                   && lost == old(lost)
      ensures appended == old(appended) && Claim(View()) == old(Claim(View()))
    {
      hide Inv, Flatten, Claim;
      assert done == 0 by { OpenInv(View()); }
      StepKeepsClaim(View(), DropBacklog);
      if |buffersToWrite| > BACKLOG {
        output := output + [Notice(|buffersToWrite| - 2)];
        lost := Flatten(memory, buffersToWrite[2..]);
        memory := memory - set b | b in buffersToWrite[2..];
        buffersToWrite := buffersToWrite[..2];
      }
      phase := Writing;
    }

    // One turn of the loop that writes the batch.
    method WriteBuffer(i: nat)
      requires Inv(View()) && phase == Writing && done == i < |buffersToWrite|
      modifies this
      ensures Step(old(View()), WriteOne) == Some(View()) && Inv(View())
      ensures phase == Writing && done == i + 1 && buffersToWrite == old(buffersToWrite)
      ensures appended == old(appended) && Claim(View()) == old(Claim(View()))
    {
      hide Inv, Claim;
      StepKeepsClaim(View(), WriteOne);
      var text := memory[buffersToWrite[i]];
      output := output + [Text(text)];
      log := log + [Written(text)];
      done := done + 1;
    }

    method RefillSpares()
      requires Inv(View()) && phase == Writing && done == |buffersToWrite|
      modifies this
      ensures Step(old(View()), Recycle) == Some(View()) && Inv(View())
      ensures phase == LoopHead && appended == old(appended) && Claim(View()) == old(Claim(View()))
    {
      hide Inv, Recycled, Claim;
      AllDistinct(View());
      StepKeepsClaim(View(), Recycle);
      newBuffer1, newBuffer2, memory := TakeSpares(memory, newBuffer1, newBuffer2, buffersToWrite);
      buffersToWrite := [];
      log := log + [Dropped(lost)];
      phase, done, lost := LoopHead, 0, "";
    }

    // One turn of the writer's loop.  What it has dealt with in the end is what was there when
    // it stopped waiting; `steps` tells how often the producers came in after that.
    method OneTurn(turn: Turn) returns (ghost steps: nat)
      requires Inv(View()) && phase == LoopHead
      modifies this
      ensures Inv(View()) && phase == LoopHead
      ensures appended == old(appended) + TakenAll(turn.waiting) + TakenWhileBusy(turn, steps)
      ensures Stream(log) == old(appended) + TakenAll(turn.waiting)
    {
      hide Inv, Step, Claim, Stream, TakenAll;
      Producers(turn.waiting);
      ghost var settled := appended;
      SwapBuffersOut();
      Producers(turn.busy(0));
      DropBacklogged();
      Producers(turn.busy(1));
      BusyTwice(turn, settled);
      var n := |buffersToWrite|;
      for i := 0 to n
        invariant Inv(View()) && Claim(View()) == settled && appended == settled + TakenWhileBusy(turn, 2 + i)
        invariant phase == Writing && done == i && |buffersToWrite| == n
      {
        WriteBuffer(i);
        Producers(turn.busy(2 + i));
        BusyOnce(turn, settled, 2 + i);
      }
      RefillSpares();
      SettledAtHead(View());
      steps := 2 + n;
    }

    /** The writer's loop, for any number of turns and any producers: exactly the lines appended
        before the last turn, and while it waited, are written or dropped, in order. */
    method ThreadFunc(turns: seq<Turn>) returns (ghost steps: seq<nat>)
      requires Inv(View()) && phase == LoopHead
      modifies this
      ensures Inv(View()) && phase == LoopHead && |steps| == |turns|
      ensures appended == old(appended) + TakenInTurns(turns, steps)
      ensures turns != [] ==>
                var last := |turns| - 1;
                Stream(log) == old(appended) + TakenInTurns(turns[..last], steps[..last]) + TakenAll(turns[last].waiting)
    {
      hide Inv, Stream, TakenAll, TakenWhileBusy, TakenInTurns;
      steps := [];
      NoTurns(turns, appended);
      for t := 0 to |turns|
        invariant Inv(View()) && phase == LoopHead && |steps| == t
        invariant appended == old(appended) + TakenInTurns(turns[..t], steps)
        invariant t > 0 ==> Stream(log) == old(appended) + TakenInTurns(turns[..t - 1], steps[..t - 1])
                                           + TakenAll(turns[t - 1].waiting)
      {
        ghost var n := OneTurn(turns[t]);
        OneMoreTurn(turns, steps, t, n, old(appended));
        assert (steps + [n])[..t] == steps;
        steps := steps + [n];
      }
      assert turns[..|turns|] == turns;
    }
  }

  lemma OpenInv(s: State)
    requires Inv(s)
    ensures SparesOk(s) && Allocated(s) && (s.next.Some? ==> s.next.value in s.memory)
  {
  }

  // What is destroyed is everything that was not recycled.
  lemma Leftover(bs: seq<Addr>, gone: seq<Addr>, first: Addr, last: Addr, one: bool)
    requires forall i, j :: 0 <= i < j < |bs| ==> bs[i] != bs[j]
    requires bs != [] && first == bs[0] && last == (if |bs| >= 2 then bs[1] else bs[0]) && (!one ==> |bs| >= 2)
    requires gone == (if one && |bs| >= 2 then [first] else []) + (if |bs| > 2 then bs[2..] else [])
    ensures (set b | b in gone) == Others(bs, if one then {last} else {last, first})
  {
    assert |bs| > 2 ==> bs == [first, last] + bs[2..];
    assert |bs| == 2 ==> bs == [first, last];
    assert |bs| == 1 ==> bs == [first];
  }

  lemma AllDistinct(s: State)
    requires Inv(s)
    ensures forall i, j :: 0 <= i < j < |s.toWrite| ==> s.toWrite[i] != s.toWrite[j]
    ensures s.new2.Some? ==> s.new2.value !in s.toWrite
  {
    forall i, j | 0 <= i < j < |s.toWrite| ensures s.toWrite[i] != s.toWrite[j] {
      var b := s.toWrite[i];
      ToWriteIsApart(s, b);
      assert s.toWrite == s.toWrite[..i + 1] + s.toWrite[i + 1..];
      OccursConcat(b, s.toWrite[..i + 1], s.toWrite[i + 1..]);
      OccursIn(b, s.toWrite[..i + 1]);
      OccursIn(b, s.toWrite[i + 1..]);
      assert s.toWrite[i + 1..][j - i - 1] == s.toWrite[j];
    }
    if s.new2.Some? && s.new2.value in s.toWrite {
      ToWriteIsApart(s, s.new2.value);
    }
  }
}
