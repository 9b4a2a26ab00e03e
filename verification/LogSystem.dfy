/** What the asynchronous log does, as a transition system over values.

    Producers append lines to a current buffer under a lock, and one writer thread swaps the
    filled buffers out, writes them, and recycles two of them.  A run is any interleaving of
    producers and writer.  Buffers live at addresses in `memory`, so that two slots holding
    the same buffer would be seen to overwrite each other; destroyed buffers leave the
    memory, and their addresses may be handed out again. */
module LogSystem {

  type Addr = nat

  const LARGE_BUFFER: nat := 4000 * 1000
  const BACKLOG := 25

  datatype Option<+T> = None | Some(value: T)

  // What became of a stretch of the log, in the order the lines were appended.
  datatype Fate = Written(text: string) | Dropped(text: string)

  // What the writer put into the file: text, or a notice that so many buffers were dropped.
  datatype Item = Text(text: string) | Notice(buffers: nat)

  datatype Phase = LoopHead | Swapped | Writing

  datatype State = State(
    memory: map<Addr, string>,      // the contents of the allocated buffers
    current: Addr,
    next: Option<Addr>,
    buffers: seq<Addr>,
    phase: Phase,                   // where the writer is in its loop
    new1: Option<Addr>,             // the writer's local variables
    new2: Option<Addr>,
    toWrite: seq<Addr>,
    done: nat,                      // how many of them have been written
    output: seq<Item>,
    lost: string,                   // what the drop took out of the present batch
    log: seq<Fate>,                 // history: the batches before, and the present one so far
    appended: string)               // history: the lines taken

  datatype Event =
    | Append(line: string, newAddr: Addr)
    | Swap
    | DropBacklog
    | WriteOne
    | Recycle

  function Stream(log: seq<Fate>): string {
    if log == [] then "" else Stream(log[..|log| - 1]) + log[|log| - 1].text
  }

  function Kept(log: seq<Fate>): string {
    if log == [] then ""
    else Kept(log[..|log| - 1]) + if log[|log| - 1].Written? then log[|log| - 1].text else ""
  }

  function TextOf(output: seq<Item>): string {
    if output == [] then ""
    else TextOf(output[..|output| - 1]) + if output[|output| - 1].Text? then output[|output| - 1].text else ""
  }

  function Flatten(memory: map<Addr, string>, bs: seq<Addr>): string
    requires forall b :: b in bs ==> b in memory
  {
    if bs == [] then "" else Flatten(memory, bs[..|bs| - 1]) + memory[bs[|bs| - 1]]
  }

  // How often a buffer occurs in a list, in a slot, and in all slots together.
  function Occurs(b: Addr, bs: seq<Addr>): nat {
    multiset(bs)[b]
  }

  function In(b: Addr, slot: Option<Addr>): nat {
    if slot == Some(b) then 1 else 0
  }

  function Count(s: State, b: Addr): nat {
    In(b, Some(s.current)) + In(b, s.next) + Occurs(b, s.buffers) + In(b, s.new1) + In(b, s.new2) + Occurs(b, s.toWrite)
  }

  // ----- the steps -----

  // `FixedBuffer::append`: a line that leaves no room to spare is not taken.
  function Put(contents: string, line: string): string {
    if LARGE_BUFFER - |contents| > |line| then contents + line else contents
  }

  // A line at least as long as a buffer is lost; every other line is taken.
  function Taken(line: string): string {
    if |line| < LARGE_BUFFER then line else ""
  }

  function AppendLine(s: State, line: string, newAddr: Addr): State
    requires s.current in s.memory && (s.next.Some? ==> s.next.value in s.memory)
  {
    var s' := s.(appended := s.appended + Taken(line));
    if LARGE_BUFFER - |s.memory[s.current]| > |line| then
      s'.(memory := s.memory[s.current := s.memory[s.current] + line])
    else if s.next.Some? then
      s'.(buffers := s.buffers + [s.current], current := s.next.value, next := None,
          memory := s.memory[s.next.value := Put(s.memory[s.next.value], line)])
    else
      s'.(buffers := s.buffers + [s.current], current := newAddr, memory := s.memory[newAddr := Put("", line)])
  }

  function SwapBuffers(s: State): State
    requires s.new1.Some?
  {
    s.(toWrite := s.buffers + [s.current], buffers := [], current := s.new1.value, new1 := None,
       next := if s.next.None? then s.new2 else s.next,
       new2 := if s.next.None? then None else s.new2,
       phase := Swapped, done := 0)
  }

  function Drop(s: State): State
    requires forall b :: b in s.toWrite ==> b in s.memory
  {
    if |s.toWrite| > BACKLOG then
      s.(output := s.output + [Notice(|s.toWrite| - 2)],
         lost := Flatten(s.memory, s.toWrite[2..]),
         memory := s.memory - (set b | b in s.toWrite[2..]),
         toWrite := s.toWrite[..2],
         phase := Writing)
    else s.(phase := Writing)
  }

  function Write(s: State): State
    requires s.done < |s.toWrite| && s.toWrite[s.done] in s.memory
  {
    var text := s.memory[s.toWrite[s.done]];
    s.(output := s.output + [Text(text)], log := s.log + [Written(text)], done := s.done + 1)
  }

  // The end of the writer's loop.  The buffers after the second are destroyed, a spare that
  // was given away is replaced by the last of the others, emptied, and the rest is destroyed.
  function Recycled(memory: map<Addr, string>, new2: Option<Addr>, toWrite: seq<Addr>)
    : (Option<Addr>, Option<Addr>, map<Addr, string>)
    requires toWrite != [] && (new2.None? ==> |toWrite| >= 2)
  {
    var first, last := toWrite[0], if |toWrite| >= 2 then toWrite[1] else toWrite[0];
    if new2.Some? then
      (Some(last), new2, memory[last := ""] - Others(toWrite, {last}))
    else
      (Some(last), Some(first), memory[last := ""][first := ""] - Others(toWrite, {last, first}))
  }

  function RecycleBuffers(s: State): State
    requires s.new1.None? && s.toWrite != []
    requires s.new2.None? ==> |s.toWrite| >= 2
  {
    var (new1, new2, memory) := Recycled(s.memory, s.new2, s.toWrite);
    s.(new1 := new1, new2 := new2, memory := memory, toWrite := [], done := 0, lost := "", phase := LoopHead,
       log := s.log + [Dropped(s.lost)])
  }

  function Others(bs: seq<Addr>, kept: set<Addr>): set<Addr> {
    set b | b in bs && b !in kept
  }

  predicate Enabled(s: State, ev: Event) {
    match ev
    case Append(_, newAddr) => newAddr !in s.memory
    case Swap => s.phase == LoopHead
    case DropBacklog => s.phase == Swapped
    case WriteOne => s.phase == Writing && s.done < |s.toWrite|
    case Recycle => s.phase == Writing && s.done == |s.toWrite|
  }

  // ----- what every interleaving keeps -----

  // Every allocated buffer is in exactly one slot, and no slot holds a destroyed buffer.
  ghost predicate Separate(s: State) {
    forall b :: Count(s, b) == if b in s.memory then 1 else 0
  }

  predicate Empty(s: State, b: Option<Addr>) {
    b.Some? ==> b.value in s.memory && s.memory[b.value] == ""
  }

  // The spares are empty, and there are enough buffers to refill them.
  predicate SparesOk(s: State) {
    && Empty(s, s.next) && Empty(s, s.new1) && Empty(s, s.new2)
    && (s.next.None? ==> s.buffers != [])
    && (s.phase == LoopHead ==> s.new1.Some? && s.new2.Some? && s.toWrite == [])
    && (s.phase != LoopHead ==> s.new1.None? && s.toWrite != [] && (s.new2.None? ==> |s.toWrite| >= 2))
    && s.done <= |s.toWrite|
    && (s.phase == Swapped ==> s.done == 0)
    && (s.phase != Writing ==> s.lost == "")
  }

  // The lines in the log so far, those of the present batch that are not in it yet, and those
  // still with the producers.
  function Account(s: State): string
    requires Allocated(s)
  {
    Stream(s.log) + (Flatten(s.memory, s.toWrite[s.done..]) + s.lost)
    + (Flatten(s.memory, s.buffers) + s.memory[s.current])
  }

  // Everything taken is in the file, dropped, or still on its way, in order.
  predicate Conserved(s: State)
    requires Allocated(s)
  {
    Account(s) == s.appended && Kept(s.log) == TextOf(s.output)
  }

  predicate Allocated(s: State) {
    && s.done <= |s.toWrite|
    && s.current in s.memory
    && (forall b :: b in s.buffers ==> b in s.memory)
    && (forall b :: b in s.toWrite ==> b in s.memory)
  }

  lemma OccursIn(b: Addr, bs: seq<Addr>)
    ensures Occurs(b, bs) > 0 <==> b in bs
  {
  }

  lemma OccursConcat(b: Addr, bs: seq<Addr>, cs: seq<Addr>)
    ensures Occurs(b, bs + cs) == Occurs(b, bs) + Occurs(b, cs)
  {
  }

  lemma OccursSnoc(b: Addr, bs: seq<Addr>, c: Addr)
    ensures Occurs(b, bs + [c]) == Occurs(b, bs) + if b == c then 1 else 0
  {
  }

  lemma SeparateIsAllocated(s: State)
    requires Separate(s) && s.done <= |s.toWrite|
    ensures Allocated(s)
    ensures s.next.Some? ==> s.next.value in s.memory
  {
    assert Count(s, s.current) > 0;
    forall b | b in s.buffers || b in s.toWrite ensures b in s.memory {
      OccursIn(b, s.buffers);
      OccursIn(b, s.toWrite);
      assert Count(s, b) > 0;
    }
    if s.next.Some? {
      assert Count(s, s.next.value) > 0;
    }
  }

  ghost predicate Inv(s: State) {
    Separate(s) && SparesOk(s) && Allocated(s) && Conserved(s)
  }

  // The pointers a step follows and the elements it pops are there.
  predicate Safe(s: State, ev: Event) {
    match ev
    case Append(_, _) => s.current in s.memory && (s.next.Some? ==> s.next.value in s.memory)
    case Swap => s.new1.Some?
    case DropBacklog => forall b :: b in s.toWrite ==> b in s.memory
    case WriteOne => s.done < |s.toWrite| && s.toWrite[s.done] in s.memory
    case Recycle => s.new1.None? && s.toWrite != [] && (s.new2.None? ==> |s.toWrite| >= 2)
  }

  // One step; `None` if it goes wrong.
  function Step(s: State, ev: Event): Option<State> {
    if !Safe(s, ev) then None else
      match ev
      case Append(line, newAddr) => Some(AppendLine(s, line, newAddr))
      case Swap => Some(SwapBuffers(s))
      case DropBacklog => Some(Drop(s))
      case WriteOne => Some(Write(s))
      case Recycle => Some(RecycleBuffers(s))
  }

  predicate IsRun(s: State, evs: seq<Event>)
    decreases |evs|
  {
    evs == [] || (Enabled(s, evs[0]) && (Step(s, evs[0]).Some? ==> IsRun(Step(s, evs[0]).value, evs[1..])))
  }

  function Run(s: State, evs: seq<Event>): Option<State>
    decreases |evs|
  {
    if evs == [] then Some(s)
    else if Step(s, evs[0]).None? then None
    else Run(Step(s, evs[0]).value, evs[1..])
  }

  lemma {:induction false} FlattenFrame(m: map<Addr, string>, m': map<Addr, string>, bs: seq<Addr>)
    requires forall b :: b in bs ==> b in m && b in m' && m[b] == m'[b]
    ensures Flatten(m, bs) == Flatten(m', bs)
  {
    if bs != [] {
      FlattenFrame(m, m', bs[..|bs| - 1]);
    }
  }

  lemma {:induction false} FlattenConcat(m: map<Addr, string>, bs: seq<Addr>, cs: seq<Addr>)
    requires forall b :: b in bs || b in cs ==> b in m
    ensures Flatten(m, bs + cs) == Flatten(m, bs) + Flatten(m, cs)
  {
    if cs == [] {
      assert bs + cs == bs;
    } else {
      var front := cs[..|cs| - 1];
      assert (bs + cs)[..|bs + cs| - 1] == bs + front;
      FlattenConcat(m, bs, front);
    }
  }

  lemma FlattenOne(m: map<Addr, string>, b: Addr)
    requires b in m
    ensures Flatten(m, [b]) == m[b]
  {
    assert [b][..0] == [];
  }

  lemma LogSnoc(log: seq<Fate>, f: Fate)
    ensures Stream(log + [f]) == Stream(log) + f.text
    ensures Kept(log + [f]) == Kept(log) + if f.Written? then f.text else ""
  {
    assert (log + [f])[..|log|] == log;
  }

  lemma OutputSnoc(output: seq<Item>, item: Item)
    ensures TextOf(output + [item]) == TextOf(output) + if item.Text? then item.text else ""
  {
    assert (output + [item])[..|output|] == output;
  }

  // Slots are distinct, seen from the current buffer, from the spare and from the buffers to write.
  lemma CurrentIsAlone(s: State)
    requires Separate(s)
    ensures s.current !in s.buffers && s.current !in s.toWrite
    ensures Some(s.current) !in {s.next, s.new1, s.new2}
    ensures s.next.Some? ==> s.next.value !in s.buffers && s.next.value !in s.toWrite && s.next !in {s.new1, s.new2}
  {
    var b := s.current;
    assert Count(s, b) <= 1;
    OccursIn(b, s.buffers);
    OccursIn(b, s.toWrite);
    if s.next.Some? {
      var c := s.next.value;
      assert Count(s, c) <= 1;
      OccursIn(c, s.buffers);
      OccursIn(c, s.toWrite);
    }
  }

  lemma ToWriteIsApart(s: State, b: Addr)
    requires Separate(s) && b in s.toWrite
    ensures b !in s.buffers && Some(b) !in {Some(s.current), s.next, s.new1, s.new2} && Occurs(b, s.toWrite) == 1
  {
    assert Count(s, b) <= 1;
    OccursIn(b, s.buffers);
    OccursIn(b, s.toWrite);
  }

  lemma AppendKeepsSeparate(s: State, line: string, newAddr: Addr)
    requires Separate(s) && newAddr !in s.memory && Safe(s, Append(line, newAddr))
    ensures Separate(AppendLine(s, line, newAddr))
  {
    hide Occurs;
    var s' := AppendLine(s, line, newAddr);
    forall b ensures Count(s', b) == if b in s'.memory then 1 else 0 {
      assert Count(s, b) == if b in s.memory then 1 else 0;
      OccursSnoc(b, s.buffers, s.current);
    }
  }

  lemma Assoc(a: string, b: string, c: string, d: string, e: string)
    ensures a + b + (c + (d + e)) == a + b + (c + d) + e
    ensures a + b + c + d == a + b + (c + d)
  {
  }

  // Where the line goes, and that everything else stays.
  lemma AppendShape(s: State, line: string, newAddr: Addr)
    requires Separate(s) && Allocated(s) && SparesOk(s) && newAddr !in s.memory && Safe(s, Append(line, newAddr))
    ensures var s' := AppendLine(s, line, newAddr);
            var cur := s.memory[s.current];
            && s' == s.(memory := s'.memory, current := s'.current, buffers := s'.buffers, next := s'.next,
                        appended := s.appended + Taken(line))
            && s'.current in s'.memory
            && (forall b :: b in s.toWrite || b in s.buffers ==>
                  (b in s.memory ==> b in s'.memory && s'.memory[b] == s.memory[b]))
            && if s'.buffers == s.buffers then s'.memory[s'.current] == cur + line && Taken(line) == line
               else s'.buffers == s.buffers + [s.current] && s.current in s'.memory && s'.memory[s.current] == cur
                    && s'.memory[s'.current] == Taken(line)
  {
    CurrentIsAlone(s);
    hide Separate;
  }

  lemma AppendKeepsConserved(s: State, line: string, newAddr: Addr)
    requires Separate(s) && Allocated(s) && SparesOk(s) && Conserved(s) && newAddr !in s.memory
    requires Safe(s, Append(line, newAddr)) && Allocated(AppendLine(s, line, newAddr))
    ensures Conserved(AppendLine(s, line, newAddr))
  {
    var s' := AppendLine(s, line, newAddr);
    AppendShape(s, line, newAddr);
    hide Separate, SparesOk, AppendLine, Taken;
    FlattenFrame(s.memory, s'.memory, s.toWrite[s.done..]);
    FlattenFrame(s.memory, s'.memory, s.buffers);
    var batch := Flatten(s.memory, s.toWrite[s.done..]) + s.lost;
    var cur := s.memory[s.current];
    hide Stream, Kept, TextOf;
    if s'.buffers == s.buffers {
      hide Flatten;
      Assoc(Stream(s.log), batch, Flatten(s.memory, s.buffers), cur, line);
    } else {
      FlattenConcat(s'.memory, s.buffers, [s.current]);
      FlattenOne(s'.memory, s.current);
      hide Flatten;
      Assoc(Stream(s.log), batch, Flatten(s.memory, s.buffers) + cur, Taken(line), "");
    }
  }

  // The writer's spares are not where the line goes.
  lemma AppendKeepsEmpty(s: State, line: string, newAddr: Addr, b: Option<Addr>)
    requires Safe(s, Append(line, newAddr)) && Empty(s, b) && newAddr !in s.memory
    requires b != Some(s.current) && (b.Some? ==> b != s.next)
    ensures Empty(AppendLine(s, line, newAddr), b)
  {
    hide Put, Taken;
  }

  lemma AppendKeepsSpares(s: State, line: string, newAddr: Addr)
    requires Separate(s) && SparesOk(s) && newAddr !in s.memory && Safe(s, Append(line, newAddr))
    ensures SparesOk(AppendLine(s, line, newAddr))
  {
    CurrentIsAlone(s);
    hide Separate, Put, Taken;
    SparesApart(s);
    AppendKeepsEmpty(s, line, newAddr, s.new1);
    AppendKeepsEmpty(s, line, newAddr, s.new2);
    var s' := AppendLine(s, line, newAddr);
    assert Empty(s', s'.next);
    assert s'.next.None? ==> s'.buffers != [];
    hide Empty;
  }

  lemma SparesApart(s: State)
    requires Separate(s)
    ensures s.new1.Some? ==> s.new1 != Some(s.current) && s.new1 != s.next
    ensures s.new2.Some? ==> s.new2 != Some(s.current) && s.new2 != s.next
  {
    if s.new1.Some? { assert Count(s, s.new1.value) <= 1; }
    if s.new2.Some? { assert Count(s, s.new2.value) <= 1; }
  }

  lemma AppendKeepsInv(s: State, line: string, newAddr: Addr)
    requires Inv(s) && newAddr !in s.memory
    ensures Safe(s, Append(line, newAddr)) && Inv(AppendLine(s, line, newAddr))
  {
    SeparateIsAllocated(s);
    AppendKeepsSeparate(s, line, newAddr);
    AppendKeepsSpares(s, line, newAddr);
    SeparateIsAllocated(AppendLine(s, line, newAddr));
    AppendKeepsConserved(s, line, newAddr);
  }

  lemma SwapKeepsSeparate(s: State)
    requires Separate(s) && SparesOk(s) && s.phase == LoopHead
    ensures Separate(SwapBuffers(s))
  {
    var s' := SwapBuffers(s);
    forall b ensures Count(s', b) == if b in s'.memory then 1 else 0 {
      assert Count(s, b) == if b in s.memory then 1 else 0;
      OccursSnoc(b, s.buffers, s.current);
    }
  }

  lemma SwapKeepsConserved(s: State)
    requires Allocated(s) && Conserved(s) && SparesOk(s) && s.phase == LoopHead
    requires Allocated(SwapBuffers(s))
    ensures Conserved(SwapBuffers(s))
  {
    var s' := SwapBuffers(s);
    FlattenConcat(s.memory, s.buffers, [s.current]);
    FlattenOne(s.memory, s.current);
    assert s'.toWrite[0..] == s'.toWrite;
    var filled := Flatten(s.memory, s'.toWrite);
    assert Flatten(s.memory, s.buffers) + s.memory[s.current] == filled;
    hide Stream, Kept, TextOf;
    assert Stream(s.log) + ("" + "") + filled == Stream(s.log) + (filled + "") + ("" + "");
  }

  lemma SwapKeepsInv(s: State)
    requires Inv(s) && s.phase == LoopHead
    ensures Inv(SwapBuffers(s))
  {
    SwapKeepsSeparate(s);
    SeparateIsAllocated(SwapBuffers(s));
    SwapKeepsConserved(s);
  }

  lemma DropKeepsSeparate(s: State)
    requires Separate(s) && Allocated(s)
    ensures Separate(Drop(s))
  {
    var s' := Drop(s);
    if |s.toWrite| > BACKLOG {
      var kept, gone := s.toWrite[..2], s.toWrite[2..];
      assert s.toWrite == kept + gone;
      forall b ensures Count(s', b) == if b in s'.memory then 1 else 0 {
        assert Count(s, b) == if b in s.memory then 1 else 0;
        OccursConcat(b, kept, gone);
        OccursIn(b, gone);
        hide Occurs;
      }
    } else {
      assert forall b :: Count(s', b) == Count(s, b);
    }
  }

  lemma DropKeepsSpares(s: State)
    requires Separate(s) && Allocated(s) && SparesOk(s) && s.phase == Swapped
    ensures SparesOk(Drop(s))
  {
    hide Separate, Flatten;
    forall b | b in s.toWrite ensures Some(b) !in {s.next, s.new1, s.new2} {
      ToWriteIsApart(s, b);
    }
  }

  lemma DropKeepsConserved(s: State)
    requires Allocated(s) && Conserved(s) && s.done == 0 && s.lost == "" && Allocated(Drop(s))
    ensures Conserved(Drop(s))
  {
    hide Stream, Kept, TextOf;
    var s' := Drop(s);
    if |s.toWrite| > BACKLOG {
      assert s.toWrite == s.toWrite[..2] + s.toWrite[2..];
      assert s.toWrite[0..] == s.toWrite && s'.toWrite[0..] == s'.toWrite;
      FlattenConcat(s.memory, s.toWrite[..2], s.toWrite[2..]);
      FlattenFrame(s.memory, s'.memory, s.toWrite[..2]);
      FlattenFrame(s.memory, s'.memory, s.buffers);
      OutputSnoc(s.output, Notice(|s.toWrite| - 2));
      hide Flatten;
      assert Flatten(s.memory, s.toWrite) + "" == Flatten(s'.memory, s'.toWrite) + s'.lost;
    }
  }

  lemma DropKeepsInv(s: State)
    requires Inv(s) && s.phase == Swapped
    ensures Inv(Drop(s))
  {
    DropKeepsSeparate(s);
    DropKeepsSpares(s);
    SeparateIsAllocated(Drop(s));
    DropKeepsConserved(s);
  }

  lemma WriteKeepsConserved(s: State)
    requires Allocated(s) && Conserved(s) && s.done < |s.toWrite|
    ensures Allocated(Write(s)) && Conserved(Write(s))
  {
    var b := s.toWrite[s.done];
    var rest := s.toWrite[s.done + 1..];
    assert s.toWrite[s.done..] == [b] + rest;
    FlattenConcat(s.memory, [b], rest);
    FlattenOne(s.memory, b);
    LogSnoc(s.log, Written(s.memory[b]));
    OutputSnoc(s.output, Text(s.memory[b]));
    hide Flatten, Stream, Kept, TextOf;
    WrittenAssoc(Stream(s.log), s.memory[b], Flatten(s.memory, rest), s.lost);
  }

  lemma WriteKeepsInv(s: State)
    requires Inv(s) && s.phase == Writing && s.done < |s.toWrite|
    ensures Inv(Write(s))
  {
    WriteKeepsConserved(s);
    forall b ensures Count(Write(s), b) == if b in s.memory then 1 else 0 {
      assert Count(Write(s), b) == Count(s, b);
    }
    hide Conserved;
  }

  lemma WrittenAssoc(log: string, text: string, rest: string, lost: string)
    ensures log + (text + rest + lost) == log + text + (rest + lost)
  {
  }

  lemma FirstTwoDiffer(s: State)
    requires Separate(s) && |s.toWrite| >= 2
    ensures s.toWrite[0] != s.toWrite[1]
  {
    var a, b := s.toWrite[0], s.toWrite[1];
    ToWriteIsApart(s, a);
    assert s.toWrite == [a] + s.toWrite[1..];
    OccursConcat(a, [a], s.toWrite[1..]);
    OccursIn(a, s.toWrite[1..]);
    OccursIn(a, [a]);
    assert b in s.toWrite[1..];
  }

  lemma RecycleKeepsSeparate(s: State)
    requires Separate(s) && SparesOk(s) && s.phase == Writing
    ensures Separate(RecycleBuffers(s))
  {
    hide Occurs;
    var s' := RecycleBuffers(s);
    var last := if |s.toWrite| >= 2 then s.toWrite[1] else s.toWrite[0];
    ToWriteIsApart(s, last);
    ToWriteIsApart(s, s.toWrite[0]);
    if s.new2.None? {
      FirstTwoDiffer(s);
    }
    assert s'.new1 == Some(last) && (s.new2.None? ==> s'.new2 == Some(s.toWrite[0]));
    forall b ensures Count(s', b) == if b in s'.memory then 1 else 0 {
      assert Count(s, b) == if b in s.memory then 1 else 0;
      OccursIn(b, s.toWrite);
      OccursIn(b, []);
    }
  }

  lemma RecycleKeepsSpares(s: State)
    requires Separate(s) && Allocated(s) && SparesOk(s) && s.phase == Writing
    ensures SparesOk(RecycleBuffers(s))
  {
    forall b | b in s.toWrite ensures Some(b) !in {s.next, s.new2} {
      ToWriteIsApart(s, b);
    }
    hide Separate;
  }

  // Recycling does not touch the producers' buffers.
  lemma RecycleKeepsProducers(s: State)
    requires Separate(s) && Allocated(s) && SparesOk(s) && s.phase == Writing
    ensures var s' := RecycleBuffers(s);
            && s.current in s'.memory && s'.memory[s.current] == s.memory[s.current]
            && (forall b :: b in s.buffers ==> b in s'.memory && s'.memory[b] == s.memory[b])
  {
    forall b | b in s.toWrite ensures b != s.current && b !in s.buffers {
      ToWriteIsApart(s, b);
    }
    hide Separate;
  }

  lemma LostAssoc(log: string, lost: string, rest: string)
    ensures log + ("" + lost) + rest == log + lost + ("" + "") + rest
  {
  }

  lemma RecycleKeepsConserved(s: State)
    requires Separate(s) && Allocated(s) && SparesOk(s) && Conserved(s)
    requires s.phase == Writing && s.done == |s.toWrite| && Allocated(RecycleBuffers(s))
    ensures Conserved(RecycleBuffers(s))
  {
    var s' := RecycleBuffers(s);
    RecycleKeepsProducers(s);
    assert s.toWrite[s.done..] == [] && s'.toWrite[s'.done..] == [];
    assert s'.buffers == s.buffers && s'.current == s.current && s'.appended == s.appended && s'.output == s.output;
    assert s'.log == s.log + [Dropped(s.lost)] && s'.lost == "";
    hide Separate, SparesOk, RecycleBuffers;
    FlattenFrame(s.memory, s'.memory, s.buffers);
    LogSnoc(s.log, Dropped(s.lost));
    var rest := Flatten(s.memory, s.buffers) + s.memory[s.current];
    LostAssoc(Stream(s.log), s.lost, rest);
    assert Flatten(s.memory, []) == "" && Flatten(s'.memory, []) == "";
    hide Stream, Kept, TextOf, Flatten;
  }

  lemma RecycleKeepsInv(s: State)
    requires Inv(s) && s.phase == Writing && s.done == |s.toWrite|
    ensures Inv(RecycleBuffers(s))
  {
    RecycleKeepsSeparate(s);
    RecycleKeepsSpares(s);
    SeparateIsAllocated(RecycleBuffers(s));
    RecycleKeepsConserved(s);
  }

  lemma StepKeepsInv(s: State, ev: Event)
    requires Inv(s) && Enabled(s, ev)
    ensures Step(s, ev).Some? && Inv(Step(s, ev).value)
  {
    hide Separate, Conserved;
    match ev
    case Append(line, newAddr) => AppendKeepsInv(s, line, newAddr);
    case Swap => SwapKeepsInv(s);
    case DropBacklog => DropKeepsInv(s);
    case WriteOne => WriteKeepsInv(s);
    case Recycle => RecycleKeepsInv(s);
  }

  /** No interleaving of producers and writer goes wrong (no missing spare, no pop from an empty
      batch), every buffer stays in exactly one slot, and every line taken is in the file, was
      dropped with its batch, or is still on its way, in order. */
  lemma {:induction false} RunKeepsInv(s: State, evs: seq<Event>)
    requires Inv(s) && IsRun(s, evs)
    ensures Run(s, evs).Some? && Inv(Run(s, evs).value)
    decreases |evs|
  {
    if evs != [] {
      StepKeepsInv(s, evs[0]);
      RunKeepsInv(Step(s, evs[0]).value, evs[1..]);
    }
  }

  // The buffers made by the constructor and at the start of the writer thread.
  function Start(a: Addr, b: Addr, c: Addr, d: Addr): State {
    State(map[a := "", b := "", c := "", d := ""], a, Some(b), [], LoopHead, Some(c), Some(d), [], 0, [], "", [], "")
  }

  lemma StartIsInv(a: Addr, b: Addr, c: Addr, d: Addr)
    requires a != b && a != c && a != d && b != c && b != d && c != d
    ensures Inv(Start(a, b, c, d))
  {
  }

  // The lines that the producers of a run append, without those as long as a buffer or longer.
  function Collected(evs: seq<Event>): string {
    if evs == [] then ""
    else (if evs[0].Append? && |evs[0].line| < 4000000 then evs[0].line else "") + Collected(evs[1..])
  }

  lemma AppendedStep(s: State, ev: Event)
    requires Step(s, ev).Some?
    ensures Step(s, ev).value.appended
         == s.appended + if ev.Append? && |ev.line| < 4000000 then ev.line else ""
  {
    hide Flatten, Recycled;
  }

  lemma {:induction false} AppendedIsEvents(s: State, evs: seq<Event>)
    requires Run(s, evs).Some?
    ensures Run(s, evs).value.appended == s.appended + Collected(evs)
    decreases |evs|
  {
    if evs != [] {
      AppendedStep(s, evs[0]);
      hide Step;
      AppendedIsEvents(Step(s, evs[0]).value, evs[1..]);
    }
  }

  /** In every run from the beginning no step goes wrong; every allocated buffer is in exactly one
      slot; both spares are there and empty at the loop head; and the lines the producers appended
      are, in order, those written or dropped, those of the batch in hand, and those still with the
      producers. */
  lemma EveryLineOnce(a: Addr, b: Addr, c: Addr, d: Addr, evs: seq<Event>)
    requires a != b && a != c && a != d && b != c && b != d && c != d
    requires IsRun(Start(a, b, c, d), evs)
    ensures Run(Start(a, b, c, d), evs).Some?
    ensures var s := Run(Start(a, b, c, d), evs).value;
            && (forall x :: Count(s, x) == if x in s.memory then 1 else 0)
            && Allocated(s) && Account(s) == Collected(evs) && Kept(s.log) == TextOf(s.output)
            && (s.phase == LoopHead ==> s.new1.Some? && s.new2.Some? && Empty(s, s.new1) && Empty(s, s.new2))
  {
    StartIsInv(a, b, c, d);
    RunKeepsInv(Start(a, b, c, d), evs);
    AppendedIsEvents(Start(a, b, c, d), evs);
    assert "" + Collected(evs) == Collected(evs);
    hide Count, Account, Kept, TextOf, Collected;
  }

  function Elements(bs: seq<Addr>): set<Addr> {
    set b | b in bs
  }

  lemma {:induction false} DistinctSize(bs: seq<Addr>)
    requires forall b :: b in bs ==> Occurs(b, bs) == 1
    ensures |Elements(bs)| == |bs|
    decreases |bs|
  {
    if bs != [] {
      var front, last := bs[..|bs| - 1], bs[|bs| - 1];
      assert bs == front + [last];
      forall b | b in front ensures Occurs(b, front) == 1 {
        OccursSnoc(b, front, last);
        OccursIn(b, front);
      }
      assert last !in front by {
        OccursSnoc(last, front, last);
        OccursIn(last, front);
      }
      DistinctSize(front);
      hide Occurs;
      assert Elements(bs) == Elements(front) + {last};
    }
  }

  lemma RestIsDistinct(s: State)
    requires Separate(s) && |s.toWrite| >= 2
    ensures |Elements(s.toWrite[2..])| == |s.toWrite| - 2
  {
    var gone := s.toWrite[2..];
    assert s.toWrite == s.toWrite[..2] + gone;
    forall b | b in gone ensures Occurs(b, gone) == 1 {
      ToWriteIsApart(s, b);
      OccursConcat(b, s.toWrite[..2], gone);
      OccursIn(b, gone);
    }
    DistinctSize(gone);
  }

  lemma SizeWithout(memory: map<Addr, string>, out: set<Addr>)
    requires out <= memory.Keys
    ensures (memory - out).Keys == memory.Keys - out && |memory - out| == |memory| - |out|
  {
    assert (memory - out).Keys == memory.Keys - out;
    assert |memory.Keys - out| == |memory.Keys| - |out|;
  }

  /** A backlog drop keeps the first two buffers of the batch, destroys exactly the others, and
      the notice says how many those were. */
  lemma DropTakesTheRest(s: State)
    requires Inv(s) && s.phase == Swapped && |s.toWrite| > 25
    ensures forall b :: b in s.toWrite ==> b in s.memory
    ensures var s' := Drop(s);
            && s'.toWrite == s.toWrite[..2] && s'.lost == Flatten(s.memory, s.toWrite[2..])
            && s'.memory.Keys == s.memory.Keys - Elements(s.toWrite[2..])
            && s'.output == s.output + [Notice(|s.memory| - |s'.memory|)]
  {
    RestIsDistinct(s);
    SizeWithout(s.memory, Elements(s.toWrite[2..]));
    DropShape(s);
    hide Inv, Drop, Elements, Flatten;
  }

  lemma DropShape(s: State)
    requires Allocated(s) && |s.toWrite| > BACKLOG
    ensures var s' := Drop(s);
            && s'.toWrite == s.toWrite[..2] && s'.lost == Flatten(s.memory, s.toWrite[2..])
            && s'.memory == s.memory - Elements(s.toWrite[2..])
            && s'.output == s.output + [Notice(|s.toWrite| - 2)]
  {
    hide Flatten;
  }

  /** A line is accounted for exactly when it is shorter than a buffer. */
  lemma LongLinesAreLost(s: State, line: string, newAddr: Addr)
    requires Inv(s) && newAddr !in s.memory
    ensures Safe(s, Append(line, newAddr)) && Allocated(AppendLine(s, line, newAddr))
    ensures Account(AppendLine(s, line, newAddr)) == Account(s) + line <==> |line| < 4000000
  {
    AppendKeepsInv(s, line, newAddr);
    hide Separate, SparesOk, Account, Kept, TextOf, Flatten;
    assert Account(AppendLine(s, line, newAddr)) == Account(s) + Taken(line);
  }

  // A line written into one buffer.
  lemma PutIn(memory: map<Addr, string>, b: Addr, text: string)
    ensures memory[b := text].Keys == memory.Keys + {b}
    ensures forall x :: x in memory && x != b ==> memory[b := text][x] == memory[x]
  {
  }

  /** A line goes into the current buffer exactly if that leaves room to spare; otherwise into the
      spare, and a buffer is allocated only when there is none.  No other contents change. */
  lemma AppendUsesSpareFirst(s: State, line: string, newAddr: Addr)
    requires Inv(s) && newAddr !in s.memory
    ensures Safe(s, Append(line, newAddr))
    ensures var s' := AppendLine(s, line, newAddr);
            var fits := |s.memory[s.current]| + |line| < 4000000;
            && (s'.current == s.current <==> fits)
            && (!fits && s.next.Some? ==> s'.current == s.next.value)
            && s'.memory.Keys == s.memory.Keys + (if !fits && s.next.None? then {newAddr} else {})
            && (forall b :: b in s.memory && b != s'.current ==> s'.memory[b] == s.memory[b])
  {
    SeparateIsAllocated(s);
    CurrentIsAlone(s);
    hide Inv;
    var s' := AppendLine(s, line, newAddr);
    assert s'.memory == s.memory[s'.current := s'.memory[s'.current]];
    hide Put, Taken;
    PutIn(s.memory, s'.current, s'.memory[s'.current]);
    if |s.memory[s.current]| + |line| < 4000000 {
      assert s'.current == s.current;
    } else if s.next.Some? {
      assert s'.current == s.next.value;
    } else {
      assert s'.current == newAddr;
    }
    hide AppendLine;
  }

  // ----- when nothing is dropped -----

  /** A batch of at most 25 buffers is written whole. */
  lemma SmallBatchIsKept(s: State)
    requires Inv(s) && s.phase == Swapped && |s.toWrite| <= 25
    ensures Step(s, DropBacklog) == Some(s.(phase := Writing))
  {
    hide Separate, Conserved, Flatten;
  }

  // Nothing has been dropped so far, and nothing is about to be.
  predicate Clean(s: State) {
    s.lost == "" && AllKept(s.log) && AllText(s.output) && (s.phase == Swapped ==> |s.toWrite| <= 25)
  }

  predicate AllKept(log: seq<Fate>) {
    forall f :: f in log && f.Dropped? ==> f.text == ""
  }

  predicate AllText(output: seq<Item>) {
    forall item :: item in output ==> item.Text?
  }

  // The writer never finds more than 25 buffers when it swaps.
  predicate KeepsUp(s: State, evs: seq<Event>)
    requires IsRun(s, evs)
    decreases |evs|
  {
    evs == [] ||
    ((evs[0] == Swap ==> |s.buffers| + 1 <= 25)
     && (Step(s, evs[0]).Some? ==> KeepsUp(Step(s, evs[0]).value, evs[1..])))
  }

  lemma WriteStaysClean(s: State)
    requires s.done < |s.toWrite| && s.toWrite[s.done] in s.memory && Clean(s) && s.phase == Writing
    ensures Clean(Write(s))
  {
  }

  lemma RecycleStaysClean(s: State)
    requires s.new1.None? && s.toWrite != [] && (s.new2.None? ==> |s.toWrite| >= 2) && Clean(s)
    ensures Clean(RecycleBuffers(s))
  {
    hide Recycled;
  }

  lemma AppendStaysClean(s: State, line: string, newAddr: Addr)
    requires Clean(s) && s.current in s.memory && (s.next.Some? ==> s.next.value in s.memory)
    ensures Clean(AppendLine(s, line, newAddr))
  {
    hide AllKept, AllText;
  }

  lemma SwapStaysClean(s: State)
    requires Clean(s) && s.new1.Some? && |s.buffers| + 1 <= 25
    ensures Clean(SwapBuffers(s))
  {
    hide AllKept, AllText;
  }

  lemma StepStaysClean(s: State, ev: Event)
    requires Inv(s) && Enabled(s, ev) && Clean(s) && (ev == Swap ==> |s.buffers| + 1 <= 25)
    ensures Step(s, ev).Some? && Clean(Step(s, ev).value)
  {
    StepKeepsInv(s, ev);
    match ev
    case Append(line, newAddr) =>
      hide Inv, Clean, AppendLine;
      AppendStaysClean(s, line, newAddr);
    case Swap =>
      hide Inv, Clean, SwapBuffers;
      SwapStaysClean(s);
    case DropBacklog =>
      hide Inv, AllKept, AllText, Step;
      SmallBatchIsKept(s);
    case WriteOne =>
      hide Inv, Clean, Write;
      WriteStaysClean(s);
    case Recycle =>
      hide Inv, Clean, RecycleBuffers;
      RecycleStaysClean(s);
  }

  lemma {:induction false} RunStaysClean(s: State, evs: seq<Event>)
    requires Inv(s) && IsRun(s, evs) && KeepsUp(s, evs) && Clean(s)
    ensures Run(s, evs).Some? && Inv(Run(s, evs).value) && Clean(Run(s, evs).value)
    decreases |evs|
  {
    hide Inv, Clean;
    if evs != [] {
      StepKeepsInv(s, evs[0]);
      StepStaysClean(s, evs[0]);
      RunStaysClean(Step(s, evs[0]).value, evs[1..]);
    }
  }

  /** In a run in which the writer keeps up, the file holds no notice, and what it holds, followed
      by the batch in hand and by what is still with the producers, is every line appended. */
  lemma EveryLineWritten(a: Addr, b: Addr, c: Addr, d: Addr, evs: seq<Event>)
    requires a != b && a != c && a != d && b != c && b != d && c != d
    requires IsRun(Start(a, b, c, d), evs) && KeepsUp(Start(a, b, c, d), evs)
    ensures Run(Start(a, b, c, d), evs).Some?
    ensures var s := Run(Start(a, b, c, d), evs).value;
            && Allocated(s) && (forall item :: item in s.output ==> item.Text?)
            && TextOf(s.output) + Flatten(s.memory, s.toWrite[s.done..])
               + (Flatten(s.memory, s.buffers) + s.memory[s.current]) == Collected(evs)
  {
    StartIsInv(a, b, c, d);
    RunStaysClean(Start(a, b, c, d), evs);
    var s := Run(Start(a, b, c, d), evs).value;
    EveryLineOnce(a, b, c, d, evs);
    KeptIsStream(s.log);
    assert Flatten(s.memory, s.toWrite[s.done..]) + "" == Flatten(s.memory, s.toWrite[s.done..]);
    hide Stream, Kept, TextOf, Collected, Flatten, Count, Separate;
  }

  // ----- what a turn of the writer's loop settles -----

  // The lines that are in the log or will be when the present batch is done with.
  ghost function Claim(s: State): string
    requires Inv(s)
  {
    Stream(s.log) + (Flatten(s.memory, s.toWrite[s.done..]) + s.lost)
  }

  lemma Cut(claim: string, rest: string, whole: string, claim': string, rest': string, whole': string)
    requires claim + rest == whole && claim' + rest' == whole' && rest' == rest && whole' == whole
    ensures claim' == claim
  {
    assert (claim + rest)[..|claim|] == claim && (claim' + rest')[..|claim'|] == claim';
  }

  lemma AppendKeepsClaim(s: State, line: string, newAddr: Addr)
    requires Inv(s) && newAddr !in s.memory
    ensures Safe(s, Append(line, newAddr)) && Inv(AppendLine(s, line, newAddr))
    ensures Claim(AppendLine(s, line, newAddr)) == Claim(s)
  {
    AppendKeepsInv(s, line, newAddr);
    CurrentIsAlone(s);
    hide Separate, Conserved;
    FlattenFrame(s.memory, AppendLine(s, line, newAddr).memory, s.toWrite[s.done..]);
  }

  // The producers' buffers hold the same in both states.
  predicate SameForProducers(s: State, s': State) {
    && s'.appended == s.appended && s'.buffers == s.buffers && s'.current == s.current
    && forall b :: b in s.buffers + [s.current] ==> b in s.memory && b in s'.memory && s'.memory[b] == s.memory[b]
  }

  // The other steps do not touch the producers' side, so the claim is what conservation leaves.
  lemma WriterKeepsClaim(s: State, s': State)
    requires Inv(s) && Inv(s') && SameForProducers(s, s')
    ensures Claim(s') == Claim(s)
  {
    FlattenFrame(s.memory, s'.memory, s.buffers);
    assert s'.memory[s'.current] == s.memory[s.current];
    hide Separate, SparesOk, Flatten, Stream, Kept, TextOf, SameForProducers;
    var rest := Flatten(s.memory, s.buffers) + s.memory[s.current];
    Cut(Claim(s), rest, s.appended, Claim(s'), rest, s'.appended);
  }

  lemma ProducersApart(s: State, b: Addr)
    requires Inv(s) && b in s.buffers + [s.current]
    ensures b in s.memory && b !in s.toWrite
  {
    if b in s.toWrite { ToWriteIsApart(s, b); }
  }

  lemma DropChanges(s: State)
    requires Allocated(s)
    ensures var s' := Drop(s);
            && s'.appended == s.appended && s'.buffers == s.buffers && s'.current == s.current
            && forall b :: b in s.memory && b !in s.toWrite ==> b in s'.memory && s'.memory[b] == s.memory[b]
  {
    hide Flatten;
    var s' := Drop(s);
    if |s.toWrite| > BACKLOG {
      assert s'.memory == s.memory - (set b | b in s.toWrite[2..]);
    }
  }

  lemma DropLeavesProducers(s: State)
    requires Inv(s)
    ensures SameForProducers(s, Drop(s))
  {
    DropChanges(s);
    forall b | b in s.buffers + [s.current] ensures b in s.memory && b !in s.toWrite {
      ProducersApart(s, b);
    }
    hide Inv, Drop;
  }

  lemma DropKeepsClaim(s: State)
    requires Inv(s) && s.phase == Swapped
    ensures Inv(Drop(s)) && Claim(Drop(s)) == Claim(s)
  {
    DropKeepsInv(s);
    DropLeavesProducers(s);
    hide *;
    WriterKeepsClaim(s, Drop(s));
  }

  lemma RecycleLeavesProducers(s: State)
    requires Inv(s) && s.phase == Writing
    ensures SameForProducers(s, RecycleBuffers(s))
  {
    forall b | b in s.buffers + [s.current] ensures b in s.memory && b !in s.toWrite {
      ProducersApart(s, b);
    }
    hide Separate, Conserved, Flatten;
  }

  lemma RecycleKeepsClaim(s: State)
    requires Inv(s) && s.phase == Writing && s.done == |s.toWrite|
    ensures Inv(RecycleBuffers(s)) && Claim(RecycleBuffers(s)) == Claim(s)
  {
    RecycleKeepsInv(s);
    RecycleLeavesProducers(s);
    hide *;
    WriterKeepsClaim(s, RecycleBuffers(s));
  }

  lemma WriteKeepsClaim(s: State)
    requires Inv(s) && s.phase == Writing && s.done < |s.toWrite|
    ensures Inv(Write(s)) && Claim(Write(s)) == Claim(s)
  {
    WriteKeepsInv(s);
    hide Separate, Conserved, Flatten;
    WriterKeepsClaim(s, Write(s));
  }

  lemma SwapClaims(s: State)
    requires Inv(s) && s.phase == LoopHead
    ensures Inv(SwapBuffers(s)) && Claim(SwapBuffers(s)) == s.appended
  {
    SwapKeepsInv(s);
    hide Separate, Stream, Kept, TextOf;
    assert Claim(SwapBuffers(s)) + ("" + "") == s.appended;
  }

  /** Swapping claims all lines appended so far; no other step changes the claim. */
  lemma StepKeepsClaim(s: State, ev: Event)
    requires Inv(s) && Enabled(s, ev)
    ensures Step(s, ev).Some? && Inv(Step(s, ev).value)
    ensures Claim(Step(s, ev).value) == if ev == Swap then s.appended else Claim(s)
  {
    StepKeepsInv(s, ev);
    hide Inv, Claim, AppendLine, SwapBuffers, Drop, Write, RecycleBuffers;
    match ev
    case Append(line, newAddr) => AppendKeepsClaim(s, line, newAddr);
    case Swap => SwapClaims(s);
    case DropBacklog => DropKeepsClaim(s);
    case WriteOne => WriteKeepsClaim(s);
    case Recycle => RecycleKeepsClaim(s);
  }

  lemma {:induction false} RunKeepsClaim(s: State, evs: seq<Event>)
    requires Inv(s) && IsRun(s, evs) && Swap !in evs
    ensures Run(s, evs).Some? && Inv(Run(s, evs).value) && Claim(Run(s, evs).value) == Claim(s)
    decreases |evs|
  {
    hide Inv, Claim;
    if evs != [] {
      assert evs[0] != Swap;
      StepKeepsClaim(s, evs[0]);
      RunKeepsClaim(Step(s, evs[0]).value, evs[1..]);
    }
  }

  lemma SettledAtHead(s: State)
    requires Inv(s) && s.phase == LoopHead
    ensures Claim(s) == Stream(s.log)
  {
    hide Separate, Conserved, Stream;
  }

  /** When the writer is back at the head of its loop, the lines it has written or dropped are
      exactly those appended before it last swapped, whatever was appended since. */
  lemma TurnSettles(s: State, evs: seq<Event>)
    requires Inv(s) && s.phase == LoopHead && IsRun(s, [Swap] + evs) && Swap !in evs
    ensures Run(s, [Swap] + evs).Some?
    ensures var s' := Run(s, [Swap] + evs).value;
            s'.phase == LoopHead ==> Stream(s'.log) == s.appended
  {
    assert ([Swap] + evs)[1..] == evs;
    StepKeepsClaim(s, Swap);
    RunKeepsClaim(Step(s, Swap).value, evs);
    var s' := Run(s, [Swap] + evs).value;
    if s'.phase == LoopHead {
      SettledAtHead(s');
    }
    hide Inv, Claim;
  }

  /** The file holds, besides notices, exactly the lines taken, in order, up to those still on
      their way, unless a drop took some out. */
  lemma FileIsPrefix(s: State)
    requires Inv(s)
    requires forall f :: f in s.log && f.Dropped? ==> f.text == ""
    ensures TextOf(s.output) <= s.appended
  {
    KeptIsStream(s.log);
    hide Flatten, Stream, Kept, TextOf, Separate;
    assert Stream(s.log) <= Account(s);
  }

  lemma {:induction false} KeptIsStream(log: seq<Fate>)
    requires forall f :: f in log && f.Dropped? ==> f.text == ""
    ensures Kept(log) == Stream(log)
  {
    if log != [] {
      assert log[|log| - 1] in log;
      KeptIsStream(log[..|log| - 1]);
    }
  }
}
