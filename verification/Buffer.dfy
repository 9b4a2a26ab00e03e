/** The growing byte buffer: a prependable, a readable and a writable region in one array,
    compacted in place or reallocated when the writable region is too small. */
module Buffer {

  type Byte = x: int | 0 <= x < 256

  const CHEAP_PREPEND: nat := 8
  const INITIAL_SIZE: nat := 1024

  // What a buffer looks like from outside: its bytes, the room in front of them, and its size.
  datatype Shape = Shape(bytes: seq<Byte>, prependable: nat, size: nat) {
    function Writable(): int {
      size - prependable - |bytes|
    }

    // Making room moves the bytes to the front if that is enough, and grows the array if not.
    function MakeRoom(len: nat): Shape {
      if Writable() >= len then this
      else if Writable() + prependable < len + CHEAP_PREPEND then this.(size := prependable + |bytes| + len)
      else this.(prependable := CHEAP_PREPEND)
    }

    function Append(data: seq<Byte>): Shape {
      var s := MakeRoom(|data|);
      s.(bytes := s.bytes + data)
    }

    // The kernel fills the writable region first; what does not fit is appended.
    function Read(result: ReadResult): Shape {
      if result.Failed? then this
      else if |result.data| <= Writable() then this.(bytes := bytes + result.data)
      else if Writable() < 0 then this
      else this.(bytes := bytes + result.data[..Writable()]).Append(result.data[Writable()..])
    }

    function Retrieve(len: nat): Shape
      requires len <= |bytes|
    {
      if len < |bytes| then this.(bytes := bytes[len..], prependable := prependable + len)
      else this.(bytes := [], prependable := CHEAP_PREPEND)
    }
  }

  const Fresh := Shape([], CHEAP_PREPEND, CHEAP_PREPEND + INITIAL_SIZE)

  datatype ReadResult = Failed(errno: int) | Read(data: seq<Byte>)

  // `std::copy` within one array, front to back, toward the front.
  method MoveDown(a: array<Byte>, dest: nat, first: nat, last: nat)
    requires dest <= first <= last <= a.Length
    modifies a
    ensures a[dest..dest + (last - first)] == old(a[first..last])
  {
    for i := 0 to last - first
      invariant a[dest..dest + i] == old(a[first..first + i])
      invariant forall k :: dest + i <= k < a.Length ==> a[k] == old(a[k])
    {
      a[dest + i] := a[first + i];
    }
  }

  // `std::vector::resize` to a larger size.
  method Resized(a: array<Byte>, size: nat) returns (grown: array<Byte>)
    requires a.Length <= size
    ensures fresh(grown) && grown.Length == size && forall k :: 0 <= k < a.Length ==> grown[k] == a[k]
  {
    grown := new Byte[size];
    for i := 0 to size
      invariant forall k :: 0 <= k < i && k < a.Length ==> grown[k] == a[k]
    {
      grown[i] := if i < a.Length then a[i] else 0;
    }
  }

  // `std::copy` into an array.
  method CopyIn(a: array<Byte>, dest: nat, data: seq<Byte>)
    requires dest + |data| <= a.Length
    modifies a
    ensures a[dest..dest + |data|] == data
    ensures forall k :: 0 <= k < dest || dest + |data| <= k < a.Length ==> a[k] == old(a[k])
  {
    forall i | 0 <= i < |data| {
      a[dest + i] := data[i];
    }
  }

  class Buffer {
    var buffer: array<Byte>
    var readerIndex: nat
    var writerIndex: nat

    ghost predicate Valid()
      reads this
    {
      readerIndex <= writerIndex <= buffer.Length && CHEAP_PREPEND <= buffer.Length
    }

    ghost function View(): Shape
      requires Valid()
      reads this, buffer
    {
      Shape(buffer[readerIndex..writerIndex], readerIndex, buffer.Length)
    }

    ghost function Contents(): seq<Byte>
      requires Valid()
      reads this, buffer
    {
      buffer[readerIndex..writerIndex]
    }

    constructor ()
      ensures Valid() && View() == Fresh && fresh(buffer)
      ensures PrependableBytes() == 8 && ReadableBytes() == 0 && WritableBytes() == 1024
    {
      buffer := new Byte[CHEAP_PREPEND + INITIAL_SIZE];
      readerIndex := CHEAP_PREPEND;
      writerIndex := CHEAP_PREPEND;
    }

    function ReadableBytes(): int
      reads this
    {
      writerIndex - readerIndex
    }

    function WritableBytes(): int
      reads this
    {
      buffer.Length - writerIndex
    }

    function PrependableBytes(): nat
      reads this
    {
      readerIndex
    }

    method RetrieveAll()
      requires Valid()
      modifies this`readerIndex, this`writerIndex
      ensures Valid() && View() == old(View()).(bytes := [], prependable := CHEAP_PREPEND)
    {
      readerIndex := CHEAP_PREPEND;
      writerIndex := CHEAP_PREPEND;
    }

    method Retrieve(len: nat)
      requires Valid() && len <= ReadableBytes()
      modifies this`readerIndex, this`writerIndex
      ensures Valid() && View() == old(View()).Retrieve(len)
    {
      if len < ReadableBytes() {
        readerIndex := readerIndex + len;
      } else {
        RetrieveAll();
      }
    }

    method RetrieveAsString(len: nat) returns (result: seq<Byte>)
      requires Valid() && len <= ReadableBytes()
      modifies this`readerIndex, this`writerIndex
      ensures Valid() && View() == old(View()).Retrieve(len)
      ensures result + Contents() == old(Contents())
    {
      result := buffer[readerIndex..readerIndex + len];
      Retrieve(len);
    }

    /** Makes the writable region at least `len` bytes long without changing the contents: by
        moving them to the front, over themselves, or by growing the array. */
    method MakeSpace(len: nat)
      requires Valid() && WritableBytes() < len
      modifies this, buffer
      ensures Valid() && WritableBytes() >= len && View() == old(View()).MakeRoom(len)
      ensures fresh(buffer) || buffer == old(buffer)
    {
      if WritableBytes() + PrependableBytes() < len + CHEAP_PREPEND {
        var grown := Resized(buffer, writerIndex + len);
        assert grown[readerIndex..writerIndex] == buffer[readerIndex..writerIndex];
        buffer := grown;
      } else {
        assert CHEAP_PREPEND < readerIndex;
        var readable := ReadableBytes();
        MoveDown(buffer, CHEAP_PREPEND, readerIndex, writerIndex);
        readerIndex := CHEAP_PREPEND;
        writerIndex := readerIndex + readable;
        assert readable == ReadableBytes();
      }
    }

    method EnsureWritableBytes(len: nat)
      requires Valid()
      modifies this, buffer
      ensures Valid() && WritableBytes() >= len && View() == old(View()).MakeRoom(len)
      ensures fresh(buffer) || buffer == old(buffer)
    {
      if WritableBytes() < len {
        MakeSpace(len);
      }
    }

    method Append(data: seq<Byte>)
      requires Valid()
      modifies this, buffer
      ensures Valid() && View() == old(View()).Append(data)
      ensures fresh(buffer) || buffer == old(buffer)
    {
      EnsureWritableBytes(|data|);
      Fill(data);
    }

    method Prepend(data: seq<Byte>)
      requires Valid() && |data| <= PrependableBytes()
      modifies this`readerIndex, buffer
      ensures Valid()
      ensures View() == old(View()).(bytes := data + old(Contents()), prependable := old(readerIndex) - |data|)
    {
      ghost var first, was := readerIndex, Contents();
      readerIndex := readerIndex - |data|;
      CopyIn(buffer, readerIndex, data);
      assert buffer[readerIndex..first] == data && buffer[first..writerIndex] == was;
      assert buffer[readerIndex..writerIndex] == buffer[readerIndex..first] + buffer[first..writerIndex];
    }

    /** Replaces the array by one with room for the contents and `reserve` more bytes. */
    method Shrink(reserve: nat)
      requires Valid()
      modifies this
      ensures Valid() && fresh(buffer)
      ensures View() == Fresh.MakeRoom(|old(Contents())| + reserve).Append(old(Contents()))
      ensures Contents() == old(Contents()) && WritableBytes() >= reserve
    {
      var other := new Buffer();
      other.EnsureWritableBytes(ReadableBytes() + reserve);
      other.Append(buffer[readerIndex..writerIndex]);
      buffer, readerIndex, writerIndex := other.buffer, other.readerIndex, other.writerIndex;
    }

    // Bytes arrive in the writable region.
    method Fill(data: seq<Byte>)
      requires Valid() && |data| <= WritableBytes()
      modifies this`writerIndex, buffer
      ensures Valid() && View() == old(View()).(bytes := old(Contents()) + data)
    {
      ghost var last, was := writerIndex, Contents();
      CopyIn(buffer, writerIndex, data);
      writerIndex := writerIndex + |data|;
      assert buffer[readerIndex..last] == was && buffer[last..writerIndex] == data;
      assert buffer[readerIndex..writerIndex] == buffer[readerIndex..last] + buffer[last..writerIndex];
    }

    // More bytes arrive than the writable region takes: the rest is appended from the extra area.
    method FillAndAppend(data: seq<Byte>)
      requires Valid() && |data| > WritableBytes()
      modifies this, buffer
      ensures Valid() && (fresh(buffer) || buffer == old(buffer))
      ensures View() == old(View()).Read(Read(data)) && Contents() == old(Contents()) + data
    {
      ghost var before := View();
      var writable := WritableBytes();
      Fill(data[..writable]);
      ghost var filled := View();
      assert filled == before.(bytes := before.bytes + data[..writable]);
      Append(data[writable..]);
      assert before.bytes + data[..writable] + data[writable..] == before.bytes + data;
    }

    /** Scatter read: the kernel fills the writable region first and then an extra area, whose
        bytes are appended. */
    method ReadFd(result: ReadResult) returns (n: int)
      requires Valid()
      requires result.Read? ==> |result.data| <= WritableBytes() + 65536
      modifies this, buffer
      ensures Valid() && (fresh(buffer) || buffer == old(buffer))
      ensures View() == old(View()).Read(result)
      ensures result.Failed? ==> n == -1
      ensures result.Read? ==> n == |result.data| && Contents() == old(Contents()) + result.data
    {
      match result
      case Failed(errno) =>
        n := -1;
      case Read(data) =>
        n := |data|;
        if n <= WritableBytes() {
          Fill(data);
        } else {
          FillAndAppend(data);
        }
    }

    // One operation on the buffer is one on a plain byte queue.
    method Perform(op: Op) returns (out: seq<Byte>)
      requires Valid() && Allowed(View(), op)
      modifies this, buffer
      ensures Valid() && (fresh(buffer) || buffer == old(buffer))
      ensures View() == Apply(old(View()), op)
      ensures Contents() == Left(old(Contents()), op) && out == Out(old(Contents()), op)
    {
      out := [];
      match op
      case AppendOp(data) => Append(data);
      case RetrieveOp(len) => out := RetrieveAsString(len);
      case PrependOp(data) => Prepend(data);
      case ShrinkOp(reserve) => Shrink(reserve);
      case ReadOp(result) => var _ := ReadFd(result);
    }

    method PerformAll(ops: seq<Op>) returns (out: seq<Byte>)
      requires Valid() && AllAllowed(View(), ops)
      modifies this, buffer
      ensures Valid() && (fresh(buffer) || buffer == old(buffer))
      ensures Contents() == LeftAfter(old(Contents()), ops) && out == OutBy(old(Contents()), ops)
    {
      hide *;
      ghost var start := Contents();
      out := [];
      assert ops[0..] == ops;
      for i := 0 to |ops|
        invariant Valid() && (fresh(buffer) || buffer == old(buffer))
        invariant AllAllowed(View(), ops[i..])
        invariant LeftAfter(Contents(), ops[i..]) == LeftAfter(start, ops)
        invariant out + OutBy(Contents(), ops[i..]) == OutBy(start, ops)
      {
        ghost var q := Contents();
        Unfold(View(), q, ops, i);
        var more := Perform(ops[i]);
        Assoc(out, more, OutBy(Contents(), ops[i + 1..]));
        out := out + more;
      }
      assert ops[|ops|..] == [];
      Finished(Contents());
    }

    /** Through every sequence of operations the buffer, with its array compacted in place or
        replaced, gives out and holds what a plain byte queue would; and without prepends what
        went out followed by what is left is what was there followed by what came in. */
    method Drive(ops: seq<Op>) returns (out: seq<Byte>)
      requires Valid() && AllAllowed(View(), ops)
      modifies this, buffer
      ensures Valid() && (fresh(buffer) || buffer == old(buffer))
      ensures Contents() == LeftAfter(old(Contents()), ops) && out == OutBy(old(Contents()), ops)
      ensures Fifo(ops) ==> out + Contents() == old(Contents()) + ArrivingBy(ops)
    {
      if Fifo(ops) {
        QueueConserves(Contents(), ops);
      }
      hide *;
      out := PerformAll(ops);
    }

    /** Appends an integer in network byte order, `width` bytes wide. */
    method AppendInt(x: int, width: nat)
      requires Valid() && Width(width) && FitsSigned(x, width)
      modifies this, buffer
      ensures Valid() && View() == old(View()).Append(Encode(x, width))
      ensures fresh(buffer) || buffer == old(buffer)
    {
      Append(Encode(x, width));
    }

    method PrependInt(x: int, width: nat)
      requires Valid() && Width(width) && FitsSigned(x, width) && width <= PrependableBytes()
      modifies this`readerIndex, buffer
      ensures Valid() && Contents() == Encode(x, width) + old(Contents())
    {
      EncodeLength(Unsigned(x, width), width);
      Prepend(Encode(x, width));
    }

    method PeekInt(width: nat) returns (x: int)
      requires Valid() && Width(width) && ReadableBytes() >= width
      ensures FitsSigned(x, width) && Encode(x, width) == Contents()[..width]
    {
      var bytes := buffer[readerIndex..readerIndex + width];
      assert bytes == Contents()[..width];
      EncodeOfDecode(bytes, width);
      x := Decode(bytes, width);
    }

    /** Reads an integer; what was appended or prepended as x is read as x, since no two values
        have the same encoding. */
    method ReadInt(width: nat) returns (x: int)
      requires Valid() && Width(width) && ReadableBytes() >= width
      modifies this`readerIndex, this`writerIndex
      ensures Valid() && FitsSigned(x, width)
      ensures Encode(x, width) + Contents() == old(Contents())
    {
      x := PeekInt(width);
      Retrieve(width);
    }
  }

  // ----- integers in network byte order -----

  predicate Width(width: nat) {
    width == 1 || width == 2 || width == 4
  }

  function Range(width: nat): (r: nat)
    ensures r > 0
  {
    if width == 0 then 1 else 256 * Range(width - 1)
  }

  predicate FitsSigned(x: int, width: nat) {
    -(Range(width) as int) <= 2 * x < Range(width)
  }

  // Two's complement.
  function Unsigned(x: int, width: nat): nat
    requires FitsSigned(x, width)
  {
    if x < 0 then x + Range(width) else x
  }

  function BigEndian(u: nat, width: nat): seq<Byte> {
    if width == 0 then [] else BigEndian(u / 256, width - 1) + [u % 256]
  }

  function FromBigEndian(bytes: seq<Byte>): nat {
    if bytes == [] then 0 else 256 * FromBigEndian(bytes[..|bytes| - 1]) + bytes[|bytes| - 1]
  }

  function Encode(x: int, width: nat): seq<Byte>
    requires FitsSigned(x, width)
  {
    BigEndian(Unsigned(x, width), width)
  }

  function Decode(bytes: seq<Byte>, width: nat): int {
    var u := FromBigEndian(bytes);
    if 2 * u < Range(width) then u else u - Range(width)
  }

  lemma {:induction false} EncodeLength(u: nat, width: nat)
    ensures |BigEndian(u, width)| == width
  {
    if width > 0 {
      EncodeLength(u / 256, width - 1);
    }
  }

  lemma {:induction false} FromOfBigEndian(u: nat, width: nat)
    requires u < Range(width)
    ensures FromBigEndian(BigEndian(u, width)) == u
  {
    if width > 0 {
      FromOfBigEndian(u / 256, width - 1);
      EncodeLength(u / 256, width - 1);
      var bytes := BigEndian(u, width);
      assert bytes[..|bytes| - 1] == BigEndian(u / 256, width - 1);
    }
  }

  lemma {:induction false} BigEndianOfFrom(bytes: seq<Byte>)
    ensures BigEndian(FromBigEndian(bytes), |bytes|) == bytes && FromBigEndian(bytes) < Range(|bytes|)
  {
    if bytes != [] {
      BigEndianOfFrom(bytes[..|bytes| - 1]);
      var u := FromBigEndian(bytes);
      assert u / 256 == FromBigEndian(bytes[..|bytes| - 1]) && u % 256 == bytes[|bytes| - 1];
    }
  }

  lemma Ranges()
    ensures Range(1) == 256 && Range(2) == 65536 && Range(4) == 4294967296
  {
    assert Range(3) == 256 * Range(2);
  }

  lemma DivideTwice(u: nat)
    ensures u / 256 / 256 == u / 65536 && u / 256 / 65536 == u / 16777216
  {
  }

  lemma {:induction false} BigEndianAt(u: nat, width: nat, i: nat)
    requires i < width <= 4
    ensures |BigEndian(u, width)| == width && BigEndian(u, width)[i] == u / Range(width - 1 - i) % 256
    decreases width
  {
    EncodeLength(u, width);
    EncodeLength(u / 256, width - 1);
    if i < width - 1 {
      BigEndianAt(u / 256, width - 1, i);
      Ranges();
      DivideTwice(u);
      assert Range(3) == 256 * Range(2);
    }
  }

  /** The bytes are those of the two's complement of the value, the most significant one first. */
  lemma EncodeBytes(x: int, width: nat, i: nat)
    requires Width(width) && FitsSigned(x, width) && i < width
    ensures |Encode(x, width)| == width
    ensures Encode(x, width)[i] == x % Range(width) / Range(width - 1 - i) % 256
    ensures Range(0) == 1 && Range(1) == 256 && Range(2) == 65536 && Range(3) == 16777216 && Range(4) == 4294967296
  {
    Ranges();
    assert Range(3) == 256 * Range(2);
    BigEndianAt(Unsigned(x, width), width, i);
    assert x % Range(width) == Unsigned(x, width);
    hide BigEndian;
  }

  /** Reading back what was written gives the value, for every value of the type. */
  lemma DecodeOfEncode(x: int, width: nat)
    requires Width(width) && FitsSigned(x, width)
    ensures Decode(Encode(x, width), width) == x
  {
    Ranges();
    hide Range, BigEndian, FromBigEndian;
    FromOfBigEndian(Unsigned(x, width), width);
  }

  lemma EncodeOfDecode(bytes: seq<Byte>, width: nat)
    requires Width(width) && |bytes| == width
    ensures FitsSigned(Decode(bytes, width), width) && Encode(Decode(bytes, width), width) == bytes
  {
    Ranges();
    hide Range, BigEndian, FromBigEndian;
    BigEndianOfFrom(bytes);
  }

  // ----- sequences of operations -----

  datatype Op =
    | AppendOp(data: seq<Byte>) | RetrieveOp(len: nat) | PrependOp(data: seq<Byte>)
    | ShrinkOp(reserve: nat) | ReadOp(result: ReadResult)

  predicate Allowed(s: Shape, op: Op) {
    match op
    case AppendOp(_) => true
    case RetrieveOp(len) => len <= |s.bytes|
    case PrependOp(data) => |data| <= s.prependable
    case ShrinkOp(_) => true
    case ReadOp(result) => result.Read? ==> |result.data| <= s.Writable() + 65536
  }

  function Apply(s: Shape, op: Op): Shape
    requires Allowed(s, op)
  {
    match op
    case AppendOp(data) => s.Append(data)
    case RetrieveOp(len) => s.Retrieve(len)
    case PrependOp(data) => s.(bytes := data + s.bytes, prependable := s.prependable - |data|)
    case ShrinkOp(reserve) => Fresh.MakeRoom(|s.bytes| + reserve).Append(s.bytes)
    case ReadOp(result) => s.Read(result)
  }

  // The bytes an operation brings in at the end.
  function Arriving(op: Op): seq<Byte> {
    match op
    case AppendOp(data) => data
    case ReadOp(Read(data)) => data
    case _ => []
  }

  // A plain byte queue: what an operation leaves in it, and what it takes out.
  function Left(q: seq<Byte>, op: Op): seq<Byte> {
    match op
    case RetrieveOp(len) => if len <= |q| then q[len..] else []
    case PrependOp(data) => data + q
    case _ => q + Arriving(op)
  }

  function Out(q: seq<Byte>, op: Op): seq<Byte> {
    if op.RetrieveOp? then if op.len <= |q| then q[..op.len] else q else []
  }

  function LeftAfter(q: seq<Byte>, ops: seq<Op>): seq<Byte>
    decreases |ops|
  {
    if ops == [] then q else LeftAfter(Left(q, ops[0]), ops[1..])
  }

  function OutBy(q: seq<Byte>, ops: seq<Op>): seq<Byte>
    decreases |ops|
  {
    if ops == [] then [] else Out(q, ops[0]) + OutBy(Left(q, ops[0]), ops[1..])
  }

  predicate AllAllowed(s: Shape, ops: seq<Op>)
    decreases |ops|
  {
    ops == [] || (Allowed(s, ops[0]) && AllAllowed(Apply(s, ops[0]), ops[1..]))
  }

  // No prepends.
  predicate Fifo(ops: seq<Op>) {
    forall i :: 0 <= i < |ops| ==> !ops[i].PrependOp?
  }

  function ArrivingBy(ops: seq<Op>): seq<Byte> {
    if ops == [] then [] else Arriving(ops[0]) + ArrivingBy(ops[1..])
  }

  ghost predicate WellShaped(s: Shape) {
    CHEAP_PREPEND <= s.size && s.Writable() >= 0
  }

  lemma {:induction false} QueueConserves(q: seq<Byte>, ops: seq<Op>)
    requires Fifo(ops)
    ensures OutBy(q, ops) + LeftAfter(q, ops) == q + ArrivingBy(ops)
    decreases |ops|
  {
    if ops != [] {
      var left := Left(q, ops[0]);
      QueueConserves(left, ops[1..]);
      StepConserves(q, ops[0]);
      Regroup(Out(q, ops[0]), left, q, Arriving(ops[0]),
              OutBy(left, ops[1..]), LeftAfter(left, ops[1..]), ArrivingBy(ops[1..]));
    }
  }

  lemma StepConserves(q: seq<Byte>, op: Op)
    requires !op.PrependOp?
    ensures Out(q, op) + Left(q, op) == q + Arriving(op)
  {
  }

  lemma Assoc(a: seq<Byte>, b: seq<Byte>, c: seq<Byte>)
    ensures a + (b + c) == a + b + c
  {
  }

  lemma Finished(q: seq<Byte>)
    ensures LeftAfter(q, []) == q && OutBy(q, []) == []
  {
  }

  // One step along a sequence of operations.
  lemma Unfold(s: Shape, q: seq<Byte>, ops: seq<Op>, i: nat)
    requires i < |ops|
    ensures AllAllowed(s, ops[i..]) ==> Allowed(s, ops[i]) && AllAllowed(Apply(s, ops[i]), ops[i + 1..])
    ensures LeftAfter(q, ops[i..]) == LeftAfter(Left(q, ops[i]), ops[i + 1..])
    ensures OutBy(q, ops[i..]) == Out(q, ops[i]) + OutBy(Left(q, ops[i]), ops[i + 1..])
  {
    assert ops[i..][0] == ops[i] && ops[i..][1..] == ops[i + 1..];
  }

  lemma Regroup(out: seq<Byte>, left: seq<Byte>, q: seq<Byte>, data: seq<Byte>,
                outs: seq<Byte>, last: seq<Byte>, ins: seq<Byte>)
    requires out + left == q + data && outs + last == left + ins
    ensures out + outs + last == q + (data + ins)
  {
    assert out + outs + last == out + (outs + last);
    assert out + (left + ins) == (out + left) + ins;
    assert (q + data) + ins == q + (data + ins);
  }

  /** The array grows only when contents, new bytes and the cheap prepend do not fit into it, and
      then to less than the contents and twice the new bytes and the prepend. */
  lemma GrowsOnlyWhenFull(s: Shape, len: nat)
    requires WellShaped(s) && s.Writable() < len
    ensures s.MakeRoom(len).size > s.size <==> |s.bytes| + len + 8 > s.size
    ensures s.MakeRoom(len).size > s.size ==> s.MakeRoom(len).size < |s.bytes| + 2 * len + 8
    ensures s.MakeRoom(len).size <= s.size ==> s.prependable > 8 && s.MakeRoom(len).prependable == 8
  {
  }
}
