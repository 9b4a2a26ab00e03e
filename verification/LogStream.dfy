/** Formatting numbers into a fixed buffer: digits are produced from the least significant
    one, through a moving pointer, and then reversed in place. */
module LogStream {
  import opened CArith

  // ----- numerals -----

  const HEX_DIGITS := "0123456789ABCDEF"

  function DigitChar(d: nat): char
    requires d < 16
  {
    HEX_DIGITS[d]
  }

  predicate Base(base: nat) {
    base == 10 || base == 16
  }

  /** The numeral of a natural number, most significant digit first. */
  function Numeral(n: nat, base: nat): string
    requires Base(base)
  {
    if n < base then [DigitChar(n)] else Numeral(n / base, base) + [DigitChar(n % base)]
  }

  function Decimal(v: int): string {
    if v < 0 then "-" + Numeral(-v, 10) else Numeral(v, 10)
  }

  predicate IsDigit(c: char, base: nat)
    requires Base(base)
  {
    DigitValue(c) < base && c == DigitChar(DigitValue(c))
  }

  function DigitValue(c: char): nat {
    if '0' <= c <= '9' then (c - '0') as nat else if 'A' <= c <= 'F' then (c - 'A') as nat + 10 else 0
  }

  function ParseNumeral(s: string, base: nat): nat {
    if s == [] then 0 else base * ParseNumeral(s[..|s| - 1], base) + DigitValue(s[|s| - 1])
  }

  function Parse(s: string): int {
    if s != [] && s[0] == '-' then -(ParseNumeral(s[1..], 10) as int) else ParseNumeral(s, 10)
  }

  // Digits only, and no leading zero unless the numeral is "0".
  predicate CanonicalNumeral(s: string, base: nat)
    requires Base(base)
  {
    && s != []
    && (forall i :: 0 <= i < |s| ==> IsDigit(s[i], base))
    && (s[0] == '0' ==> |s| == 1)
  }

  predicate Canonical(s: string) {
    if s != [] && s[0] == '-' then CanonicalNumeral(s[1..], 10) && s[1..] != "0" else CanonicalNumeral(s, 10)
  }

  lemma DigitValues(d: nat)
    requires d < 16
    ensures DigitValue(DigitChar(d)) == d
    ensures DigitChar(d) == '0' <==> d == 0
    ensures DigitChar(d) != '-'
  {
  }

  lemma Division(n: nat, base: nat)
    requires Base(base)
    ensures n == base * (n / base) + n % base && n % base < base
    ensures n >= base ==> 0 < n / base < n
  {
  }

  /** A numeral is canonical and means the number it was made from. */
  lemma {:induction false} ParseOfNumeral(n: nat, base: nat)
    requires Base(base)
    ensures CanonicalNumeral(Numeral(n, base), base)
    ensures ParseNumeral(Numeral(n, base), base) == n
    ensures Numeral(n, base)[0] == '0' <==> n == 0
    ensures Numeral(n, base)[0] != '-'
  {
    if n < base {
      DigitValues(n);
      assert ParseNumeral([], base) == 0;
    } else {
      Division(n, base);
      ParseOfNumeral(n / base, base);
      DigitValues(n % base);
      var s := Numeral(n, base);
      assert s[..|s| - 1] == Numeral(n / base, base);
    }
  }

  /** A canonical numeral is the numeral of what it means. */
  lemma {:induction false} NumeralOfParse(s: string, base: nat)
    requires Base(base) && CanonicalNumeral(s, base)
    ensures Numeral(ParseNumeral(s, base), base) == s
  {
    hide DigitChar, DigitValue;
    var front, last := s[..|s| - 1], s[|s| - 1];
    assert IsDigit(last, base);
    var d := DigitValue(last);
    assert s == front + [last];
    if front == [] {
      assert ParseNumeral(front, base) == 0;
    } else {
      NumeralOfParse(front, base);
      var m := ParseNumeral(front, base);
      ParseOfNumeral(m, base);
      assert m > 0;
      Quotient(m, d, base);
    }
  }

  lemma Quotient(m: nat, d: nat, base: nat)
    requires Base(base) && d < base && m > 0
    ensures (base * m + d) / base == m && (base * m + d) % base == d && base * m + d >= base
  {
  }

  /** Decimal text means the integer it was made from, and is canonical. */
  lemma ParseOfDecimal(v: int)
    ensures Canonical(Decimal(v)) && Parse(Decimal(v)) == v
  {
    hide CanonicalNumeral, ParseNumeral;
    ParseOfNumeral(if v < 0 then -v else v, 10);
    if v < 0 {
      assert Decimal(v)[1..] == Numeral(-v, 10);
      assert ParseNumeral("0", 10) == 0 by { ParseOfNumeral(0, 10); }
    }
  }

  /** Canonical decimal text is the text of what it means. */
  lemma DecimalOfParse(s: string)
    requires Canonical(s)
    ensures Decimal(Parse(s)) == s
  {
    hide CanonicalNumeral, ParseNumeral;
    if s != [] && s[0] == '-' {
      var n := ParseNumeral(s[1..], 10);
      NumeralOfParse(s[1..], 10);
      assert s == "-" + s[1..];
      assert Numeral(0, 10) == "0";
      assert n > 0;
    } else {
      NumeralOfParse(s, 10);
      assert ParseNumeral(s, 10) >= 0;
    }
  }

  // ----- lengths -----

  function Pow(base: nat, k: nat): nat {
    if k == 0 then 1 else base * Pow(base, k - 1)
  }

  lemma {:induction false} PowSum(base: nat, i: nat, j: nat)
    ensures Pow(base, i + j) == Pow(base, i) * Pow(base, j)
  {
    if i > 0 {
      PowSum(base, i - 1, j);
      assert Pow(base, i + j) == base * Pow(base, i - 1 + j);
    }
  }

  lemma {:induction false} NumeralLength(n: nat, base: nat, k: nat)
    requires Base(base) && k > 0 && n < Pow(base, k)
    ensures |Numeral(n, base)| <= k
  {
    if n >= base {
      Division(n, base);
      assert k > 1 by {
        assert Pow(base, 1) == base * Pow(base, 0);
      }
      assert n / base < Pow(base, k - 1);
      NumeralLength(n / base, base, k - 1);
    }
  }


  // The values of C's signed and unsigned types of up to 64 bits.
  predicate Fits64(v: int) {
    -0x8000_0000_0000_0000 <= v <= 0xffff_ffff_ffff_ffff
  }

  /** No 64-bit value takes more than 20 characters, and no address more than 16 hex digits. */
  lemma Lengths64(v: int)
    requires -0x8000_0000_0000_0000 <= v <= 0xffff_ffff_ffff_ffff
    ensures |Decimal(v)| <= 20
    ensures v >= 0 ==> |Numeral(v, 16)| <= 16
  {
    assert Pow(10, 4) == 10_000 && Pow(10, 5) == 100_000;
    PowSum(10, 5, 5);
    PowSum(10, 10, 5);
    PowSum(10, 15, 4);
    PowSum(10, 15, 5);
    assert Pow(16, 4) == 0x1_0000;
    PowSum(16, 4, 4);
    PowSum(16, 8, 8);
    if v < 0 {
      NumeralLength(-v, 10, 19);
    } else {
      NumeralLength(v, 10, 20);
      NumeralLength(v, 16, 16);
    }
  }

  lemma LengthsFit(v: int)
    requires Fits64(v)
    ensures |Decimal(v)| <= 20
    ensures v >= 0 ==> |Numeral(v, 16)| <= 16
  {
    Lengths64(v);
  }

  // ----- conversion -----

  function Reverse(s: string): string {
    if s == [] then [] else [s[|s| - 1]] + Reverse(s[..|s| - 1])
  }

  lemma ReverseSnoc(s: string, c: char)
    ensures Reverse(s + [c]) == [c] + Reverse(s)
  {
    assert (s + [c])[..|s|] == s;
  }

  // The mirror image is the reverse.
  lemma {:induction false} ReverseIs(s: string, r: string)
    requires |r| == |s| && forall k :: 0 <= k < |s| ==> r[k] == s[|s| - 1 - k]
    ensures r == Reverse(s)
  {
    if s != [] {
      assert r == [s[|s| - 1]] + r[1..];
      ReverseIs(s[..|s| - 1], r[1..]);
    }
  }

  // `std::reverse` on buf[lo..hi].
  method ReverseRange(buf: array<char>, lo: nat, hi: nat)
    requires lo <= hi <= buf.Length
    modifies buf
    ensures buf[lo..hi] == Reverse(old(buf[lo..hi]))
    ensures forall k :: 0 <= k < lo || hi <= k < buf.Length ==> buf[k] == old(buf[k])
  {
    hide Reverse;
    var i, j := lo, hi;
    while i + 1 < j
      invariant lo <= i <= hi && j == hi - (i - lo) && i <= j + 1
      invariant forall k :: lo <= k < i || j <= k < hi ==> buf[k] == old(buf[lo + hi - 1 - k])
      invariant forall k :: i <= k < j || 0 <= k < lo || hi <= k < buf.Length ==> buf[k] == old(buf[k])
    {
      buf[i], buf[j - 1] := buf[j - 1], buf[i];
      i, j := i + 1, j - 1;
    }
    ghost var was, now := old(buf[lo..hi]), buf[lo..hi];
    forall k | 0 <= k < hi - lo ensures now[k] == was[hi - lo - 1 - k] {
      assert buf[lo + k] == old(buf[lo + hi - 1 - (lo + k)]);
    }
    ReverseIs(was, now);
  }

  const DIGITS := "9876543210123456789"

  // The table of digits, indexed by remainders from -9 to 9.
  function ZeroAt(lsd: int): char
    requires -9 <= lsd <= 9
  {
    DIGITS[9 + lsd]
  }

  function Abs(x: int): nat {
    if x < 0 then -x else x
  }

  lemma DigitStep(i: int)
    ensures -9 <= Rem(i, 10) <= 9
    ensures ZeroAt(Rem(i, 10)) == DigitChar(Abs(i) % 10)
    ensures Abs(Quot(i, 10)) == Abs(i) / 10
    ensures Quot(i, 10) == 0 <==> Abs(i) < 10
  {
    assert Abs(Rem(i, 10)) == Abs(i) % 10;
  }

  // The numeral of n ends in the digit n % base, after the numeral of n / base if there is one.
  lemma NumeralStep(n: nat, base: nat)
    requires Base(base)
    ensures Numeral(n, base) == Pending(n >= base, n / base, base) + [DigitChar(n % base)]
    ensures |Pending(n >= base, n / base, base)| < |Numeral(n, base)|
  {
  }

  // The digits still to be produced.
  function Pending(more: bool, n: nat, base: nat): string
    requires Base(base)
  {
    if more then Numeral(n, base) else []
  }

  // One more digit has been written below the ones written so far.
  lemma DigitWritten(rest: string, c: char, written: string)
    ensures rest + [c] + Reverse(written) == rest + Reverse(written + [c])
  {
    ReverseSnoc(written, c);
  }

  // One turn of the loop of `convert`, on the text: a digit moves from the pending ones to those written.
  lemma DecimalStep(text: string, i: int, written: string)
    requires text == Numeral(Abs(i), 10) + Reverse(written)
    ensures -9 <= Rem(i, 10) <= 9
    ensures text == Pending(Quot(i, 10) != 0, Abs(Quot(i, 10)), 10) + Reverse(written + [ZeroAt(Rem(i, 10))])
    ensures |Pending(Quot(i, 10) != 0, Abs(Quot(i, 10)), 10)| == |Numeral(Abs(i), 10)| - 1
    ensures Quot(i, 10) != 0 ==> Abs(Quot(i, 10)) < Abs(i)
  {
    DigitStep(i);
    NumeralStep(Abs(i), 10);
    hide Numeral, DigitChar, ZeroAt, Reverse, Rem, Quot, Pending;
    DigitWritten(Pending(Quot(i, 10) != 0, Abs(Quot(i, 10)), 10), ZeroAt(Rem(i, 10)), written);
  }

  lemma HexStep(text: string, i: nat, written: string)
    requires text == Numeral(i, 16) + Reverse(written)
    ensures text == Pending(i / 16 != 0, i / 16, 16) + Reverse(written + [DigitChar(i % 16)])
    ensures |Pending(i / 16 != 0, i / 16, 16)| == |Numeral(i, 16)| - 1
  {
    NumeralStep(i, 16);
    hide Numeral, DigitChar, Reverse, Pending;
    DigitWritten(Pending(i / 16 != 0, i / 16, 16), DigitChar(i % 16), written);
  }

  lemma NothingPending(text: string, n: nat, base: nat, written: string)
    requires Base(base) && text == Pending(false, n, base) + Reverse(written)
    ensures text == Reverse(written) && |Pending(false, n, base)| == 0
  {
  }

  lemma AllPending(n: nat, base: nat)
    requires Base(base)
    ensures Numeral(n, base) == Pending(true, n, base) + Reverse([]) && Pending(true, n, base) == Numeral(n, base)
    ensures |Numeral(n, base)| > 0
  {
  }

  // The loop of `convert`: the digits, least significant first.
  method WriteDigits(buf: array<char>, at: nat, value: int) returns (p: nat)
    requires at + |Numeral(Abs(value), 10)| <= buf.Length
    modifies buf
    ensures p == at + |Numeral(Abs(value), 10)|
    ensures Reverse(buf[at..p]) == Numeral(Abs(value), 10)
    ensures forall k :: 0 <= k < at || p <= k < buf.Length ==> buf[k] == old(buf[k])
  {
    ghost var text := Numeral(Abs(value), 10);
    var i, more := value, true;
    p := at;
    AllPending(Abs(value), 10);
    hide Numeral, Reverse, DigitChar, ZeroAt, Rem, Quot, Pending, Abs;
    assert buf[at..p] == [];
    while more
      invariant at <= p <= at + |text| && |Pending(more, Abs(i), 10)| == at + |text| - p
      invariant text == Pending(more, Abs(i), 10) + Reverse(buf[at..p])
      invariant forall k :: 0 <= k < at || p <= k < buf.Length ==> buf[k] == old(buf[k])
      decreases more, Abs(i)
    {
      ghost var written := buf[at..p];
      AllPending(Abs(i), 10);
      DecimalStep(text, i, written);
      var lsd := Rem(i, 10);
      i := Quot(i, 10);
      buf[p] := ZeroAt(lsd);
      p := p + 1;
      more := i != 0;
      assert buf[at..p] == written + [ZeroAt(lsd)];
    }
    NothingPending(text, Abs(i), 10, buf[at..p]);
  }

  // The loop of `convertHex`.
  method WriteHexDigits(buf: array<char>, at: nat, value: nat) returns (p: nat)
    requires at + |Numeral(value, 16)| <= buf.Length
    modifies buf
    ensures p == at + |Numeral(value, 16)|
    ensures Reverse(buf[at..p]) == Numeral(value, 16)
    ensures forall k :: 0 <= k < at || p <= k < buf.Length ==> buf[k] == old(buf[k])
  {
    ghost var text := Numeral(value, 16);
    var i, more := value, true;
    p := at;
    AllPending(value, 16);
    hide Numeral, Reverse, Pending;
    assert buf[at..p] == [];
    while more
      invariant at <= p <= at + |text| && |Pending(more, i, 16)| == at + |text| - p
      invariant text == Pending(more, i, 16) + Reverse(buf[at..p])
      invariant forall k :: 0 <= k < at || p <= k < buf.Length ==> buf[k] == old(buf[k])
      decreases more, i
    {
      ghost var written := buf[at..p];
      AllPending(i, 16);
      HexStep(text, i, written);
      var lsd := i % 16;
      i := i / 16;
      buf[p] := HEX_DIGITS[lsd];
      p := p + 1;
      more := i != 0;
      assert buf[at..p] == written + [DigitChar(lsd)];
    }
    NothingPending(text, i, 16, buf[at..p]);
  }

  // The end of both: a NUL, and the text before it turned round.
  method Terminate(buf: array<char>, at: nat, p: nat)
    requires at <= p < buf.Length
    modifies buf
    ensures buf[at..p] == Reverse(old(buf[at..p])) && buf[p] == '\0'
    ensures forall k :: 0 <= k < at || p < k < buf.Length ==> buf[k] == old(buf[k])
  {
    hide Reverse;
    buf[p] := '\0';
    assert buf[at..p] == old(buf[at..p]);
    ReverseRange(buf, at, p);
  }

  method WriteSign(buf: array<char>, at: nat, p: nat) returns (q: nat)
    requires at <= p < buf.Length
    modifies buf
    ensures q == p + 1 && Reverse(buf[at..q]) == "-" + Reverse(old(buf[at..p]))
    ensures forall k :: 0 <= k < at || q <= k < buf.Length ==> buf[k] == old(buf[k])
  {
    ghost var written := buf[at..p];
    buf[p] := '-';
    q := p + 1;
    assert buf[at..q] == written + "-";
    ReverseSnoc(written, '-');
    hide Reverse;
  }

  // Digits and sign, from the last character to the first.
  method WriteText(buf: array<char>, at: nat, value: int) returns (p: nat)
    requires at + |Decimal(value)| <= buf.Length
    modifies buf
    ensures p == at + |Decimal(value)| && Reverse(buf[at..p]) == Decimal(value)
    ensures forall k :: 0 <= k < at || p <= k < buf.Length ==> buf[k] == old(buf[k])
  {
    hide Numeral, Reverse;
    p := WriteDigits(buf, at, value);
    if value < 0 {
      p := WriteSign(buf, at, p);
    }
  }

  /** Writes the decimal text of a value and a terminating NUL, and nothing else. */
  method Convert(buf: array<char>, at: nat, value: int) returns (len: nat)
    requires Fits64(value) && at + 21 <= buf.Length
    modifies buf
    ensures len == |Decimal(value)| <= 20
    ensures buf[at..at + len] == Decimal(value) && buf[at + len] == '\0'
    ensures forall k :: 0 <= k < at || at + len < k < buf.Length ==> buf[k] == old(buf[k])
  {
    hide *;
    LengthsFit(value);
    var p := WriteText(buf, at, value);
    Terminate(buf, at, p);
    len := p - at;
  }

  /** The same for an address, in hexadecimal. */
  method ConvertHex(buf: array<char>, at: nat, value: nat) returns (len: nat)
    requires Fits64(value) && at + 17 <= buf.Length
    modifies buf
    ensures len == |Numeral(value, 16)| <= 16
    ensures buf[at..at + len] == Numeral(value, 16) && buf[at + len] == '\0'
    ensures forall k :: 0 <= k < at || at + len < k < buf.Length ==> buf[k] == old(buf[k])
  {
    hide *;
    LengthsFit(value);
    var p := WriteHexDigits(buf, at, value);
    Terminate(buf, at, p);
    len := p - at;
  }

  // ----- the buffer of a log line -----

  const MAX_NUMERIC_SIZE := 32

  class FixedBuffer {
    const data: array<char>
    var cur: nat

    ghost predicate Valid()
      reads this
    {
      cur <= data.Length
    }

    ghost function Contents(): string
      requires Valid()
      reads this, data
    {
      data[..cur]
    }

    function Avail(): int
      requires Valid()
      reads this
    {
      data.Length - cur
    }

    constructor (size: nat)
      ensures Valid() && Contents() == "" && data.Length == size && fresh(data)
    {
      data := new char[size];
      cur := 0;
    }

    /** Appends the text if it leaves room to spare, and otherwise does nothing. */
    method Append(text: string)
      requires Valid()
      modifies this`cur, data
      ensures Valid()
      ensures Contents() == if |text| < old(Avail()) then old(Contents()) + text else old(Contents())
    {
      if Avail() > |text| {
        forall i | 0 <= i < |text| {
          data[cur + i] := text[i];
        }
        cur := cur + |text|;
      }
    }

    method Add(len: nat)
      requires Valid() && len <= Avail()
      modifies this`cur
      ensures Valid() && cur == old(cur) + len
    {
      cur := cur + len;
    }

    method Reset()
      modifies this`cur
      ensures Valid() && Contents() == ""
    {
      cur := 0;
    }
  }

  /** `operator<<` for integers: the decimal text is appended, or, when fewer than 32
      characters are left, nothing. */
  method FormatInteger(buffer: FixedBuffer, v: int)
    requires buffer.Valid() && Fits64(v)
    modifies buffer`cur, buffer.data
    ensures buffer.Valid()
    ensures buffer.Contents() == old(buffer.Contents()) + if old(buffer.Avail()) >= 32 then Decimal(v) else ""
  {
    hide Decimal;
    if buffer.Avail() >= MAX_NUMERIC_SIZE {
      var cur := buffer.cur;
      var len := Convert(buffer.data, cur, v);
      assert buffer.data[..cur + len] == buffer.data[..cur] + buffer.data[cur..cur + len];
      buffer.Add(len);
    }
  }

  /** `operator<<` for pointers. */
  method FormatPointer(buffer: FixedBuffer, v: nat)
    requires buffer.Valid() && Fits64(v)
    modifies buffer`cur, buffer.data
    ensures buffer.Valid()
    ensures buffer.Contents()
         == old(buffer.Contents()) + if old(buffer.Avail()) >= 32 then "0x" + Numeral(v, 16) else ""
  {
    hide Numeral;
    if buffer.Avail() >= MAX_NUMERIC_SIZE {
      var data, cur := buffer.data, buffer.cur;
      data[cur], data[cur + 1] := '0', 'x';
      var len := ConvertHex(data, cur + 2, v);
      assert data[..cur + 2 + len] == data[..cur] + "0x" + data[cur + 2..cur + 2 + len];
      buffer.Add(len + 2);
    }
  }
}
