/** Fixed-width values packed into bytes, most significant bit first, and read back. */
module BitPacker {
  import opened Bytes
  import C = PvqCount

  // --- values and their bits ---

  /** The low `width` bits of `value`. */
  function Bits(value: nat, width: nat): (b: seq<bool>)
    ensures |b| == width
  {
    if width == 0 then [] else Bits(value / 2, width - 1) + [value % 2 == 1]
  }

  function Value(b: seq<bool>): nat {
    if b == [] then 0 else 2 * Value(b[..|b| - 1]) + if b[|b| - 1] then 1 else 0
  }

  lemma ValueAppend(b: seq<bool>, bit: bool)
    ensures Value(b + [bit]) == 2 * Value(b) + if bit then 1 else 0
  {
    assert (b + [bit])[..|b|] == b;
  }

  /** A value that fits its width is told by its bits. */
  lemma {:induction false} ValueOfBits(value: nat, width: nat)
    requires value < C.Pow2(width)
    ensures Value(Bits(value, width)) == value
  {
    if width > 0 {
      ValueOfBits(value / 2, width - 1);
      ValueAppend(Bits(value / 2, width - 1), value % 2 == 1);
    }
  }

  lemma {:induction false} BitsOfValue(b: seq<bool>)
    ensures Value(b) < C.Pow2(|b|)
    ensures Bits(Value(b), |b|) == b
  {
    if b != [] {
      BitsOfValue(b[..|b| - 1]);
      assert b == b[..|b| - 1] + [b[|b| - 1]];
    }
  }

  function Zeros(n: nat): (b: seq<bool>)
    ensures |b| == n
  {
    if n == 0 then [] else Zeros(n - 1) + [false]
  }

  lemma {:induction false} ZerosAt(n: nat)
    ensures forall i :: 0 <= i < n ==> !Zeros(n)[i]
    ensures Value(Zeros(n)) == 0
  {
    if n > 0 {
      ZerosAt(n - 1);
      ValueAppend(Zeros(n - 1), false);
    }
  }

  /** `value` shifted right, one bit at a time. */
  function Shift(value: nat, i: nat): (r: nat)
    ensures r <= value
  {
    if i == 0 then value else Shift(value / 2, i - 1)
  }

  /** The bit that goes first. */
  lemma {:induction false} BitsTop(value: nat, i: nat)
    ensures Bits(value, i + 1) == [Shift(value, i) % 2 == 1] + Bits(value, i)
  {
    if i > 0 {
      BitsTop(value / 2, i - 1);
      Assoc([Shift(value, i) % 2 == 1], Bits(value / 2, i - 1), [value % 2 == 1]);
    }
  }

  lemma {:induction false} BitIs(value: nat, width: nat, i: nat)
    requires i < width
    ensures Bits(value, width)[i] == (Shift(value, width - 1 - i) % 2 == 1)
  {
    if i < width - 1 {
      BitIs(value / 2, width - 1, i);
    }
  }

  /** `value` shifted left, one bit at a time. */
  function ShiftLeft(value: nat, i: nat): nat
    decreases i
  {
    if i == 0 then value else ShiftLeft(2 * value, i - 1)
  }

  lemma {:induction false} ShiftLeftPads(value: nat, width: nat, i: nat)
    requires value < C.Pow2(width)
    ensures Bits(ShiftLeft(value, i), width + i) == Bits(value, width) + Zeros(i)
    ensures ShiftLeft(value, i) < C.Pow2(width + i)
    decreases i
  {
    if i > 0 {
      ShiftLeftPads(2 * value, width + 1, i - 1);
      assert Bits(2 * value, width + 1) == Bits(value, width) + [false];
      ZerosFront(i - 1);
      Assoc(Bits(value, width), [false], Zeros(i - 1));
    }
  }

  lemma {:induction false} ZerosFront(n: nat)
    ensures [false] + Zeros(n) == Zeros(n) + [false]
  {
    if n > 0 {
      ZerosFront(n - 1);
      Assoc([false], Zeros(n - 1), [false]);
    }
  }

  // --- bytes and their bits ---

  function Unpack(bytes: seq<Byte>): (b: seq<bool>)
    ensures |b| == 8 * |bytes|
  {
    if bytes == [] then [] else Unpack(bytes[..|bytes| - 1]) + Bits(bytes[|bytes| - 1], 8)
  }

  lemma UnpackAppend(bytes: seq<Byte>, b: Byte)
    ensures Unpack(bytes + [b]) == Unpack(bytes) + Bits(b, 8)
  {
    assert (bytes + [b])[..|bytes|] == bytes;
  }

  /** The bit at a position, as the reader extracts it. */
  lemma {:induction false} UnpackAt(bytes: seq<Byte>, byte: nat, bit: nat)
    requires byte < |bytes| && bit < 8
    ensures Unpack(bytes)[8 * byte + bit] == (Shift(bytes[byte], 7 - bit) % 2 == 1)
  {
    if byte < |bytes| - 1 {
      UnpackAt(bytes[..|bytes| - 1], byte, bit);
    } else {
      BitIs(bytes[byte], 8, bit);
    }
  }

  /** No two byte strings hold the same bits. */
  lemma SameBits(a: Byte, b: Byte)
    requires Bits(a, 8) == Bits(b, 8)
    ensures a == b
  {
    ByteOfBits(a);
    ByteOfBits(b);
    hide *;
  }

  lemma LastUnpacked(a: seq<Byte>, b: seq<Byte>)
    requires a != [] && Unpack(a) == Unpack(b)
    ensures |a| == |b|
    ensures var n := |a| - 1;
      Unpack(a[..n]) == Unpack(b[..n]) && Bits(a[n], 8) == Bits(b[n], 8)
  {
    hide *;
    assert |a| == |b|;
    UnpackLast(a);
    UnpackLast(b);
  }

  lemma {:induction false} UnpackInjective(a: seq<Byte>, b: seq<Byte>)
    requires Unpack(a) == Unpack(b)
    ensures a == b
  {
    if a != [] {
      var n := |a| - 1;
      LastUnpacked(a, b);
      hide Unpack;
      hide Bits;
      SameBits(a[n], b[n]);
      UnpackInjective(a[..n], b[..n]);
      assert a == a[..n] + [a[n]] && b == b[..n] + [b[n]];
    }
  }

  lemma UnpackLast(a: seq<Byte>)
    requires a != []
    ensures var n := |a| - 1;
      Unpack(a)[..8 * n] == Unpack(a[..n]) && Unpack(a)[8 * n..] == Bits(a[n], 8)
  {
    hide Bits;
  }

  lemma ByteOfBits(b: Byte)
    ensures Value(Bits(b, 8)) == b
  {
    EightBits();
    hide C.Pow2;
    hide Bits;
    ValueOfBits(b, 8);
  }

  // --- the writer ---

  class Encoder {
    var bytes: seq<Byte>
    var partial: nat
    var partialBits: nat

    ghost predicate Valid()
      reads this
    {
      partialBits < 8 && partial < C.Pow2(partialBits)
    }

    ghost function Contents(): seq<bool>
      reads this
    {
      Unpack(bytes) + Bits(partial, partialBits)
    }

    constructor ()
      ensures Valid() && Contents() == []
    {
      bytes, partial, partialBits := [], 0, 0;
    }

    /** Append one bit; the eighth completes a byte. */
    method Push(bit: bool)
      requires Valid()
      modifies this
      ensures Valid() && Contents() == old(Contents()) + [bit]
    {
      hide C.Pow2;
      hide Unpack;
      hide Bits;
      PartialFits(partial, partialBits, bit);
      NoBits(0);
      ghost var before := Bits(partial, partialBits);
      ghost var whole := Unpack(bytes);
      var wider: nat := 2 * partial + if bit then 1 else 0;
      Assoc(whole, before, [bit]);
      partial := wider;
      partialBits := partialBits + 1;
      if partialBits == 8 {
        UnpackAppend(bytes, partial);
        assert Unpack(bytes + [partial]) + [] == Unpack(bytes + [partial]);
        bytes := bytes + [partial];
        partial := 0;
        partialBits := 0;
      }
    }

    /** Append the low `count` bits of `value`. */
    method WriteBits(value: U32, count: nat)
      requires Valid() && count <= 32
      modifies this
      ensures Valid() && Contents() == old(Contents()) + Bits(value, count)
    {
      hide *;
      ghost var start := Contents();
      assert start + Bits(value, count) == Contents() + Bits(value, count);
      for i := count downto 0
        invariant Valid()
        invariant Contents() + Bits(value, i) == start + Bits(value, count)
      {
        ghost var sofar := Contents();
        var bit := Shift(value, i) % 2 == 1;
        BitsTop(value, i);
        Assoc(sofar, [bit], Bits(value, i));
        Push(bit);
      }
      NoBits(value);
      assert Contents() + [] == Contents();
    }

    method LenBits() returns (n: nat)
      requires Valid()
      ensures n == |Contents()|
    {
      n := 8 * |bytes| + partialBits;
    }

    /** The last byte padded with zeros: as many bytes as the bits need, and no other bits. */
    method Finish() returns (out: seq<Byte>)
      requires Valid()
      ensures Holds(out, Contents())
      ensures |out| == (|Contents()| + 7) / 8
    {
      out := bytes;
      if partialBits > 0 {
        var pad := 8 - partialBits;
        assert C.Pow2(8) == 256;
        ShiftLeftPads(partial, partialBits, pad);
        var last: Byte := ShiftLeft(partial, pad);
        UnpackAppend(bytes, last);
        out := bytes + [last];
        Assoc(Unpack(bytes), Bits(partial, partialBits), Zeros(pad));
        assert 8 * |out| - |Contents()| == pad;
      } else {
        assert Contents() + Zeros(0) == Contents();
      }
    }
  }

  /** One more bit in a byte that is not full. */
  lemma PartialFits(partial: nat, n: nat, bit: bool)
    requires n < 8 && partial < C.Pow2(n)
    ensures var wider := 2 * partial + if bit then 1 else 0;
      wider < C.Pow2(n + 1) && wider < 256 && Bits(wider, n + 1) == Bits(partial, n) + [bit]
    ensures C.Pow2(0) == 1
  {
    assert C.Pow2(n + 1) == 2 * C.Pow2(n) && C.Pow2(0) == 1;
    EightBits();
    hide C.Pow2;
    C.Pow2Monotone(n + 1, 8);
    OneMoreBit(partial, n, bit);
  }

  lemma EightBits()
    ensures C.Pow2(8) == 256
  {
  }

  lemma OneMoreBit(partial: nat, n: nat, bit: bool)
    ensures Bits(2 * partial + if bit then 1 else 0, n + 1) == Bits(partial, n) + [bit]
  {
    var wider := 2 * partial + if bit then 1 else 0;
    assert wider / 2 == partial && (wider % 2 == 1) == bit;
  }

  lemma NoBits(value: nat)
    ensures Bits(value, 0) == []
  {
  }

  /** These bytes are exactly these bits, then zeros. */
  ghost predicate Holds(out: seq<Byte>, bits: seq<bool>) {
    |bits| <= 8 * |out| && Unpack(out) == bits + Zeros(8 * |out| - |bits|)
  }

  /** Trailing zero bytes hold nothing more. */
  lemma {:induction false} HoldsPadded(out: seq<Byte>, bits: seq<bool>, n: nat)
    requires Holds(out, bits)
    ensures Holds(out + Digits(0, n), bits)
    decreases n
  {
    hide Holds;
    if n > 0 {
      HoldsPadded(out, bits, n - 1);
      HoldsZeroByte(out + Digits(0, n - 1), bits);
      Assoc(out, Digits(0, n - 1), [0]);
    } else {
      assert out + [] == out;
    }
  }

  lemma HoldsZeroByte(out: seq<Byte>, bits: seq<bool>)
    requires Holds(out, bits)
    ensures Holds(out + [0], bits)
  {
    hide Unpack;
    hide Zeros;
    hide Bits;
    var pad := 8 * |out| - |bits|;
    UnpackAppend(out, 0);
    ZeroByte();
    ZerosSum(pad, 8);
    Assoc(bits, Zeros(pad), Zeros(8));
  }

  lemma ZeroByte()
    ensures Bits(0, 8) == Zeros(8)
  {
    ZerosAt(8);
    forall i | 0 <= i < 8 ensures !Bits(0, 8)[i] {
      BitIs(0, 8, i);
    }
  }

  lemma {:induction false} ZerosSum(a: nat, b: nat)
    ensures Zeros(a) + Zeros(b) == Zeros(a + b)
  {
    if b > 0 {
      ZerosSum(a, b - 1);
      Assoc(Zeros(a), Zeros(b - 1), [false]);
    } else {
      assert Zeros(a) + [] == Zeros(a);
    }
  }

  // --- the reader ---

  function BitAt(bits: seq<bool>, p: nat): bool {
    p < |bits| && bits[p]
  }

  /** `width` bits from position `p`; past the end, zeros. */
  function Window(bits: seq<bool>, p: nat, width: nat): (w: seq<bool>)
    ensures |w| == width
  {
    if width == 0 then [] else Window(bits, p, width - 1) + [BitAt(bits, p + width - 1)]
  }

  lemma {:induction false} WindowAt(bits: seq<bool>, p: nat, width: nat, i: nat)
    requires i < width
    ensures Window(bits, p, width)[i] == BitAt(bits, p + i)
  {
    if i < width - 1 {
      WindowAt(bits, p, width - 1, i);
    }
  }

  function Read(bits: seq<bool>, p: nat, width: nat): (v: nat) {
    Value(Window(bits, p, width))
  }

  /** Only the bits matter, not the zeros that pad them out. */
  lemma {:induction false} ReadHeld(out: seq<Byte>, bits: seq<bool>, p: nat, width: nat)
    requires Holds(out, bits)
    ensures Read(Unpack(out), p, width) == Read(bits, p, width)
  {
    ZerosAt(8 * |out| - |bits|);
    forall i | 0 <= i < width ensures Window(Unpack(out), p, width)[i] == Window(bits, p, width)[i] {
      assert BitAt(Unpack(out), p + i) == BitAt(bits, p + i);
      WindowAt(Unpack(out), p, width, i);
      WindowAt(bits, p, width, i);
    }
    assert Window(Unpack(out), p, width) == Window(bits, p, width);
  }

  lemma {:induction false} PastTheEnd(bits: seq<bool>, p: nat, width: nat)
    requires p >= |bits|
    ensures Read(bits, p, width) == 0
  {
    if width > 0 {
      PastTheEnd(bits, p, width - 1);
      ValueAppend(Window(bits, p, width - 1), false);
    }
  }

  lemma ReadFits(bits: seq<bool>, p: nat, width: nat)
    ensures Read(bits, p, width) < C.Pow2(width)
  {
    BitsOfValue(Window(bits, p, width));
  }

  class Decoder {
    const bytes: seq<Byte>
    var position: nat

    constructor (bytes: seq<Byte>)
      ensures this.bytes == bytes && position == 0
    {
      this.bytes, position := bytes, 0;
    }

    method ReadBits(count: nat) returns (value: U32)
      requires count <= 32
      modifies this
      ensures position == old(position) + count
      ensures value == Read(Unpack(bytes), old(position), count)
      ensures old(position) >= 8 * |bytes| ==> value == 0
      ensures value < C.Pow2(count)
    {
      hide Unpack;
      hide Value;
      hide Window;
      hide Shift;
      ghost var bits := Unpack(bytes);
      ghost var start := position;
      value := 0;
      ReadStarts(bits, start);
      for i := 0 to count
        invariant position == start + i
        invariant value == Read(bits, start, i)
      {
        var byte := position / 8;
        var bit := position % 8;
        var b := byte < |bytes| && Shift(bytes[byte], 7 - bit) % 2 == 1;
        if byte < |bytes| {
          UnpackAt(bytes, byte, bit);
        }
        ReadStep(bits, start, i);
        value := 2 * value + if b then 1 else 0;
        position := position + 1;
      }
      ReadFits(bits, start, count);
      if start >= 8 * |bytes| {
        PastTheEnd(bits, start, count);
      }
    }

    method PositionBits() returns (p: nat)
      ensures p == position
    {
      p := position;
    }
  }

  lemma ReadStarts(bits: seq<bool>, p: nat)
    ensures Read(bits, p, 0) == 0
  {
  }

  /** One more bit read; with fewer than 32 before it the word does not overflow. */
  lemma ReadStep(bits: seq<bool>, p: nat, i: nat)
    ensures Read(bits, p, i + 1) == 2 * Read(bits, p, i) + if BitAt(bits, p + i) then 1 else 0
    ensures i < 32 ==> Read(bits, p, i + 1) < 0x1_0000_0000
  {
    ValueAppend(Window(bits, p, i), BitAt(bits, p + i));
    if i < 32 {
      ReadFits(bits, p, i + 1);
      C.Pow2Monotone(i + 1, 32);
      C.IndexBits();
    }
  }

  // --- sequences of fields ---

  datatype Field = Field(value: nat, width: nat) {
    ghost predicate Fits() { width <= 32 && value < C.Pow2(width) }
  }

  ghost predicate AllFit(fields: seq<Field>) {
    forall i :: 0 <= i < |fields| ==> fields[i].Fits()
  }

  function Written(fields: seq<Field>): seq<bool> {
    if fields == [] then [] else Bits(fields[0].value, fields[0].width) + Written(fields[1..])
  }

  function Widths(fields: seq<Field>): nat {
    if fields == [] then 0 else fields[0].width + Widths(fields[1..])
  }

  lemma {:induction false} WrittenLength(fields: seq<Field>)
    ensures |Written(fields)| == Widths(fields)
  {
    if fields != [] {
      WrittenLength(fields[1..]);
    }
  }

  lemma {:induction false} WrittenAppend(a: seq<Field>, b: seq<Field>)
    ensures Written(a + b) == Written(a) + Written(b)
  {
    if a == [] {
      assert [] + b == b && [] + Written(b) == Written(b);
    } else {
      WrittenAppend(a[1..], b);
      assert (a + b)[1..] == a[1..] + b;
      Assoc(Bits(a[0].value, a[0].width), Written(a[1..]), Written(b));
    }
  }

  /** Reading the widths in order from `p` gives back the values. */
  ghost predicate ReadsBack(bits: seq<bool>, p: nat, fields: seq<Field>)
    decreases |fields|
  {
    fields == [] ||
    (Read(bits, p, fields[0].width) == fields[0].value &&
     ReadsBack(bits, p + fields[0].width, fields[1..]))
  }

  lemma {:induction false} ReadOne(before: seq<bool>, value: nat, width: nat, after: seq<bool>)
    requires value < C.Pow2(width)
    ensures Read(before + Bits(value, width) + after, |before|, width) == value
  {
    var all := before + Bits(value, width) + after;
    forall i | 0 <= i < width ensures Window(all, |before|, width)[i] == Bits(value, width)[i] {
      WindowAt(all, |before|, width, i);
    }
    assert Window(all, |before|, width) == Bits(value, width);
    ValueOfBits(value, width);
  }

  /** Whatever was written before and after, every field reads back. */
  lemma {:induction false} FieldsReadBack(before: seq<bool>, fields: seq<Field>, after: seq<bool>)
    requires AllFit(fields)
    ensures ReadsBack(before + Written(fields) + after, |before|, fields)
    decreases |fields|
  {
    hide Read;
    hide Bits;
    if fields != [] {
      var f := fields[0];
      var own := Bits(f.value, f.width);
      var rest := Written(fields[1..]);
      Assoc(before, own, rest);
      Assoc(before + own, rest, after);
      ReadOne(before, f.value, f.width, rest + after);
      FieldsReadBack(before + own, fields[1..], after);
    }
  }

  lemma {:induction false} ReadsBackHeld(out: seq<Byte>, bits: seq<bool>, p: nat, fields: seq<Field>)
    requires Holds(out, bits) && ReadsBack(bits, p, fields)
    ensures ReadsBack(Unpack(out), p, fields)
    decreases |fields|
  {
    if fields != [] {
      ReadHeld(out, bits, p, fields[0].width);
      ReadsBackHeld(out, bits, p + fields[0].width, fields[1..]);
    }
  }

  /** Any fields that fit their widths read back from the bytes that hold them. */
  lemma PackedRoundTrip(fields: seq<Field>, out: seq<Byte>)
    requires AllFit(fields) && Holds(out, Written(fields))
    ensures ReadsBack(Unpack(out), 0, fields)
  {
    FieldsReadBack([], fields, []);
    assert [] + Written(fields) + [] == Written(fields);
    ReadsBackHeld(out, Written(fields), 0, fields);
  }

  // --- signed values ---

  ghost predicate I16(x: int) {
    -0x8000 <= x < 0x8000
  }

  /** The `as i16` cast: the low sixteen bits, as two's complement. */
  function Wrap16(x: int): (r: int)
    ensures I16(r)
    ensures I16(x) ==> r == x
  {
    (x + 0x8000) % 0x1_0000 - 0x8000
  }

  function Folded(value: int): (folded: nat)
    ensures I16(value) ==> folded < 0x1_0000
  {
    if value >= 0 then value * 2 else -value * 2 - 1
  }

  function Unfolded(folded: nat): int {
    if folded % 2 == 0 then Wrap16(folded / 2) else Wrap16(-Wrap16((folded + 1) / 2))
  }

  function SignedField(value: int, count: nat): Field {
    var max := C.Pow2(count) - 1;
    Field(if Folded(value) < max then Folded(value) else max, count)
  }

  lemma UnfoldedFolded(value: int)
    requires I16(value)
    ensures Unfolded(Folded(value)) == value
  {
  }

  lemma FoldedUnfolded(folded: nat)
    requires folded < 0x1_0000
    ensures Folded(Unfolded(folded)) == folded
  {
  }

  /**
   * A signed value survives exactly when its folded form fits the width. A
   * larger one saturates, and is read as another value.
   */
  lemma SignedExact(value: int, count: nat)
    requires I16(value) && count < 32
    ensures SignedField(value, count).Fits()
    ensures Unfolded(SignedField(value, count).value) == value <==> Folded(value) <= C.Pow2(count) - 1
    ensures Unfolded(SignedField(value, count).value) == value <==>
      if count == 0 then value == 0 else -(C.Pow2(count - 1) as int) <= value < C.Pow2(count - 1)
  {
    FoldedFits(value, count);
    hide C.Pow2;
    hide Folded;
    hide Unfolded;
    UnfoldedFolded(value);
    var max := C.Pow2(count) - 1;
    WordSize();
    if count >= 16 {
      C.Pow2Monotone(16, count);
    } else {
      C.Pow2Monotone(count, 16);
      FoldedUnfolded(max);
    }
  }

  lemma FoldedFits(value: int, count: nat)
    ensures Folded(value) <= C.Pow2(count) - 1 <==>
      if count == 0 then value == 0 else -(C.Pow2(count - 1) as int) <= value < C.Pow2(count - 1)
  {
  }

  lemma WordSize()
    ensures C.Pow2(16) == 0x1_0000
  {
    C.Pow2Sum(8, 8);
    C.Pow2Sum(4, 4);
  }

  method WriteSigned(e: Encoder, value: int, count: nat)
    requires e.Valid() && I16(value) && count < 32
    modifies e
    ensures e.Valid() && e.Contents() == old(e.Contents()) + Bits(SignedField(value, count).value, count)
  {
    hide C.Pow2;
    hide Bits;
    var folded: nat := if value >= 0 then value * 2 else -value * 2 - 1;
    C.Pow2Monotone(count, 32);
    C.IndexBits();
    var max := C.Pow2(count) - 1;
    e.WriteBits(if folded < max then folded else max, count);
  }

  method ReadSigned(d: Decoder, count: nat) returns (value: int)
    requires count <= 32
    modifies d
    ensures d.position == old(d.position) + count
    ensures value == Unfolded(Read(Unpack(d.bytes), old(d.position), count))
    ensures I16(value)
  {
    var folded: nat := d.ReadBits(count);
    if folded % 2 == 0 {
      value := Wrap16(folded / 2);
    } else {
      value := Wrap16(-Wrap16((folded + 1) / 2));
    }
  }
}
