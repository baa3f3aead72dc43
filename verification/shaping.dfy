/**
 * The shaping filter as it travels: a flag, an order, and one small signed index
 * a tap.
 */
module Shaping {
  import opened Bytes
  import opened BitPacker
  import C = PvqCount
  import S = Stages

  const MAX_ORDER := 8
  const MIN_BYTES_PER_FRAME := 30
  const COEFFICIENT_BITS := 4
  const MAX_INDEX := 7

  /** No taps means the frame is coded without shaping. */
  datatype Filter = Filter(indices: seq<int>) {
    ghost predicate Valid() {
      |indices| <= MAX_ORDER && forall i :: 0 <= i < |indices| ==> -MAX_INDEX <= indices[i] <= MAX_INDEX
    }
  }

  /** Whether a frame of this size carries shaping at all; both sides know. */
  predicate Allowed(bytesPerFrame: nat) {
    bytesPerFrame >= MIN_BYTES_PER_FRAME
  }

  function FilterBits(f: Filter): (n: nat) {
    if f.indices == [] then 1 else 1 + 3 + |f.indices| * COEFFICIENT_BITS
  }

  function TapFields(indices: seq<int>): seq<Field>
    requires forall i :: 0 <= i < |indices| ==> indices[i] >= -8
  {
    if indices == [] then [] else [Field(indices[0] + 8, COEFFICIENT_BITS)] + TapFields(indices[1..])
  }

  function FilterFields(f: Filter): seq<Field>
    requires f.Valid()
  {
    if f.indices == [] then [Field(0, 1)]
    else [Field(1, 1), Field(|f.indices| - 1, 3)] + TapFields(f.indices)
  }

  function Clamped(x: int): (r: int)
    ensures -MAX_INDEX <= r <= MAX_INDEX
  {
    if x < -MAX_INDEX then -MAX_INDEX else if x > MAX_INDEX then MAX_INDEX else x
  }

  function TapsAt(bits: seq<bool>, p: nat, n: nat): (indices: seq<int>)
    ensures |indices| == n
    ensures forall i :: 0 <= i < n ==> -MAX_INDEX <= indices[i] <= MAX_INDEX
    decreases n
  {
    if n == 0 then []
    else [Clamped(Read(bits, p, COEFFICIENT_BITS) - 8)] + TapsAt(bits, p + COEFFICIENT_BITS, n - 1)
  }

  /** What a reader makes of the bits at `p`: whatever they are, a filter within bounds. */
  function FilterAt(bits: seq<bool>, p: nat): (f: Filter)
    ensures f.Valid()
  {
    ReadFits(bits, p + 1, 3);
    assert C.Pow2(3) == 8;
    if Read(bits, p, 1) == 0 then Filter([])
    else Filter(TapsAt(bits, p + 4, Read(bits, p + 1, 3) + 1))
  }

  /** The i-th tap is four bits less eight, and the one value below -7 is held there. */
  lemma {:induction false} TapIs(bits: seq<bool>, p: nat, n: nat, i: nat)
    requires i < n
    ensures var tap := Read(bits, p + 4 * i, 4) - 8;
      -8 <= tap <= 7 && TapsAt(bits, p, n)[i] == if tap == -8 then -7 else tap
    decreases n
  {
    hide Read;
    if i > 0 {
      TapIs(bits, p + 4, n - 1, i - 1);
    } else {
      ReadFits(bits, p, 4);
      assert C.Pow2(4) == 16;
    }
  }

  /** A filter is none, or one to eight taps of four bits each; no other filter is valid. */
  lemma FilterSays(bits: seq<bool>, p: nat)
    ensures Read(bits, p, 1) == 0 ==> FilterAt(bits, p).indices == []
    ensures Read(bits, p, 1) != 0 ==>
      var taps := FilterAt(bits, p).indices;
      1 <= |taps| == Read(bits, p + 1, 3) + 1 <= 8 &&
      forall i :: 0 <= i < |taps| ==>
        var tap := Read(bits, p + 4 + 4 * i, 4) - 8;
        taps[i] == if tap == -8 then -7 else tap
    ensures forall f: Filter :: f.Valid() <==> |f.indices| <= 8 && forall i :: 0 <= i < |f.indices| ==> -7 <= f.indices[i] <= 7
  {
    hide Read;
    hide TapsAt;
    ReadFits(bits, p + 1, 3);
    EightOrders();
    if Read(bits, p, 1) != 0 {
      var n := Read(bits, p + 1, 3) + 1;
      forall i | 0 <= i < n
        ensures var tap := Read(bits, p + 4 + 4 * i, 4) - 8;
          TapsAt(bits, p + 4, n)[i] == if tap == -8 then -7 else tap
      {
        TapIs(bits, p + 4, n, i);
      }
    }
  }

  lemma {:induction false} TapsReadBack(bits: seq<bool>, p: nat, indices: seq<int>)
    requires Filter(indices).Valid() && ReadsBack(bits, p, TapFields(indices))
    ensures TapsAt(bits, p, |indices|) == indices
    decreases |indices|
  {
    hide Read;
    if indices != [] {
      assert TapFields(indices)[1..] == TapFields(indices[1..]);
      TapsReadBack(bits, p + COEFFICIENT_BITS, indices[1..]);
    }
  }

  lemma {:induction false} TapsFit(indices: seq<int>)
    requires Filter(indices).Valid()
    ensures AllFit(TapFields(indices)) && Widths(TapFields(indices)) == |indices| * COEFFICIENT_BITS
  {
    if indices != [] {
      assert C.Pow2(4) == 16;
      TapsFit(indices[1..]);
      assert TapFields(indices)[1..] == TapFields(indices[1..]);
    }
  }

  lemma FilterFits(f: Filter)
    requires f.Valid()
    ensures AllFit(FilterFields(f)) && Widths(FilterFields(f)) == FilterBits(f) <= 36
  {
    assert C.Pow2(1) == 2 && C.Pow2(3) == 8;
    hide C.Pow2;
    if f.indices == [] {
      assert FilterFields(f)[1..] == [];
    } else {
      TapsFit(f.indices);
      var head := [Field(1, 1), Field(|f.indices| - 1, 3)];
      HeadWidth(|f.indices| - 1);
      S.WidthsAppend(head, TapFields(f.indices));
    }
  }

  lemma HeadWidth(order: nat)
    ensures Widths([Field(1, 1), Field(order, 3)]) == 4
  {
    var head := [Field(1, 1), Field(order, 3)];
    assert head[1..] == [head[1]] && head[1..][1..] == [] && Widths(head[1..][1..]) == 0;
    assert Widths(head[1..]) == 3;
  }

  /** The filter survives the wire. */
  lemma FilterReadsBack(bits: seq<bool>, p: nat, f: Filter)
    requires f.Valid() && ReadsBack(bits, p, FilterFields(f))
    ensures FilterAt(bits, p) == f
  {
    hide Read;
    if f.indices != [] {
      var head := [Field(1, 1), Field(|f.indices| - 1, 3)];
      HeadWidth(|f.indices| - 1);
      S.ReadsBackSplit(bits, p, head, TapFields(f.indices));
      assert head[1..] == [head[1]];
      assert ReadsBack(bits, p + 1, head[1..]);
      TapsReadBack(bits, p + 4, f.indices);
    }
  }

  method WriteFilter(e: Encoder, f: Filter)
    requires e.Valid() && f.Valid()
    modifies e
    ensures e.Valid() && e.Contents() == old(e.Contents()) + Written(FilterFields(f))
  {
    hide Bits;
    hide Encoder.Contents;
    hide Encoder.Valid;
    hide Written;
    hide TapFields;
    ghost var before := e.Contents();
    if f.indices == [] {
      OneField(0, 1);
      e.WriteBits(0, 1);
      return;
    }
    ghost var bits := Written(FilterFields(f));
    HeaderAndTaps(before, f);
    e.WriteBits(1, 1);
    e.WriteBits(|f.indices| - 1, 3);
    for i := 0 to |f.indices|
      invariant e.Valid()
      invariant e.Contents() + Written(TapFields(f.indices[i..])) == before + bits
    {
      TapsNext(e.Contents(), f.indices[i..]);
      assert f.indices[i..][1..] == f.indices[i + 1..];
      e.WriteBits(f.indices[i] + 8, COEFFICIENT_BITS);
    }
    NoTaps(e.Contents(), f.indices[|f.indices|..]);
  }

  lemma OneField(value: nat, width: nat)
    ensures Written([Field(value, width)]) == Bits(value, width)
  {
    var f := [Field(value, width)];
    assert f[1..] == [] && Written(f[1..]) == [];
    assert Bits(value, width) + [] == Bits(value, width);
  }

  lemma NoTaps(before: seq<bool>, indices: seq<int>)
    requires indices == []
    ensures before + Written(TapFields(indices)) == before
  {
    assert before + [] == before;
  }

  lemma TapsNext(before: seq<bool>, indices: seq<int>)
    requires Filter(indices).Valid() && indices != []
    ensures before + Written(TapFields(indices)) ==
      before + Bits(indices[0] + 8, COEFFICIENT_BITS) + Written(TapFields(indices[1..]))
  {
    hide Bits;
    OneField(indices[0] + 8, COEFFICIENT_BITS);
    WrittenAppend([Field(indices[0] + 8, COEFFICIENT_BITS)], TapFields(indices[1..]));
    Assoc(before, Bits(indices[0] + 8, COEFFICIENT_BITS), Written(TapFields(indices[1..])));
  }

  lemma HeaderAndTaps(before: seq<bool>, f: Filter)
    requires f.Valid() && f.indices != []
    ensures f.indices[0..] == f.indices
    ensures before + Bits(1, 1) + Bits(|f.indices| - 1, 3) + Written(TapFields(f.indices)) ==
      before + Written(FilterFields(f))
  {
    hide Bits;
    hide Written;
    hide TapFields;
    var order := |f.indices| - 1;
    var one, two, taps := [Field(1, 1)], [Field(order, 3)], TapFields(f.indices);
    OneField(1, 1);
    OneField(order, 3);
    assert FilterFields(f) == one + two + taps;
    WrittenAppend(one + two, taps);
    WrittenAppend(one, two);
    Assoc(before, Bits(1, 1), Bits(order, 3));
    Assoc(before, Bits(1, 1) + Bits(order, 3), Written(taps));
  }

  method ReadFilter(d: Decoder) returns (f: Filter)
    modifies d
    ensures f.Valid() && f == FilterAt(Unpack(d.bytes), old(d.position))
    ensures d.position == old(d.position) + FilterBits(f)
  {
    hide Unpack;
    hide Read;
    hide C.Pow2;
    hide TapsAt;
    ghost var bits := Unpack(d.bytes);
    ghost var p := d.position;
    ReadFits(bits, p + 1, 3);
    EightOrders();
    var active := d.ReadBits(1);
    if active == 0 {
      return Filter([]);
    }
    var order := d.ReadBits(3);
    var indices := ReadTaps(d, order + 1);
    f := Filter(indices);
  }

  lemma NextTap(bits: seq<bool>, p: nat, n: nat, before: seq<int>)
    requires n > 0
    ensures before + TapsAt(bits, p, n) ==
      (before + [Clamped(Read(bits, p, COEFFICIENT_BITS) - 8)]) + TapsAt(bits, p + COEFFICIENT_BITS, n - 1)
  {
    Assoc(before, [Clamped(Read(bits, p, COEFFICIENT_BITS) - 8)], TapsAt(bits, p + COEFFICIENT_BITS, n - 1));
  }

  method ReadTaps(d: Decoder, n: nat) returns (indices: seq<int>)
    modifies d
    ensures indices == TapsAt(Unpack(d.bytes), old(d.position), n)
    ensures d.position == old(d.position) + n * COEFFICIENT_BITS
  {
    hide Unpack;
    hide Read;
    hide TapsAt;
    hide Clamped;
    ghost var bits := Unpack(d.bytes);
    ghost var whole := TapsAt(bits, d.position, n);
    indices := [];
    assert [] + whole == whole;
    for i := 0 to n
      invariant d.position == old(d.position) + i * COEFFICIENT_BITS
      invariant TapsSoFar(bits, whole, d.position, n - i, indices)
    {
      hide TapsSoFar;
      NextTapRead(bits, whole, d.position, n - i, indices);
      var raw: nat := d.ReadBits(COEFFICIENT_BITS);
      indices := indices + [Clamped(raw - 8)];
    }
    NoTapsLeft(bits, d.position, indices);
  }

  ghost predicate TapsSoFar(bits: seq<bool>, whole: seq<int>, p: nat, left: nat, indices: seq<int>) {
    indices + TapsAt(bits, p, left) == whole
  }

  lemma NextTapRead(bits: seq<bool>, whole: seq<int>, p: nat, left: nat, indices: seq<int>)
    requires TapsSoFar(bits, whole, p, left, indices) && left > 0
    ensures TapsSoFar(bits, whole, p + COEFFICIENT_BITS, left - 1, indices + [Clamped(Read(bits, p, COEFFICIENT_BITS) - 8)])
  {
    NextTap(bits, p, left, indices);
  }

  lemma NoTapsLeft(bits: seq<bool>, p: nat, indices: seq<int>)
    ensures indices + TapsAt(bits, p, 0) == indices
  {
  }

  lemma EightOrders()
    ensures C.Pow2(3) == 8
  {
  }
}
