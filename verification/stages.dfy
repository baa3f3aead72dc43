/** Codebook indices and quantiser stages as they travel in a frame. */
module Stages {
  import opened Bytes
  import opened BitPacker
  import C = PvqCount
  import I = PvqIndex

  const GAIN_BITS := 4
  const WORD := 0x1_0000_0000

  function BookWidth(n: nat, k: nat): (w: nat)
    ensures C.Count(n, k) < C.INDEX_LIMIT ==> w <= 62
  {
    C.IndexBits();
    C.Width(C.Count(n, k))
  }

  /** An index of more than 32 bits goes as two values, the high one first. */
  function IndexFields(index: nat, width: nat): (f: seq<Field>)
    ensures Widths(f) == width
  {
    if width > 32 then
      var f := [Field(index / WORD % WORD, width - 32), Field(index % WORD, 32)];
      assert f[1..] == [f[1]] && f[1..][1..] == [] && Widths(f[1..]) == 32;
      f
    else
      [Field(index % WORD, width)]
  }

  /** A number of two parts is written one part after the other. */
  lemma {:induction false} TwoParts(high: nat, low: nat, h: nat, l: nat)
    requires low < C.Pow2(l)
    ensures Bits(high * C.Pow2(l) + low, h + l) == Bits(high, h) + Bits(low, l)
    decreases l
  {
    if l == 0 {
      assert Bits(high, h) + [] == Bits(high, h);
    } else {
      Halving(high, low, C.Pow2(l - 1));
      TwoParts(high, low / 2, h, l - 1);
      hide *;
      LastBit(high * C.Pow2(l) + low, h + l);
      LastBit(low, l);
      Assoc(Bits(high, h), Bits(low / 2, l - 1), [low % 2 == 1]);
    }
  }

  lemma LastBit(value: nat, width: nat)
    requires width > 0
    ensures Bits(value, width) == Bits(value / 2, width - 1) + [value % 2 == 1]
  {
  }

  lemma Halving(high: nat, low: nat, half: nat)
    requires low < 2 * half
    ensures low / 2 < half
    ensures (high * (2 * half) + low) / 2 == high * half + low / 2
    ensures (high * (2 * half) + low) % 2 == low % 2
  {
    assert high * (2 * half) == 2 * (high * half);
  }

  /** Splitting an index at 32 bits leaves the bits as they would be in one piece. */
  lemma SplitIsInvisible(index: nat, width: nat)
    requires width <= 62 && index < C.Pow2(width)
    ensures Written(IndexFields(index, width)) == Bits(index, width)
  {
    hide *;
    FieldsAre(index, width);
    if width > 32 {
      Rejoined(index, index / WORD, index % WORD, width, 32);
      TwoFields(IndexFields(index, width));
    } else {
      SingleField(IndexFields(index, width));
    }
  }

  lemma Rejoined(index: nat, high: nat, low: nat, width: nat, l: nat)
    requires l <= width && low < C.Pow2(l) && high * C.Pow2(l) + low == index
    ensures Bits(index, width) == Bits(high, width - l) + Bits(low, l)
  {
    hide *;
    TwoParts(high, low, width - l, l);
  }

  lemma FieldsAre(index: nat, width: nat)
    requires width <= 62 && index < C.Pow2(width)
    ensures C.Pow2(32) == WORD && index % WORD < WORD && index / WORD * WORD + index % WORD == index
    ensures width > 32 ==> IndexFields(index, width) == [Field(index / WORD, width - 32), Field(index % WORD, 32)]
    ensures width <= 32 ==> IndexFields(index, width) == [Field(index, width)]
  {
    hide C.Pow2;
    Halves(index, width);
  }

  lemma TwoFields(f: seq<Field>)
    requires |f| == 2
    ensures Written(f) == Bits(f[0].value, f[0].width) + Bits(f[1].value, f[1].width)
  {
    hide Bits;
    assert f[1..][0] == f[1] && f[1..][1..] == [];
    SingleField(f[1..]);
  }

  lemma SingleField(f: seq<Field>)
    requires |f| == 1
    ensures Written(f) == Bits(f[0].value, f[0].width)
  {
    hide Bits;
    assert f[1..] == [];
    assert Bits(f[0].value, f[0].width) + [] == Bits(f[0].value, f[0].width);
  }

  function IndexAt(bits: seq<bool>, p: nat, width: nat): nat {
    if width > 32 then Read(bits, p, width - 32) * WORD + Read(bits, p + (width - 32), 32)
    else Read(bits, p, width)
  }

  lemma Halves(index: nat, width: nat)
    requires width <= 62 && index < C.Pow2(width)
    ensures AllFit(IndexFields(index, width))
    ensures width > 32 ==> index / WORD < WORD
    ensures width <= 32 ==> index < WORD
    ensures C.Pow2(32) == WORD
  {
    hide C.Pow2;
    C.IndexBits();
    if width > 32 {
      C.Pow2Sum(width - 32, 32);
      HighBits(width - 32);
      Quotient(index, C.Pow2(width - 32));
      SmallEnough(index / WORD);
      SmallEnough(index % WORD);
    } else {
      C.Pow2Monotone(width, 32);
      SmallEnough(index);
    }
  }

  lemma HighBits(width: nat)
    requires width <= 30
    ensures C.Pow2(width) < WORD
  {
    hide C.Pow2;
    C.IndexBits();
    C.Pow2Sum(30, 2);
    C.Pow2Monotone(width, 30);
    assert C.Pow2(2) == 4 by { Four(); }
  }

  lemma Four()
    ensures C.Pow2(2) == 4
  {
  }

  lemma SmallEnough(x: nat)
    requires x < WORD
    ensures x % WORD == x
  {
  }

  lemma Quotient(index: nat, m: nat)
    requires index < m * WORD
    ensures index / WORD < m
  {
  }

  /** An index of up to 62 bits survives the split. */
  lemma IndexReadsBack(bits: seq<bool>, p: nat, index: nat, width: nat)
    requires width <= 62 && index < C.Pow2(width)
    requires ReadsBack(bits, p, IndexFields(index, width))
    ensures IndexAt(bits, p, width) == index
  {
    hide Read;
    hide C.Pow2;
    Halves(index, width);
    var f := IndexFields(index, width);
    if width > 32 {
      assert f[1..] == [f[1]];
      assert ReadsBack(bits, p + f[0].width, f[1..]);
    }
  }

  method WriteIndex(e: Encoder, index: nat, width: nat)
    requires e.Valid() && width <= 62 && index <= U64_MAX
    modifies e
    ensures e.Valid() && e.Contents() == old(e.Contents()) + Written(IndexFields(index, width))
  {
    hide Bits;
    hide Written;
    hide IndexFields;
    hide Encoder.Contents;
    hide Encoder.Valid;
    ghost var before := e.Contents();
    IndexBitsAre(before, index, width);
    if width > 32 {
      e.WriteBits(index / WORD % WORD, width - 32);
      e.WriteBits(index % WORD, 32);
    } else {
      e.WriteBits(index % WORD, width);
    }
  }

  lemma IndexBitsAre(before: seq<bool>, index: nat, width: nat)
    ensures before + Written(IndexFields(index, width)) ==
      if width > 32 then before + Bits(index / WORD % WORD, width - 32) + Bits(index % WORD, 32)
      else before + Bits(index % WORD, width)
  {
    var f := IndexFields(index, width);
    if width > 32 {
      assert f[1..] == [f[1]] && f[1..][1..] == [];
      var low := Bits(index % WORD, 32);
      assert Written(f[1..]) == low + [];
      assert low + [] == low;
      Assoc(before, Bits(index / WORD % WORD, width - 32), low);
    } else {
      assert f[1..] == [];
      assert Bits(index % WORD, width) + [] == Bits(index % WORD, width);
    }
  }

  method ReadIndex(d: Decoder, width: nat) returns (index: nat)
    requires width <= 62
    modifies d
    ensures d.position == old(d.position) + width
    ensures index == IndexAt(Unpack(d.bytes), old(d.position), width)
    ensures index < C.Pow2(width)
  {
    hide Unpack;
    hide Read;
    hide C.Pow2;
    if width > 32 {
      var high: nat := d.ReadBits(width - 32);
      var low := d.ReadBits(32);
      Joined(high, low, width - 32);
      index := high * WORD + low;
    } else {
      index := d.ReadBits(width);
    }
  }

  lemma Joined(high: nat, low: nat, width: nat)
    requires high < C.Pow2(width) && low < C.Pow2(32)
    ensures high * WORD + low < C.Pow2(width + 32)
  {
    C.IndexBits();
    hide C.Pow2;
    C.Pow2Sum(width, 32);
    assert (high + 1) * WORD <= C.Pow2(width) * WORD;
  }

  // --- quantiser stages ---

  datatype Stage = Stage(pulses: nat, index: nat, gain: nat, negative: bool)

  /** A stage as a quantiser makes it: an index into its own codebook, and a gain in its field. */
  ghost predicate Sendable(n: nat, s: Stage) {
    C.Count(n, s.pulses) < C.INDEX_LIMIT && s.index < C.Count(n, s.pulses) && s.gain < 16
  }

  function StageFields(n: nat, s: Stage): seq<Field> {
    IndexFields(s.index, BookWidth(n, s.pulses)) + [Field(s.gain, GAIN_BITS), Field(if s.negative then 1 else 0, 1)]
  }

  function StageWidth(n: nat, pulses: nat): nat {
    BookWidth(n, pulses) + GAIN_BITS + 1
  }

  /** What a reader makes of the bits at `p`, whatever they are. */
  function StageAt(bits: seq<bool>, p: nat, n: nat, pulses: nat): (s: Stage)
    ensures s.pulses == pulses && C.Count(n, pulses) > 0 ==> s.index < C.Count(n, pulses)
  {
    var width := BookWidth(n, pulses);
    var total := C.Count(n, pulses);
    Stage(pulses, InBookIndex(IndexAt(bits, p, width), total),
          Read(bits, p + width, GAIN_BITS), Read(bits, p + width + GAIN_BITS, 1) == 1)
  }

  function InBookIndex(index: nat, total: nat): (i: nat)
    ensures total > 0 ==> i < total
    ensures index < total ==> i == index
  {
    if total > 0 then index % total else 0
  }

  lemma {:induction false} ReadsBackSplit(bits: seq<bool>, p: nat, a: seq<Field>, b: seq<Field>)
    ensures ReadsBack(bits, p, a + b) <==> ReadsBack(bits, p, a) && ReadsBack(bits, p + Widths(a), b)
    decreases |a|
  {
    hide Read;
    if a == [] {
      assert [] + b == b;
    } else {
      ReadsBackSplit(bits, p + a[0].width, a[1..], b);
      assert (a + b)[1..] == a[1..] + b;
    }
  }

  /** Every index into a book fits in the width of the book. */
  lemma IndexFits(n: nat, k: nat, index: nat)
    requires C.Count(n, k) < C.INDEX_LIMIT && index < C.Count(n, k)
    ensures BookWidth(n, k) <= 62 && index < C.Pow2(BookWidth(n, k))
  {
  }

  lemma StageFits(n: nat, s: Stage)
    requires Sendable(n, s)
    ensures AllFit(StageFields(n, s)) && Widths(StageFields(n, s)) == StageWidth(n, s.pulses)
  {
    hide BookWidth;
    hide C.Pow2;
    IndexFits(n, s.pulses, s.index);
    Halves(s.index, BookWidth(n, s.pulses));
    SmallFields(s);
    var tail := [Field(s.gain, GAIN_BITS), Field(if s.negative then 1 else 0, 1)];
    WidthsAppend(IndexFields(s.index, BookWidth(n, s.pulses)), tail);
  }

  lemma SmallFields(s: Stage)
    requires s.gain < 16
    ensures var tail := [Field(s.gain, GAIN_BITS), Field(if s.negative then 1 else 0, 1)];
      AllFit(tail) && Widths(tail) == GAIN_BITS + 1
  {
    var tail := [Field(s.gain, GAIN_BITS), Field(if s.negative then 1 else 0, 1)];
    assert C.Pow2(4) == 16 && C.Pow2(1) == 2;
    assert tail[1..] == [tail[1]] && tail[1..][1..] == [];
    assert Widths(tail[1..][1..]) == 0;
    assert Widths(tail[1..]) == 1;
  }

  lemma {:induction false} WidthsAppend(a: seq<Field>, b: seq<Field>)
    ensures Widths(a + b) == Widths(a) + Widths(b)
  {
    if a == [] {
      assert [] + b == b;
    } else {
      WidthsAppend(a[1..], b);
      assert (a + b)[1..] == a[1..] + b;
    }
  }

  /** A stage reads back as it was sent. */
  lemma StageReadsBack(bits: seq<bool>, p: nat, n: nat, s: Stage)
    requires Sendable(n, s) && ReadsBack(bits, p, StageFields(n, s))
    ensures StageAt(bits, p, n, s.pulses) == s
  {
    hide Read;
    hide C.Pow2;
    hide BookWidth;
    IndexFits(n, s.pulses, s.index);
    var width := BookWidth(n, s.pulses);
    var tail := [Field(s.gain, GAIN_BITS), Field(if s.negative then 1 else 0, 1)];
    ReadsBackSplit(bits, p, IndexFields(s.index, width), tail);
    IndexReadsBack(bits, p, s.index, width);
    assert tail[1..] == [tail[1]];
    assert ReadsBack(bits, p + width + GAIN_BITS, tail[1..]);
  }

  method WriteStage(e: Encoder, n: nat, s: Stage)
    requires e.Valid() && Sendable(n, s)
    modifies e
    ensures e.Valid() && e.Contents() == old(e.Contents()) + Written(StageFields(n, s))
    ensures e.Contents() ==
      old(e.Contents()) + Bits(s.index, BookWidth(n, s.pulses)) + Bits(s.gain, 4) + Bits(if s.negative then 1 else 0, 1)
  {
    hide Bits;
    hide Written;
    hide IndexFields;
    hide StageFields;
    hide BookWidth;
    hide C.Pow2;
    hide Encoder.Contents;
    hide Encoder.Valid;
    ghost var before := e.Contents();
    IndexFits(n, s.pulses, s.index);
    StageBitsAre(before, n, s);
    SplitIsInvisible(s.index, BookWidth(n, s.pulses));
    WriteIndex(e, s.index, BookWidth(n, s.pulses));
    e.WriteBits(s.gain, GAIN_BITS);
    e.WriteBits(if s.negative then 1 else 0, 1);
  }

  lemma StageBitsAre(before: seq<bool>, n: nat, s: Stage)
    requires Sendable(n, s)
    ensures s.gain < WORD && s.index <= U64_MAX
    ensures before + Written(StageFields(n, s)) ==
      before + Written(IndexFields(s.index, BookWidth(n, s.pulses))) + Bits(s.gain, GAIN_BITS) +
      Bits(if s.negative then 1 else 0, 1)
  {
    hide Bits;
    hide IndexFields;
    hide BookWidth;
    var index := IndexFields(s.index, BookWidth(n, s.pulses));
    var tail := [Field(s.gain, GAIN_BITS), Field(if s.negative then 1 else 0, 1)];
    WrittenAppend(index, tail);
    var g := Bits(s.gain, GAIN_BITS);
    var sign := Bits(if s.negative then 1 else 0, 1);
    assert tail[1..] == [tail[1]] && tail[1..][1..] == [];
    assert Written(tail[1..]) == sign + [];
    assert sign + [] == sign;
    assert Written(tail) == g + sign;
    Assoc(before, Written(index), g + sign);
    Assoc(before + Written(index), g, sign);
  }

  method ReadStage(d: Decoder, n: nat, pulses: nat) returns (s: Stage)
    requires C.Count(n, pulses) < C.INDEX_LIMIT
    modifies d
    ensures d.position == old(d.position) + StageWidth(n, pulses)
    ensures s == StageAt(Unpack(d.bytes), old(d.position), n, pulses)
  {
    hide Unpack;
    hide Read;
    hide C.Count;
    hide C.Width;
    hide C.Pow2;
    hide IndexAt;
    var width := BookWidth(n, pulses);
    var index := ReadIndex(d, width);
    var gain := d.ReadBits(GAIN_BITS);
    var negative := d.ReadBits(1);
    s := Stage(pulses, InBookIndex(index, C.Count(n, pulses)), gain, negative == 1);
  }

  /** An index past the end of its codebook goes round to the start. */
  lemma WrapsRound(index: nat, total: nat) returns (turns: nat)
    requires total > 0
    ensures index == turns * total + InBookIndex(index, total) && InBookIndex(index, total) < total
  {
    turns := index / total;
  }

  /** Whatever the bits, a stage names a vector of its own book when the book has any. */
  lemma AnyStageDecodes(bits: seq<bool>, p: nat, n: nat, pulses: nat)
    requires 0 < C.Count(n, pulses) < C.INDEX_LIMIT
    ensures I.InBook(I.Unrank(n, pulses, StageAt(bits, p, n, pulses).index), n, pulses)
  {
    I.RankOfUnrank(n, pulses, StageAt(bits, p, n, pulses).index);
  }
}
