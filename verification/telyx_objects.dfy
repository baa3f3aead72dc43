/**
 * The fixed-rate encoder and decoder as objects: the level memory each carries
 * between frames, and the loops that write and read a frame's bits. Their
 * methods are proved against the functions of `Telyx`, which say what a frame
 * holds and what a decoder makes of any bits at all.
 */
module TelyxObjects {
  import opened Bytes
  import opened Common
  import opened BitPacker
  import opened DifferentialLevels
  import opened Shaping
  import opened Telyx
  import A = Bands
  import C = PvqCount
  import I = PvqIndex
  import S = Stages
  import Q = PvqSearch
  import R = LevelRefinement

  // --- writing ---

  method QuantiseBands(s: Setting, input: Input, levels: seq<nat>, bits: seq<nat>) returns (shapes: seq<Shape>)
    requires s.Valid() && input.Valid() && |levels| == |bits| == BANDS
    requires forall b :: 0 <= b < BANDS ==> levels[b] < 256
    ensures shapes == Shapes(s, input.bins, levels, bits)
  {
    hide Quantised;
    hide C.Pulses;
    shapes := [];
    ghost var all := Shapes(s, input.bins, levels, bits);
    for b := 0 to BANDS
      invariant shapes == all[..b]
    {
      var shape := QuantiseBand(input.bins[b], s.scale.gain[levels[b]], bits[b]);
      shapes := shapes + [shape];
    }
    assert all[..BANDS] == all;
  }

  method QuantiseBand(bins: seq<real>, gain: real, bits: nat) returns (shape: Shape)
    ensures shape == Quantised(bins, gain, bits)
  {
    var k := C.PulsesFor(|bins|, bits);
    if k == 0 {
      return Noise;
    }
    var y := Q.Search(Normalised(bins, gain), k);
    shape := Coded(y);
  }

  method WriteLevels(e: Encoder, t: Tracker, levels: seq<nat>, q: nat)
    requires e.Valid() && IsQuantum(q) && Tracking(t, q) && Levels(levels, q)
    modifies e
    ensures e.Valid() && e.Contents() == old(e.Contents()) + Written(LevelFields(t, levels, 0, q))
  {
    hide Bits;
    hide Encoder.Contents;
    hide Encoder.Valid;
    hide Written;
    hide LevelFields;
    hide LevelBits;
    hide Code;
    hide Tracking;
    hide Levels;
    LevelsAre(t, levels, q);
    ghost var end := e.Contents() + Written(LevelFields(t, levels, 0, q));
    for b := 0 to BANDS
      invariant e.Valid()
      invariant e.Contents() + Written(LevelFields(t, levels, b, q)) == end
    {
      NextLevel(e.Contents(), t, levels, b, q);
      e.WriteBits(Code(t, levels[b], b, q), LevelBits(q));
    }
    NoLevels(e.Contents(), t, levels, q);
  }

  lemma LevelsAre(t: Tracker, levels: seq<nat>, q: nat)
    requires IsQuantum(q) && Tracking(t, q) && Levels(levels, q)
    ensures |t.previous| == BANDS && |levels| == BANDS && LevelBits(q) <= 32
  {
  }

  lemma NextLevel(before: seq<bool>, t: Tracker, levels: seq<nat>, b: nat, q: nat)
    requires IsQuantum(q) && Tracking(t, q) && Levels(levels, q) && b < BANDS
    ensures Code(t, levels[b], b, q) < 0x1_0000_0000
    ensures before + Written(LevelFields(t, levels, b, q)) ==
      before + Bits(Code(t, levels[b], b, q), LevelBits(q)) + Written(LevelFields(t, levels, b + 1, q))
  {
    hide Bits;
    hide Written;
    hide LevelBits;
    hide Code;
    BandFollows(t, Tracker(Floors(t.previous, q), t.started), levels[b], b, q);
    var f, rest := [Field(Code(t, levels[b], b, q), LevelBits(q))], LevelFields(t, levels, b + 1, q);
    OneField(Code(t, levels[b], b, q), LevelBits(q));
    WrittenAppend(f, rest);
    Assoc(before, Written(f), Written(rest));
  }

  lemma NoLevels(before: seq<bool>, t: Tracker, levels: seq<nat>, q: nat)
    requires IsQuantum(q) && |t.previous| == |levels| == BANDS
    ensures before + Written(LevelFields(t, levels, BANDS, q)) == before
  {
    assert before + [] == before;
  }

  method WriteShape(e: Encoder, shape: Shape, n: nat, bits: nat)
    requires e.Valid() && Pays(shape, n, bits) && n <= C.MAX_N
    modifies e
    ensures e.Valid() && e.Contents() == old(e.Contents()) + Written(ShapeFields(shape))
  {
    hide Bits;
    hide Encoder.Contents;
    hide Encoder.Valid;
    hide Written;
    match shape
    case Noise =>
      NoFields(e.Contents());
    case Coded(y) =>
      ShapeCountable(y, n, bits);
      hide Pays;
      hide C.Pulses;
      var k := I.SumOf(y);
      var index := I.Index(y);
      WriteIndex(e, index, y, k);
  }

  method WriteIndex(e: Encoder, index: nat, y: seq<int>, k: nat)
    requires e.Valid() && k == I.L1(y) && index == I.Rank(y) && index <= U64_MAX && S.BookWidth(|y|, k) <= 62
    modifies e
    ensures e.Valid() && e.Contents() == old(e.Contents()) + Written(ShapeFields(Coded(y)))
  {
    hide Bits;
    hide Encoder.Contents;
    hide Encoder.Valid;
    hide Written;
    S.WriteIndex(e, index, S.BookWidth(|y|, k));
  }

  lemma NoFields(before: seq<bool>)
    ensures before + Written([]) == before
  {
    assert before + [] == before;
  }

  lemma ShapeCountable(y: seq<int>, n: nat, bits: nat)
    requires Pays(Coded(y), n, bits) && n <= C.MAX_N
    ensures I.Countable(|y|, I.L1(y)) && S.BookWidth(|y|, I.L1(y)) <= 62
  {
    PaidFor(Coded(y), n, bits);
    var k := C.Pulses(n, bits);
    C.AffordableWidth(n, k, bits);
    S.IndexFits(n, k, I.Rank(y));
  }

  method WriteShapes(e: Encoder, shapes: seq<Shape>, bits: seq<nat>)
    requires e.Valid() && AllPay(shapes, bits)
    modifies e
    ensures e.Valid() && e.Contents() == old(e.Contents()) + Written(AllShapeFields(shapes))
  {
    hide Encoder.Contents;
    hide Encoder.Valid;
    hide Written;
    hide AllShapeFields;
    hide ShapeFields;
    hide Pays;
    hide A.Width;
    ghost var end := e.Contents() + Written(AllShapeFields(shapes));
    assert shapes[0..] == shapes;
    for b := 0 to BANDS
      invariant e.Valid()
      invariant e.Contents() + Written(AllShapeFields(shapes[b..])) == end
    {
      assert shapes[b..] == [shapes[b]] + shapes[b + 1..];
      NextShape(e.Contents(), shapes[b], shapes[b + 1..]);
      assert Pays(shapes[b], A.Width(b), bits[b]);
      WriteShape(e, shapes[b], A.Width(b), bits[b]);
    }
    NoShapes(e.Contents(), shapes[BANDS..]);
  }

  lemma NextShape(before: seq<bool>, shape: Shape, rest: seq<Shape>)
    ensures before + Written(AllShapeFields([shape] + rest)) ==
      before + Written(ShapeFields(shape)) + Written(AllShapeFields(rest))
  {
    hide Written;
    hide ShapeFields;
    assert ([shape] + rest)[1..] == rest;
    WrittenAppend(ShapeFields(shape), AllShapeFields(rest));
    Assoc(before, Written(ShapeFields(shape)), Written(AllShapeFields(rest)));
  }

  lemma NoShapes(before: seq<bool>, shapes: seq<Shape>)
    requires shapes == []
    ensures before + Written(AllShapeFields(shapes)) == before
  {
    assert before + [] == before;
  }

  /** A frame's bits, part after part. */
  lemma FrameBits(s: Setting, t: Tracker, sent: Sent)
    requires sent.filter.Valid() && |t.previous| == |sent.levels| == BANDS
    ensures Written(Fields(s, t, sent)) ==
      Written(FilterPart(s, sent.filter)) + Written(LevelFields(t, sent.levels, 0, s.Quantum())) +
      Written(AllShapeFields(sent.shapes))
  {
    hide Written;
    hide LevelFields;
    hide AllShapeFields;
    hide FilterPart;
    var filter := FilterPart(s, sent.filter);
    var levels := LevelFields(t, sent.levels, 0, s.Quantum());
    var shapes := AllShapeFields(sent.shapes);
    WrittenAppend(levels, shapes);
    WrittenAppend(filter, levels + shapes);
    Assoc(Written(filter), Written(levels), Written(shapes));
  }

  method Pack(s: Setting, t: Tracker, sent: Sent, bits: seq<nat>) returns (out: seq<Byte>)
    requires s.Valid() && sent.filter.Valid() && Tracking(t, s.Quantum()) && Levels(sent.levels, s.Quantum())
    requires AllPay(sent.shapes, bits)
    ensures Holds(out, Written(Fields(s, t, sent)))
    ensures |out| == (|Written(Fields(s, t, sent))| + 7) / 8
  {
    hide Written;
    hide AllShapeFields;
    hide LevelFields;
    hide FilterFields;
    hide AllPay;
    hide Holds;
    hide Encoder.Valid;
    hide Encoder.Contents;
    hide Tracking;
    hide Levels;
    LevelsAre(t, sent.levels, s.Quantum());
    FrameBits(s, t, sent);
    var e := new Encoder();
    if Allowed(s.bytes) {
      WriteFilter(e, sent.filter);
    }
    FilterWritten(s, sent.filter);
    assert e.Contents() == Written(FilterPart(s, sent.filter));
    WriteLevels(e, t, sent.levels, s.Quantum());
    WriteShapes(e, sent.shapes, bits);
    out := e.Finish();
  }

  lemma FilterWritten(s: Setting, filter: Filter)
    requires filter.Valid()
    ensures Written(FilterPart(s, filter)) == if Allowed(s.bytes) then [] + Written(FilterFields(filter)) else []
  {
    assert [] + Written(FilterFields(filter)) == Written(FilterFields(filter));
  }

  class TelyxEncoder {
    const setting: Setting
    var previous: seq<nat>
    var started: bool

    function State(): Tracker
      reads this
    {
      Tracker(previous, started)
    }

    ghost predicate Valid()
      reads this
    {
      setting.Valid() && Tracking(State(), setting.Quantum())
    }

    constructor (setting: Setting)
      requires setting.Valid()
      ensures Valid() && this.setting == setting && State() == Start()
    {
      this.setting := setting;
      previous, started := seq(BANDS, b => 0), false;
    }

    /**
     * One frame of exactly the size agreed, or the reason there is none: a
     * frame of the wrong length, or a rate below the smallest that carries levels.
     */
    method Encode(length: nat, input: Input) returns (r: Result<seq<Byte>>)
      requires Valid() && input.Valid()
      modifies this
      ensures Valid()
      ensures length != 1920 ==> r == Err(WrongFrameSize(length)) && State() == old(State())
      ensures length == 1920 ==>
        var sent := Choose(setting, input);
        State() == Tracker(sent.levels, true) && Delivers(r, setting, old(State()), sent)
    {
      hide Delivers;
      hide Choose;
      hide Tracking;
      hide Levels;
      hide MinimumBytes;
      hide Setting.Valid;
      if length != WINDOW {
        return Err(WrongFrameSize(length));
      }
      var levels;
      r, levels := EncodeFrame(setting, State(), input);
      TrackingNow(levels, setting.Quantum());
      previous, started := levels, true;
    }
  }

  /** The frame a rate allows: its bits, padded to the size agreed, or how many bytes they needed. */
  ghost predicate Delivers(r: Result<seq<Byte>>, s: Setting, t: Tracker, sent: Sent)
    requires sent.filter.Valid() && |t.previous| == |sent.levels| == BANDS
  {
    if s.bytes < MinimumBytes(s.bytes) then r == Err(RateTooLow(s.bytes, MinimumBytes(s.bytes)))
    else r.Ok? && |r.value| == s.bytes && Holds(r.value, Written(Fields(s, t, sent)))
  }

  method EncodeFrame(s: Setting, t: Tracker, input: Input) returns (r: Result<seq<Byte>>, levels: seq<nat>)
    requires s.Valid() && input.Valid() && Tracking(t, s.Quantum())
    ensures levels == Choose(s, input).levels
    ensures Delivers(r, s, t, Choose(s, input))
  {
    hide Choose;
    hide Fields;
    hide Written;
    hide Holds;
    hide MinimumBytes;
    hide AllPay;
    var sent, bits := Decide(s, input);
    FrameSize(s, t, input);
    var out := Pack(s, t, sent, bits);
    levels := sent.levels;
    hide Tracking;
    hide Levels;
    if |out| > s.bytes {
      return Err(RateTooLow(s.bytes, |out|)), levels;
    }
    HoldsPadded(out, Written(Fields(s, t, sent)), s.bytes - |out|);
    r := Ok(out + Digits(0, s.bytes - |out|));
  }

  /** The bytes a frame's bits fill: within the rate from the minimum size up, and that minimum below it. */
  lemma FrameSize(s: Setting, t: Tracker, input: Input)
    requires s.Valid() && input.Valid() && Tracking(t, s.Quantum())
    ensures var size := (|Written(Fields(s, t, Choose(s, input)))| + 7) / 8;
      (size <= s.bytes <==> s.bytes >= MinimumBytes(s.bytes)) &&
      (s.bytes < MinimumBytes(s.bytes) ==> size == MinimumBytes(s.bytes))
  {
    hide Choose;
    hide Fields;
    hide Spent;
    hide MinimumBytes;
    hide AllPay;
    var sent := Choose(s, input);
    ChoiceIsConsistent(s, input);
    FieldsFit(s, t, sent);
    WrittenLength(Fields(s, t, sent));
    RateIsEnough(s, sent.filter, Widths(Fields(s, t, sent)));
  }

  lemma TrackingNow(levels: seq<nat>, q: nat)
    requires IsQuantum(q) && Levels(levels, q)
    ensures Tracking(Tracker(levels, true), q)
  {
  }

  /** Everything the frame will say, and the split its shapes were made for. */
  method Decide(s: Setting, input: Input) returns (sent: Sent, bits: seq<nat>)
    requires s.Valid() && input.Valid()
    ensures sent == Choose(s, input) && AllPay(sent.shapes, bits)
  {
    hide AllPay;
    hide Shapes;
    hide R.Refined;
    hide Rounded;
    hide TaskOf;
    hide Spent;
    var filter := Carried(s, input.filter);
    var rounded := Rounded(s, input);
    var budget := Budget(s, Spent(s, filter));
    bits := A.Allocate(R.Heard(s.scale, rounded), budget);
    assert bits == Split(s, rounded, budget);
    hide Split;
    var shapes := QuantiseBands(s, input, rounded, bits);
    ShapesPay(s, input, rounded, bits);
    PayingLengths(input, shapes, bits);
    var levels := R.RefineLevels(TaskOf(s, input, shapes, budget), rounded, bits);
    sent := Sent(filter, levels, shapes);
  }

  lemma PayingLengths(input: Input, shapes: seq<Shape>, bits: seq<nat>)
    requires input.Valid() && AllPay(shapes, bits)
    ensures forall b :: 0 <= b < BANDS ==> shapes[b].Coded? ==> |shapes[b].y| == |input.bins[b]|
  {
    forall b | 0 <= b < BANDS ensures shapes[b].Coded? ==> |shapes[b].y| == |input.bins[b]| {
      assert Pays(shapes[b], A.Width(b), bits[b]);
    }
  }

  // --- reading ---

  method ReadLevels(d: Decoder, t: Tracker, q: nat) returns (levels: seq<nat>)
    requires IsQuantum(q) && |t.previous| == BANDS
    modifies d
    ensures levels == LevelsAt(t, Unpack(d.bytes), old(d.position), 0, q)
    ensures d.position == old(d.position) + BANDS * LevelBits(q)
  {
    hide Unpack;
    hide Read;
    hide LevelsAt;
    hide Hear;
    hide LevelBits;
    ghost var bits := Unpack(d.bytes);
    ghost var all := LevelsAt(t, bits, d.position, 0, q);
    var width := LevelBits(q);
    levels := [];
    assert [] + all == all;
    for b := 0 to BANDS
      invariant d.position == old(d.position) + b * width
      invariant levels + LevelsAt(t, bits, d.position, b, q) == all
    {
      NextLevelAt(t, bits, d.position, b, q, levels);
      var code := d.ReadBits(width);
      levels := levels + [Hear(t, code, b, q)];
    }
    NoLevelsLeft(t, bits, d.position, q, levels);
  }

  lemma NextLevelAt(t: Tracker, bits: seq<bool>, p: nat, b: nat, q: nat, before: seq<nat>)
    requires IsQuantum(q) && |t.previous| == BANDS && b < BANDS
    ensures before + LevelsAt(t, bits, p, b, q) ==
      (before + [Hear(t, Read(bits, p, LevelBits(q)), b, q)]) + LevelsAt(t, bits, p + LevelBits(q), b + 1, q)
  {
    Assoc(before, [Hear(t, Read(bits, p, LevelBits(q)), b, q)], LevelsAt(t, bits, p + LevelBits(q), b + 1, q));
  }

  lemma NoLevelsLeft(t: Tracker, bits: seq<bool>, p: nat, q: nat, levels: seq<nat>)
    requires IsQuantum(q) && |t.previous| == BANDS
    ensures levels + LevelsAt(t, bits, p, BANDS, q) == levels
  {
  }

  method ReadShape(d: Decoder, n: nat, share: nat) returns (shape: Shape)
    requires n <= C.MAX_N
    modifies d
    ensures shape == ShapeAt(n, share, Unpack(d.bytes), old(d.position))
    ensures d.position == old(d.position) + ShapeCost(n, share)
  {
    hide Unpack;
    var k := C.PulsesFor(n, share);
    if k == 0 {
      return Noise;
    }
    AffordableBook(n, k, share);
    hide C.Pulses;
    hide S.IndexAt;
    var index := S.ReadIndex(d, S.BookWidth(n, k));
    var y := I.Deindex(n, k, S.InBookIndex(index, C.Count(n, k)));
    shape := Coded(y);
  }

  lemma AffordableBook(n: nat, k: nat, share: nat)
    requires n <= C.MAX_N && k == C.Pulses(n, share) && k > 0
    ensures I.Countable(n, k) && S.BookWidth(n, k) <= 62 && C.Count(n, k) > 0
  {
    assert C.Affordable(n, k, share);
    C.AffordableWidth(n, k, share);
    S.IndexFits(n, k, 0);
  }

  method ReadShapes(d: Decoder, shares: seq<nat>) returns (shapes: seq<Shape>)
    requires |shares| == BANDS
    modifies d
    ensures shapes == ShapesAt(shares, Unpack(d.bytes), old(d.position), 0)
  {
    hide Unpack;
    hide ShapesAt;
    hide ShapeAt;
    hide ShapeCost;
    ghost var bits := Unpack(d.bytes);
    ghost var all := ShapesAt(shares, bits, d.position, 0);
    shapes := [];
    assert [] + all == all;
    for b := 0 to BANDS
      invariant shapes + ShapesAt(shares, bits, d.position, b) == all
    {
      NextShapeAt(shares, bits, d.position, b, shapes);
      var n := A.Width(b);
      var shape := ReadShape(d, n, shares[b]);
      shapes := shapes + [shape];
    }
    NoShapesLeft(shares, bits, d.position, shapes);
  }

  lemma NextShapeAt(shares: seq<nat>, bits: seq<bool>, p: nat, b: nat, before: seq<Shape>)
    requires |shares| == BANDS && b < BANDS
    ensures var n := A.Width(b);
      before + ShapesAt(shares, bits, p, b) ==
      (before + [ShapeAt(n, shares[b], bits, p)]) + ShapesAt(shares, bits, p + ShapeCost(n, shares[b]), b + 1)
  {
    hide ShapeAt;
    hide ShapeCost;
    hide A.Width;
    var n := A.Width(b);
    Assoc(before, [ShapeAt(n, shares[b], bits, p)], ShapesAt(shares, bits, p + ShapeCost(n, shares[b]), b + 1));
  }

  lemma NoShapesLeft(shares: seq<nat>, bits: seq<bool>, p: nat, shapes: seq<Shape>)
    requires |shares| == BANDS
    ensures shapes + ShapesAt(shares, bits, p, BANDS) == shapes
  {
  }

  class TelyxDecoder {
    const setting: Setting
    var previous: seq<nat>
    var started: bool

    function State(): Tracker
      reads this
    {
      Tracker(previous, started)
    }

    ghost predicate Valid()
      reads this
    {
      setting.Valid() && |previous| == BANDS
    }

    constructor (setting: Setting)
      requires setting.Valid()
      ensures Valid() && this.setting == setting && State() == Start()
    {
      this.setting := setting;
      previous, started := seq(BANDS, b => 0), false;
    }

    /** A frame of the wrong size changes nothing; any other is understood whatever its bits. */
    method Decode(frame: seq<Byte>) returns (r: Result<Sent>)
      requires Valid()
      modifies this
      ensures Valid()
      ensures |frame| != setting.bytes ==> r == Err(Malformed) && State() == old(State())
      ensures |frame| == setting.bytes ==>
        r == Ok(Understood(setting, old(State()), Unpack(frame))) && State() == Tracker(r.value.levels, true)
    {
      if |frame| != setting.bytes {
        return Err(Malformed);
      }
      hide Understood;
      var heard := DecodeFrame(setting, State(), frame);
      previous, started := heard.levels, true;
      r := Ok(heard);
    }
  }

  /** What a frame of any bits says, read part after part. */
  method DecodeFrame(s: Setting, t: Tracker, frame: seq<Byte>) returns (heard: Sent)
    requires s.Valid() && |t.previous| == BANDS
    ensures heard == Understood(s, t, Unpack(frame))
  {
    hide Unpack;
    hide LevelsAt;
    hide ShapesAt;
    hide Split;
    hide FilterAt;
    hide FilterBits;
    hide LevelBits;
    ghost var bits := Unpack(frame);
    var d := new Decoder(frame);
    var filter := Filter([]);
    if Allowed(s.bytes) {
      filter := ReadFilter(d);
    }
    assert filter == FilterHeard(s, bits) && d.position == FilterSize(s, filter);
    var levels := ReadLevels(d, t, s.Quantum());
    assert levels == LevelsHeard(s, t, bits);
    hide FilterHeard;
    hide LevelsHeard;
    var spent := d.PositionBits();
    assert spent == Spent(s, filter);
    hide Spent;
    var shares := A.Allocate(R.Heard(s.scale, levels), Budget(s, spent));
    SplitIs(s, levels, Budget(s, spent));
    var shapes := ReadShapes(d, shares);
    heard := Sent(filter, levels, shapes);
  }

  lemma SplitIs(s: Setting, levels: seq<nat>, budget: nat)
    requires s.Valid() && |levels| == BANDS && forall b :: 0 <= b < BANDS ==> levels[b] < 256
    ensures Split(s, levels, budget) == A.Allocation(R.Heard(s.scale, levels), budget)
  {
  }
}
