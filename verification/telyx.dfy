/**
 * A whole fixed-rate frame: filter, levels, and one codebook index a band. The
 * decoder has the levels and nothing else to split the bits by, so whatever the
 * encoder does to a level after the bits were split must leave the split alone.
 */
module Telyx {
  import opened Bytes
  import opened Common
  import opened BitPacker
  import opened DifferentialLevels
  import opened Shaping
  import A = Bands
  import C = PvqCount
  import I = PvqIndex
  import S = Stages
  import Q = PvqSearch
  import R = LevelRefinement

  const SILENT_GAIN := 0.000000001

  /** A rate, and the tables both sides hold: what a level is worth, and how long a unit shape is. */
  datatype Setting = Setting(bytes: nat, scale: R.Scale, unit: (nat, nat) -> real) {
    ghost predicate Valid() { scale.Valid() }

    function Quantum(): (q: nat)
      ensures IsQuantum(q)
    {
      LevelQuantum(bytes)
    }
  }

  /** What the transform hands over: a filter, measured levels, and each band's coefficients. */
  datatype Input = Input(filter: Filter, measured: seq<nat>, bins: seq<seq<real>>) {
    ghost predicate Valid() {
      filter.Valid() && |measured| == BANDS && |bins| == BANDS &&
      (forall b :: 0 <= b < BANDS ==> measured[b] < ENERGY_LEVELS) &&
      forall b :: 0 <= b < BANDS ==> |bins[b]| == A.Width(b)
    }
  }

  /** A band nothing was affordable for, or one coded as a pulse vector. */
  datatype Shape = Noise | Coded(y: seq<int>)

  datatype Sent = Sent(filter: Filter, levels: seq<nat>, shapes: seq<Shape>)

  function Carried(s: Setting, filter: Filter): Filter {
    if Allowed(s.bytes) then filter else Filter([])
  }

  function FilterSize(s: Setting, filter: Filter): nat {
    if Allowed(s.bytes) then FilterBits(filter) else 0
  }

  /** Bits of side information. */
  function Spent(s: Setting, filter: Filter): nat {
    FilterSize(s, filter) + BANDS * LevelBits(s.Quantum())
  }

  function Budget(s: Setting, spent: nat): nat {
    if 8 * s.bytes > spent then 8 * s.bytes - spent else 0
  }

  // --- pulses ---

  /** A shape of `n` coefficients that `bits` bits pay for, with as many pulses as they can. */
  ghost predicate Pays(shape: Shape, n: nat, bits: nat) {
    var k := C.Pulses(n, bits);
    if k == 0 then shape.Noise? else shape.Coded? && I.InBook(shape.y, n, k)
  }

  function Normalised(bins: seq<real>, gain: real): (t: seq<real>)
    ensures |t| == |bins|
  {
    seq(|bins|, i requires 0 <= i < |bins| => if gain > SILENT_GAIN then bins[i] / gain else 0.0)
  }

  function Quantised(bins: seq<real>, gain: real, bits: nat): Shape {
    var k := C.Pulses(|bins|, bits);
    if k == 0 then Noise else Coded(Q.Chosen(Normalised(bins, gain), k))
  }

  lemma QuantisedPays(bins: seq<real>, gain: real, bits: nat)
    requires bins != []
    ensures Pays(Quantised(bins, gain, bits), |bins|, bits)
  {
    Q.ChosenInBook(Normalised(bins, gain), C.Pulses(|bins|, bits));
  }

  /** The direction a pulse vector stands for. */
  function UnitShape(s: Setting, y: seq<int>): (r: seq<real>)
    ensures |r| == |y|
  {
    var scale := if Q.Squares(y) == 0 then 0.0 else s.unit(|y|, Q.Squares(y));
    seq(|y|, i requires 0 <= i < |y| => Scaled(y[i], scale))
  }

  function Scaled(pulses: int, scale: real): real {
    pulses as real * scale
  }

  // --- what the encoder decides ---

  function Rounded(s: Setting, input: Input): (levels: seq<nat>)
    requires input.Valid()
    ensures Levels(levels, s.Quantum())
  {
    seq(BANDS, b requires 0 <= b < BANDS => Coarsen(input.measured[b], s.Quantum()))
  }

  function Split(s: Setting, levels: seq<nat>, budget: nat): (bits: seq<nat>)
    requires s.Valid() && |levels| == BANDS && forall b :: 0 <= b < BANDS ==> levels[b] < 256
    ensures |bits| == BANDS
  {
    R.Split(s.scale, levels, budget)
  }

  function Shapes(s: Setting, bins: seq<seq<real>>, levels: seq<nat>, bits: seq<nat>): (shapes: seq<Shape>)
    requires s.Valid() && |bins| == |levels| == |bits| == BANDS
    requires forall b :: 0 <= b < BANDS ==> levels[b] < 256
    ensures |shapes| == BANDS
    ensures forall b :: 0 <= b < BANDS ==> shapes[b] == Quantised(bins[b], s.scale.gain[levels[b]], bits[b])
  {
    seq(BANDS, b requires 0 <= b < BANDS => Quantised(bins[b], s.scale.gain[levels[b]], bits[b]))
  }

  /** A band as the refinement of levels sees it. */
  function Rebuilt(s: Setting, bins: seq<real>, shape: Shape): (band: R.Band)
    requires shape.Coded? ==> |shape.y| == |bins|
    ensures band.Valid()
  {
    match shape
    case Noise => R.Band(bins, false, bins)
    case Coded(y) => R.Band(bins, true, UnitShape(s, y))
  }

  lemma ShapesPay(s: Setting, input: Input, levels: seq<nat>, bits: seq<nat>)
    requires s.Valid() && input.Valid() && |levels| == |bits| == BANDS
    requires forall b :: 0 <= b < BANDS ==> levels[b] < 256
    ensures AllPay(Shapes(s, input.bins, levels, bits), bits)
  {
    var shapes := Shapes(s, input.bins, levels, bits);
    forall b | 0 <= b < BANDS ensures Pays(shapes[b], A.Width(b), bits[b]) {
      QuantisedPays(input.bins[b], s.scale.gain[levels[b]], bits[b]);
    }
  }

  ghost predicate AllPay(shapes: seq<Shape>, bits: seq<nat>) {
    |shapes| == |bits| == BANDS && forall b :: 0 <= b < BANDS ==> Pays(shapes[b], A.Width(b), bits[b])
  }

  function TaskOf(s: Setting, input: Input, shapes: seq<Shape>, budget: nat): (t: R.Task)
    requires s.Valid() && input.Valid() && |shapes| == BANDS
    requires forall b :: 0 <= b < BANDS ==> shapes[b].Coded? ==> |shapes[b].y| == |input.bins[b]|
    ensures t.Valid() && t.q == s.Quantum() && t.budget == budget && t.scale == s.scale
  {
    R.Task(s.scale, seq(BANDS, b requires 0 <= b < BANDS => Rebuilt(s, input.bins[b], shapes[b])), s.Quantum(), budget)
  }

  /** Everything a frame will say; none of it depends on the frames before. */
  function Choose(s: Setting, input: Input): (sent: Sent)
    requires s.Valid() && input.Valid()
    ensures sent.filter.Valid() && Levels(sent.levels, s.Quantum()) && |sent.shapes| == BANDS
  {
    var filter := Carried(s, input.filter);
    var rounded := Rounded(s, input);
    var budget := Budget(s, Spent(s, filter));
    var bits := Split(s, rounded, budget);
    var shapes := Shapes(s, input.bins, rounded, bits);
    ShapesPay(s, input, rounded, bits);
    Sent(filter, R.Refined(TaskOf(s, input, shapes, budget), rounded, bits, BANDS), shapes)
  }

  /** A frame whose shapes are the ones its own levels pay for. */
  ghost predicate Consistent(s: Setting, sent: Sent)
    requires s.Valid()
  {
    sent.filter.Valid() && (!Allowed(s.bytes) ==> sent.filter == Filter([])) && Levels(sent.levels, s.Quantum()) &&
    AllPay(sent.shapes, Split(s, sent.levels, Budget(s, Spent(s, sent.filter))))
  }

  /** However the levels were refined, the shapes are still the ones a decoder of those levels expects. */
  lemma ChoiceIsConsistent(s: Setting, input: Input)
    requires s.Valid() && input.Valid()
    ensures Consistent(s, Choose(s, input))
  {
    hide AllPay;
    hide R.Split;
    hide Spent;
    hide R.Refined;
    var filter := Carried(s, input.filter);
    var rounded := Rounded(s, input);
    var budget := Budget(s, Spent(s, filter));
    var bits := Split(s, rounded, budget);
    ShapesPay(s, input, rounded, bits);
    var shapes := Shapes(s, input.bins, rounded, bits);
    R.RefinedKeepsSplit(TaskOf(s, input, shapes, budget), rounded, bits, BANDS);
  }

  // --- what goes on the wire ---

  function ShapeFields(shape: Shape): seq<Field> {
    match shape
    case Noise => []
    case Coded(y) => S.IndexFields(I.Rank(y), S.BookWidth(|y|, I.L1(y)))
  }

  function AllShapeFields(shapes: seq<Shape>): seq<Field> {
    if shapes == [] then [] else ShapeFields(shapes[0]) + AllShapeFields(shapes[1..])
  }

  function FilterPart(s: Setting, filter: Filter): seq<Field>
    requires filter.Valid()
  {
    if Allowed(s.bytes) then FilterFields(filter) else []
  }

  function Fields(s: Setting, t: Tracker, sent: Sent): seq<Field>
    requires sent.filter.Valid() && |t.previous| == |sent.levels| == BANDS
  {
    FilterPart(s, sent.filter) + (LevelFields(t, sent.levels, 0, s.Quantum()) + AllShapeFields(sent.shapes))
  }

  // --- what the decoder makes of it ---

  function ShapeCost(n: nat, bits: nat): nat {
    if C.Pulses(n, bits) == 0 then 0 else S.BookWidth(n, C.Pulses(n, bits))
  }

  function ShapeAt(n: nat, share: nat, bits: seq<bool>, p: nat): Shape {
    var k := C.Pulses(n, share);
    if k == 0 then Noise
    else Coded(I.Unrank(n, k, S.InBookIndex(S.IndexAt(bits, p, S.BookWidth(n, k)), C.Count(n, k))))
  }

  function ShapesAt(shares: seq<nat>, bits: seq<bool>, p: nat, b: nat): (shapes: seq<Shape>)
    requires |shares| == BANDS && b <= BANDS
    ensures |shapes| == BANDS - b
    decreases BANDS - b, bits
  {
    if b == BANDS then []
    else
      var n := A.Width(b);
      [ShapeAt(n, shares[b], bits, p)] + ShapesAt(shares, bits, p + ShapeCost(n, shares[b]), b + 1)
  }

  function FilterHeard(s: Setting, bits: seq<bool>): (f: Filter)
    ensures f.Valid()
  {
    if Allowed(s.bytes) then FilterAt(bits, 0) else Filter([])
  }

  function LevelsHeard(s: Setting, t: Tracker, bits: seq<bool>): (levels: seq<nat>)
    requires |t.previous| == BANDS
    ensures |levels| == BANDS && forall b :: 0 <= b < BANDS ==> levels[b] < 256
  {
    var filter := FilterHeard(s, bits);
    LevelsAt(t, bits, FilterSize(s, filter), 0, s.Quantum())
  }

  function Understood(s: Setting, t: Tracker, bits: seq<bool>): (heard: Sent)
    requires s.Valid() && |t.previous| == BANDS
    ensures |heard.levels| == BANDS
  {
    var filter := FilterHeard(s, bits);
    var levels := LevelsHeard(s, t, bits);
    var spent := Spent(s, filter);
    var shares := Split(s, levels, Budget(s, spent));
    Sent(filter, levels, ShapesAt(shares, bits, spent, 0))
  }

  // --- the two agree ---

  /** An affordable codebook: its index fits, and costs no more than the band's share. */
  lemma PaidFor(shape: Shape, n: nat, bits: nat)
    requires Pays(shape, n, bits) && shape.Coded?
    ensures var k := C.Pulses(n, bits);
      k == I.L1(shape.y) && n == |shape.y| && C.Count(n, k) < C.INDEX_LIMIT && I.Rank(shape.y) < C.Count(n, k) &&
      S.BookWidth(n, k) <= bits
  {
    var k := C.Pulses(n, bits);
    assert C.Affordable(n, k, bits);
    hide C.Pulses;
    C.AffordableWidth(n, k, bits);
    I.RankInRange(shape.y);
  }

  lemma ShapeFits(shape: Shape, n: nat, bits: nat)
    requires Pays(shape, n, bits)
    ensures AllFit(ShapeFields(shape)) && Widths(ShapeFields(shape)) == ShapeCost(n, bits) <= bits
  {
    if shape.Coded? {
      PaidFor(shape, n, bits);
      hide C.Pulses;
      hide I.Rank;
      hide I.L1;
      var k := C.Pulses(n, bits);
      S.IndexFits(n, k, I.Rank(shape.y));
      S.Halves(I.Rank(shape.y), S.BookWidth(n, k));
    }
  }

  lemma ShapeReadsBack(shape: Shape, n: nat, share: nat, bits: seq<bool>, p: nat)
    requires Pays(shape, n, share) && ReadsBack(bits, p, ShapeFields(shape))
    ensures ShapeAt(n, share, bits, p) == shape
  {
    hide ReadsBack;
    if shape.Coded? {
      PaidFor(shape, n, share);
      var k := C.Pulses(n, share);
      hide C.Pulses;
      hide I.Rank;
      hide I.Unrank;
      S.IndexFits(n, k, I.Rank(shape.y));
      S.IndexReadsBack(bits, p, I.Rank(shape.y), S.BookWidth(n, k));
      I.UnrankOfRank(shape.y);
    }
  }

  lemma FirstShapeReadsBack(shape: Shape, rest: seq<Shape>, n: nat, share: nat, bits: seq<bool>, p: nat)
    requires Pays(shape, n, share) && ReadsBack(bits, p, AllShapeFields([shape] + rest))
    ensures ShapeAt(n, share, bits, p) == shape
    ensures ReadsBack(bits, p + ShapeCost(n, share), AllShapeFields(rest))
  {
    hide ReadsBack;
    hide ShapeFields;
    hide ShapeAt;
    hide ShapeCost;
    hide Pays;
    ShapeFits(shape, n, share);
    assert ([shape] + rest)[1..] == rest;
    S.ReadsBackSplit(bits, p, ShapeFields(shape), AllShapeFields(rest));
    ShapeReadsBack(shape, n, share, bits, p);
  }

  lemma {:induction false} ShapesReadBack(shapes: seq<Shape>, shares: seq<nat>, bits: seq<bool>, p: nat, b: nat)
    requires AllPay(shapes, shares) && b <= BANDS && ReadsBack(bits, p, AllShapeFields(shapes[b..]))
    ensures ShapesAt(shares, bits, p, b) == shapes[b..]
    decreases BANDS - b
  {
    hide ReadsBack;
    hide AllShapeFields;
    hide ShapeAt;
    hide ShapeCost;
    hide Pays;
    hide A.Width;
    if b < BANDS {
      var n, rest := A.Width(b), shapes[b + 1..];
      assert shapes[b..] == [shapes[b]] + rest;
      FirstShapeReadsBack(shapes[b], rest, n, shares[b], bits, p);
      ShapesReadBack(shapes, shares, bits, p + ShapeCost(n, shares[b]), b + 1);
    }
  }

  lemma {:induction false} ShapesFit(shapes: seq<Shape>, shares: seq<nat>, b: nat)
    requires AllPay(shapes, shares) && b <= BANDS
    ensures AllFit(AllShapeFields(shapes[b..]))
    ensures Widths(AllShapeFields(shapes[b..])) + A.Total(shares, b) <= A.Total(shares, BANDS)
    decreases BANDS - b
  {
    hide ShapeFields;
    hide ShapeCost;
    hide Pays;
    if b < BANDS {
      assert Pays(shapes[b], A.Width(b), shares[b]);
      ShapeFits(shapes[b], A.Width(b), shares[b]);
      assert shapes[b..][1..] == shapes[b + 1..];
      S.WidthsAppend(ShapeFields(shapes[b]), AllShapeFields(shapes[b + 1..]));
      ShapesFit(shapes, shares, b + 1);
      assert A.Total(shares, b + 1) == A.Total(shares, b) + shares[b];
    } else {
      assert shapes[b..] == [];
    }
  }

  /** Every field of a frame fits, and the shapes never take more than the side information leaves. */
  lemma FieldsFit(s: Setting, t: Tracker, sent: Sent)
    requires s.Valid() && Consistent(s, sent) && Tracking(t, s.Quantum())
    ensures AllFit(Fields(s, t, sent))
    ensures Spent(s, sent.filter) <= Widths(Fields(s, t, sent)) <= Spent(s, sent.filter) + Budget(s, Spent(s, sent.filter))
  {
    hide AllPay;
    hide LevelFields;
    hide FilterFields;
    hide AllShapeFields;
    hide A.Allocation;
    hide LevelBits;
    var q := s.Quantum();
    var budget := Budget(s, Spent(s, sent.filter));
    var filter := FilterPart(s, sent.filter);
    var levels := LevelFields(t, sent.levels, 0, q);
    var shapes := AllShapeFields(sent.shapes);
    if Allowed(s.bytes) {
      FilterFits(sent.filter);
    }
    LevelFieldsFit(t, sent.levels, 0, q);
    var shares := Split(s, sent.levels, budget);
    ShapesFit(sent.shapes, shares, 0);
    assert sent.shapes[0..] == sent.shapes;
    A.AllocationLaws(R.Heard(s.scale, sent.levels), budget, 0);
    S.WidthsAppend(levels, shapes);
    S.WidthsAppend(filter, levels + shapes);
  }

  /** A frame is big enough for what it says exactly from the minimum size up. */
  lemma RateIsEnough(s: Setting, filter: Filter, width: nat)
    requires filter.Valid() && (!Allowed(s.bytes) ==> filter == Filter([]))
    requires Spent(s, filter) <= width <= Spent(s, filter) + Budget(s, Spent(s, filter))
    ensures (width + 7) / 8 <= s.bytes <==> s.bytes >= MinimumBytes(s.bytes)
    ensures s.bytes < MinimumBytes(s.bytes) ==> (width + 7) / 8 == MinimumBytes(s.bytes)
  {
    FilterFits(filter);
    hide FilterBits;
    hide FilterFields;
    SizeArithmetic(s.bytes, FilterSize(s, filter), width);
  }

  /** The sizes in bits and bytes, quantum by quantum. */
  lemma SizeArithmetic(bytes: nat, filterBits: nat, width: nat)
    requires filterBits <= 36 && (!Allowed(bytes) ==> filterBits == 0)
    requires var spent := filterBits + BANDS * LevelBits(LevelQuantum(bytes));
      spent <= width <= spent + if 8 * bytes > spent then 8 * bytes - spent else 0
    ensures (width + 7) / 8 <= bytes <==> bytes >= MinimumBytes(bytes)
    ensures bytes < MinimumBytes(bytes) ==> (width + 7) / 8 == MinimumBytes(bytes)
  {
    hide C.Width;
    hide C.Pow2;
  }

  lemma PartSizes(s: Setting, t: Tracker, sent: Sent)
    requires s.Valid() && Consistent(s, sent) && Tracking(t, s.Quantum())
    ensures sent.filter.Valid() && |t.previous| == |sent.levels| == BANDS
    ensures var filter := FilterPart(s, sent.filter);
      var levels := LevelFields(t, sent.levels, 0, s.Quantum());
      Widths(filter) == FilterSize(s, sent.filter) && Widths(filter) + Widths(levels) == Spent(s, sent.filter) &&
      Fields(s, t, sent) == filter + (levels + AllShapeFields(sent.shapes))
  {
    hide AllPay;
    hide FilterFields;
    hide LevelFields;
    hide AllShapeFields;
    hide Split;
    hide LevelBits;
    if Allowed(s.bytes) {
      FilterFits(sent.filter);
    }
    LevelFieldsFit(t, sent.levels, 0, s.Quantum());
  }

  /** The three parts of a frame, each read where the reader looks for it. */
  lemma PartsReadBack(s: Setting, e: Tracker, sent: Sent, bits: seq<bool>)
    requires s.Valid() && Consistent(s, sent) && Tracking(e, s.Quantum())
    requires ReadsBack(bits, 0, Fields(s, e, sent))
    ensures ReadsBack(bits, 0, FilterPart(s, sent.filter))
    ensures ReadsBack(bits, FilterSize(s, sent.filter), LevelFields(e, sent.levels, 0, s.Quantum()))
    ensures ReadsBack(bits, Spent(s, sent.filter), AllShapeFields(sent.shapes))
  {
    hide *;
    PartSizes(s, e, sent);
    var filter := FilterPart(s, sent.filter);
    var levels := LevelFields(e, sent.levels, 0, s.Quantum());
    var shapes := AllShapeFields(sent.shapes);
    S.ReadsBackSplit(bits, 0, filter, levels + shapes);
    S.ReadsBackSplit(bits, Widths(filter), levels, shapes);
  }

  lemma SideInformationArrives(s: Setting, e: Tracker, d: Tracker, sent: Sent, bits: seq<bool>)
    requires s.Valid() && Consistent(s, sent) && Tracking(e, s.Quantum()) && Follows(d, e, s.Quantum())
    requires ReadsBack(bits, 0, Fields(s, e, sent))
    ensures FilterHeard(s, bits) == sent.filter
    ensures LevelsHeard(s, d, bits) == Floors(sent.levels, s.Quantum())
  {
    PartsReadBack(s, e, sent, bits);
    FilterArrives(s, sent, bits);
    hide *;
    LevelsArriveWhole(s, e, d, sent.levels, bits, FilterSize(s, sent.filter));
  }

  lemma LevelsArriveWhole(s: Setting, e: Tracker, d: Tracker, levels: seq<nat>, bits: seq<bool>, p: nat)
    requires Tracking(e, s.Quantum()) && Follows(d, e, s.Quantum()) && Levels(levels, s.Quantum())
    requires ReadsBack(bits, p, LevelFields(e, levels, 0, s.Quantum()))
    requires p == FilterSize(s, FilterHeard(s, bits))
    ensures LevelsHeard(s, d, bits) == Floors(levels, s.Quantum())
  {
    LevelsHeardHere(s, d, bits, p);
    hide *;
    LevelsArrive(e, d, levels, bits, p, 0, s.Quantum());
    Whole(Floors(levels, s.Quantum()));
  }

  lemma LevelsHeardHere(s: Setting, d: Tracker, bits: seq<bool>, p: nat)
    requires |d.previous| == BANDS && p == FilterSize(s, FilterHeard(s, bits))
    ensures LevelsHeard(s, d, bits) == LevelsAt(d, bits, p, 0, s.Quantum())
  {
    hide FilterHeard;
    hide FilterSize;
    hide LevelsAt;
    hide LevelBits;
  }

  lemma Whole(levels: seq<nat>)
    ensures levels[0..] == levels
  {
  }

  lemma FilterArrives(s: Setting, sent: Sent, bits: seq<bool>)
    requires sent.filter.Valid() && (!Allowed(s.bytes) ==> sent.filter == Filter([]))
    requires ReadsBack(bits, 0, FilterPart(s, sent.filter))
    ensures FilterHeard(s, bits) == sent.filter
  {
    if Allowed(s.bytes) {
      FilterReadsBack(bits, 0, sent.filter);
    }
  }

  /** A decoder of the encoder's own levels reads the encoder's own shapes. */
  lemma ShapesArrive(s: Setting, e: Tracker, d: Tracker, sent: Sent, bits: seq<bool>)
    requires s.Valid() && Consistent(s, sent) && Tracking(e, s.Quantum()) && |d.previous| == BANDS
    requires ReadsBack(bits, 0, Fields(s, e, sent))
    requires FilterHeard(s, bits) == sent.filter && LevelsHeard(s, d, bits) == sent.levels
    ensures Understood(s, d, bits) == sent
  {
    hide ReadsBack;
    hide Fields;
    hide AllPay;
    hide Split;
    hide FilterHeard;
    hide LevelsHeard;
    hide Spent;
    hide ShapesAt;
    PartsReadBack(s, e, sent, bits);
    var spent := Spent(s, sent.filter);
    assert sent.shapes[0..] == sent.shapes;
    ShapesReadBack(sent.shapes, Split(s, sent.levels, Budget(s, spent)), bits, spent, 0);
  }

  /** What one frame brings: the filter, every level's floor, and the whole frame unless a level was clamped. */
  ghost predicate Arrived(s: Setting, sent: Sent, heard: Sent) {
    heard.filter == sent.filter && heard.levels == Floors(sent.levels, s.Quantum()) &&
    (heard == sent <==> s.Quantum() == 1 || ENERGY_LEVELS - 1 !in sent.levels)
  }

  /**
   * One frame. Side information always arrives, the levels as their floors. The
   * decoder splits the bits as the encoder did, and every shape arrives too,
   * exactly when no level stands at the clamped top of a coarse scale.
   */
  lemma FrameAgreement(s: Setting, e: Tracker, d: Tracker, sent: Sent, bits: seq<bool>)
    requires s.Valid() && Consistent(s, sent) && Tracking(e, s.Quantum()) && Follows(d, e, s.Quantum())
    requires ReadsBack(bits, 0, Fields(s, e, sent))
    ensures Arrived(s, sent, Understood(s, d, bits))
  {
    hide AllPay;
    hide Split;
    hide ShapesAt;
    hide FilterHeard;
    hide LevelsHeard;
    hide ReadsBack;
    hide Fields;
    SideInformationArrives(s, e, d, sent, bits);
    ArrivesExactly(sent.levels, s.Quantum());
    if Floors(sent.levels, s.Quantum()) == sent.levels {
      ShapesArrive(s, e, d, sent, bits);
    }
  }

  // --- a run of frames ---

  /** These frames are what an encoder in state `e` writes for these inputs. */
  ghost predicate Run(s: Setting, e: Tracker, inputs: seq<Input>, frames: seq<seq<Byte>>)
    requires s.Valid() && |e.previous| == BANDS
    decreases |inputs|
  {
    |inputs| == |frames| &&
    (inputs == [] ||
     (inputs[0].Valid() &&
      var sent := Choose(s, inputs[0]);
      Holds(frames[0], Written(Fields(s, e, sent))) &&
      Run(s, Tracker(sent.levels, true), inputs[1..], frames[1..])))
  }

  function Next(s: Setting, d: Tracker, frame: seq<Byte>): (t: Tracker)
    requires s.Valid() && |d.previous| == BANDS
    ensures |t.previous| == BANDS
  {
    Tracker(Understood(s, d, Unpack(frame)).levels, true)
  }

  ghost predicate FrameArrived(s: Setting, d: Tracker, input: Input, frame: seq<Byte>)
    requires s.Valid() && |d.previous| == BANDS
  {
    input.Valid() && Arrived(s, Choose(s, input), Understood(s, d, Unpack(frame)))
  }

  /** A decoder in state `d` hears every frame as promised, and keeps up to the end. */
  ghost predicate KeepsUp(s: Setting, d: Tracker, inputs: seq<Input>, frames: seq<seq<Byte>>)
    requires s.Valid() && |d.previous| == BANDS && |inputs| == |frames|
    decreases |inputs|
  {
    inputs == [] ||
    (FrameArrived(s, d, inputs[0], frames[0]) && KeepsUp(s, Next(s, d, frames[0]), inputs[1..], frames[1..]))
  }

  /** Over any loss-free run every frame arrives; a clamped level spoils no frame but its own. */
  lemma {:induction false} RunAgreement(s: Setting, e: Tracker, d: Tracker, inputs: seq<Input>, frames: seq<seq<Byte>>)
    requires s.Valid() && Tracking(e, s.Quantum()) && Follows(d, e, s.Quantum())
    requires Run(s, e, inputs, frames)
    ensures KeepsUp(s, d, inputs, frames)
    decreases |inputs|
  {
    hide Understood;
    hide Choose;
    hide Fields;
    hide Written;
    hide ReadsBack;
    hide Holds;
    hide Consistent;
    if inputs != [] {
      var sent := Choose(s, inputs[0]);
      ChoiceIsConsistent(s, inputs[0]);
      FrameReadsBack(s, e, sent, frames[0]);
      FrameAgreement(s, e, d, sent, Unpack(frames[0]));
      RunAgreement(s, Tracker(sent.levels, true), Next(s, d, frames[0]), inputs[1..], frames[1..]);
    }
  }

  lemma FrameReadsBack(s: Setting, e: Tracker, sent: Sent, frame: seq<Byte>)
    requires s.Valid() && Consistent(s, sent) && Tracking(e, s.Quantum())
    requires Holds(frame, Written(Fields(s, e, sent)))
    ensures ReadsBack(Unpack(frame), 0, Fields(s, e, sent))
  {
    FieldsFit(s, e, sent);
    PackedRoundTrip(Fields(s, e, sent), frame);
  }

  /** A call, from its first frame. */
  lemma CallAgreement(s: Setting, inputs: seq<Input>, frames: seq<seq<Byte>>)
    requires s.Valid() && Run(s, Start(), inputs, frames)
    ensures KeepsUp(s, Start(), inputs, frames)
  {
    RunAgreement(s, Start(), Start(), inputs, frames);
  }
}
