/** A whole layered frame: levels in the stream, and the stages of every band in the layers after it. */
module LayeredFrames {
  import opened Bytes
  import opened Common
  import opened AdaptiveModel
  import opened LevelCoding
  import A = Bands
  import B = BitPacker
  import C = PvqCount
  import F = Shaping
  import L = LayeredCodec
  import R = LevelRefinement
  import S = LayeredShapes
  import T = Stages
  import Wire

  type Plans = seq<seq<nat>>

  /** What a rate fixes: the gain of every level, and whether a frame carries a filter. */
  datatype Setting = Setting(scale: R.Scale, shaped: bool, budgetBits: nat) {
    ghost predicate Valid() { scale.Valid() }
  }

  /** The pulses of every band's stages, from the levels alone. */
  ghost function PlansFor(s: Setting, levels: seq<nat>, bits: nat): (plans: Plans)
    requires s.Valid()
    ensures IsFrame(levels) ==> |plans| == BANDS
    ensures IsFrame(levels) ==> forall b :: 0 <= b < BANDS ==> plans[b] == S.Plan(A.Width(b), R.Split(s.scale, levels, bits)[b], 0)
  {
    if IsFrame(levels) then
      seq(BANDS, b requires 0 <= b < BANDS && IsFrame(levels) && s.Valid() => S.Plan(A.Width(b), R.Split(s.scale, levels, bits)[b], 0))
    else []
  }

  function FilterPart(s: Setting, filter: F.Filter): seq<B.Field>
    requires filter.Valid()
  {
    if s.shaped then F.FilterFields(filter) else []
  }

  function FilterSize(s: Setting, filter: F.Filter): nat {
    if s.shaped then F.FilterBits(filter) else 0
  }

  /** The filter a decoder finds at the front of the shape bytes. */
  function FilterIn(s: Setting, shapes: seq<Byte>): (filter: F.Filter)
    ensures filter.Valid()
  {
    if s.shaped then F.FilterAt(B.Unpack(shapes), 0) else F.Filter([])
  }

  /** What both ends compute alike. */
  ghost function RulesOf(s: Setting): L.Rules<Plans>
    requires s.Valid()
  {
    L.Rules((levels, bits) requires s.Valid() => PlansFor(s, levels, bits), shapes => FilterSize(s, FilterIn(s, shapes)), s.budgetBits)
  }

  /** What a decoder expects of every band, from its plan. */
  function Expected(plans: Plans): (e: seq<S.Expected>)
    ensures |e| == |plans|
  {
    seq(|plans|, b requires 0 <= b < |plans| => S.Expected(if b < BANDS then A.Width(b) else 0, plans[b]))
  }

  /** Bands coded to a plan: each follows it, or is a band of zeros and is not coded at all. */
  ghost predicate CodedTo(bands: seq<S.Coding>, plans: Plans) {
    S.Sound(bands) && |bands| == |plans| &&
    forall b :: 0 <= b < |bands| ==> bands[b].plan == plans[b] && bands[b].n == if b < BANDS then A.Width(b) else 0
  }

  lemma {:induction false} ExpectedIs(bands: seq<S.Coding>, e: seq<S.Expected>)
    requires |bands| == |e| && forall b :: 0 <= b < |bands| ==> e[b] == S.Expected(bands[b].n, bands[b].plan)
    ensures S.ExpectedOf(bands) == e
  {
    if bands != [] {
      ExpectedIs(bands[1..], e[1..]);
    }
  }

  lemma PlannedBands(bands: seq<S.Coding>, plans: Plans)
    requires CodedTo(bands, plans)
    ensures S.ExpectedOf(bands) == Expected(plans) && S.Sound(bands)
  {
    hide A.Width;
    ExpectedIs(bands, Expected(plans));
  }

  /** The encoder packs, whatever the plan, the filter and then the bands it codes to that plan. */
  ghost predicate Packs(s: Setting, input: L.Input<Plans>, filter: F.Filter, code: Plans -> seq<S.Coding>)
    requires filter.Valid()
  {
    input.shaping == FilterSize(s, filter) &&
    forall p :: PacksOne(s, input.pack(p), filter, code(p), p)
  }

  ghost predicate PacksOne(s: Setting, packed: L.Packed, filter: F.Filter, bands: seq<S.Coding>, plans: Plans)
    requires filter.Valid()
  {
    CodedTo(bands, plans) && S.HoldsShapes(packed.shapes, packed.refinements, FilterPart(s, filter), bands)
  }

  lemma FilterPartFits(s: Setting, filter: F.Filter)
    requires filter.Valid()
    ensures B.AllFit(FilterPart(s, filter)) && B.Widths(FilterPart(s, filter)) == FilterSize(s, filter)
  {
    F.FilterFits(filter);
    S.NothingFits();
  }

  /** The reader finds the filter where the writer put it. */
  lemma FilterFound(s: Setting, packed: L.Packed, filter: F.Filter, bands: seq<S.Coding>, plans: Plans)
    requires filter.Valid() && (!s.shaped ==> filter == F.Filter([])) && PacksOne(s, packed, filter, bands, plans)
    ensures FilterIn(s, packed.shapes) == filter
  {
    hide S.HoldsShapes;
    hide CodedTo;
    FilterPartFits(s, filter);
    FirstFilter(packed, FilterPart(s, filter), bands);
    if s.shaped {
      F.FilterReadsBack(B.Unpack(packed.shapes), 0, filter);
    }
  }

  lemma FirstFilter(packed: L.Packed, fields: seq<B.Field>, bands: seq<S.Coding>)
    requires B.AllFit(fields) && S.HoldsShapes(packed.shapes, packed.refinements, fields, bands)
    ensures B.ReadsBack(B.Unpack(packed.shapes), 0, fields)
  {
    S.FilterReads(packed.shapes, fields, S.LayerFields(bands, 0));
  }

  /** So the level logic's assumptions about packing hold. */
  lemma PackingIsSound(s: Setting, input: L.Input<Plans>, filter: F.Filter, code: Plans -> seq<S.Coding>)
    requires s.Valid() && filter.Valid() && (!s.shaped ==> filter == F.Filter([])) && Packs(s, input, filter, code)
    requires IsFrame(input.levels) && forall keep :: IsFrame(input.refine(keep))
    ensures L.Sound(RulesOf(s), input)
  {
    hide IsFrame;
    hide PacksOne;
    forall p ensures RulesOf(s).shaping(input.pack(p).shapes) == input.shaping {
      FilterFound(s, input.pack(p), filter, code(p), p);
    }
  }

  /** The stages a decoder finds in a frame whose plan and filter it knows. */
  function StagesIn(s: Setting, frame: Wire.LayeredFrame, plans: Plans): (r: seq<seq<T.Stage>>)
    requires frame.base != [] && frame.base[0] < |frame.base|
  {
    var shapes := frame.base[1 + frame.base[0]..];
    S.Decoded(shapes, frame.refinements, FilterSize(s, FilterIn(s, shapes)), Expected(plans))
  }

  /** What a frame is made of: the shapes of its plan, and as many refinements as fit. */
  lemma FrameIs(rules: L.Rules<Plans>, bank: seq<Freq>, input: L.Input<Plans>)
    requires LevelBank(bank) && L.Sound(rules, input) && L.EncodeFrame(rules, bank, input).Ok?
    ensures var e := L.EncodeFrame(rules, bank, input).value;
      var packed := input.pack(e.plan);
      e.frame.base != [] && e.frame.base[0] < |e.frame.base| &&
      e.frame.base[1 + e.frame.base[0]..] == packed.shapes &&
      |e.frame.refinements| <= |packed.refinements| && e.frame.refinements == packed.refinements[..|e.frame.refinements|]
  {
    hide LevelBank;
    hide IsFrame;
    hide L.Commit;
    hide L.Energy;
    hide Wire.Keep;
    var e := L.EncodeFrame(rules, bank, input).value;
    var energy := L.Energy(bank, input.levels);
    var want := L.Left(rules, |energy|, input.shaping);
    var packed := input.pack(e.plan);
    var keep := Wire.Keep(L.Assemble(energy, packed.shapes, packed.refinements), input.budget, |packed.refinements|);
    L.CommitKeeps(rules, bank, e.plan, want, |energy|, input.refine(keep), input.levels, 0);
    var sent := L.Energy(bank, e.levels);
    assert |sent| == |energy|;
    assert e.frame.base == [|sent|] + sent + packed.shapes;
  }

  /** Layers that arrive are layers that were packed. */
  lemma FewerLayers(packed: L.Packed, kept: seq<seq<Byte>>, fields: seq<B.Field>, bands: seq<S.Coding>)
    requires S.HoldsShapes(packed.shapes, packed.refinements, fields, bands)
    requires |kept| <= |packed.refinements| && kept == packed.refinements[..|kept|]
    ensures S.HoldsShapes(packed.shapes, kept, fields, bands)
  {
    hide B.Holds;
    forall l | 0 <= l < |kept| ensures B.Holds(kept[l], B.Written(S.LayerFields(bands, l + 1))) {
      assert kept[l] == packed.refinements[l];
    }
  }

  /** The stages of one frame, read from whatever layers were kept. */
  lemma StagesFound(s: Setting, frame: Wire.LayeredFrame, packed: L.Packed, filter: F.Filter, bands: seq<S.Coding>, plans: Plans)
    requires filter.Valid() && (!s.shaped ==> filter == F.Filter([])) && PacksOne(s, packed, filter, bands, plans)
    requires frame.base != [] && frame.base[0] < |frame.base| && frame.base[1 + frame.base[0]..] == packed.shapes
    requires |frame.refinements| <= |packed.refinements| && frame.refinements == packed.refinements[..|frame.refinements|]
    ensures StagesIn(s, frame, plans) == S.Surviving(bands, |frame.refinements| + 1) <==> S.Audible(bands)
    ensures S.Audible(bands) ==> StagesIn(s, Wire.Trimmed(frame), plans) == S.Surviving(bands, |frame.refinements| + 1)
  {
    var fields := FilterPart(s, filter);
    FilterFound(s, packed, filter, bands, plans);
    FilterPartFits(s, filter);
    PlannedBands(bands, plans);
    FewerLayers(packed, frame.refinements, fields, bands);
    StagesAre(s, frame, packed.shapes, filter, plans);
    StagesAre(s, Wire.Trimmed(frame), packed.shapes, filter, plans);
    hide *;
    S.ShapesSurvive(packed.shapes, frame.refinements, fields, bands);
    if S.Audible(bands) {
      S.TrimLosesNothing(frame, packed.shapes, fields, bands);
    }
  }

  lemma PackedFor(s: Setting, input: L.Input<Plans>, filter: F.Filter, code: Plans -> seq<S.Coding>, p: Plans)
    requires filter.Valid() && Packs(s, input, filter, code)
    ensures PacksOne(s, input.pack(p), filter, code(p), p)
  {
    hide PacksOne;
  }

  lemma WireKeepsBase(f: Wire.LayeredFrame)
    ensures Wire.Trimmed(f).base == f.base
    ensures Wire.Carriable(f) ==> Wire.FromBytes(Wire.ToBytes(f)) == Ok(Wire.Trimmed(f))
  {
    hide Wire.Carriable;
    hide Wire.FromBytes;
    hide Wire.ToBytes;
    Wire.WireRoundTrip(f);
  }

  lemma StagesAre(s: Setting, frame: Wire.LayeredFrame, shapes: seq<Byte>, filter: F.Filter, plans: Plans)
    requires filter.Valid() && FilterIn(s, shapes) == filter
    requires frame.base != [] && frame.base[0] < |frame.base| && frame.base[1 + frame.base[0]..] == shapes
    ensures StagesIn(s, frame, plans) == S.Decoded(shapes, frame.refinements, FilterSize(s, filter), Expected(plans))
  {
  }

  /**
   * One frame from end to end. The decoder reads the levels that were chosen,
   * comes to the plan the shapes were coded to, and finds in the layers that were
   * kept exactly the stages that were written there, on the wire or off it; if
   * and only if no band with a plan was coded as nothing.
   */
  lemma FrameArrives(s: Setting, bank: seq<Freq>, input: L.Input<Plans>, filter: F.Filter, code: Plans -> seq<S.Coding>)
    requires s.Valid() && LevelBank(bank) && filter.Valid() && (!s.shaped ==> filter == F.Filter([]))
    requires Packs(s, input, filter, code) && IsFrame(input.levels) && forall keep :: IsFrame(input.refine(keep))
    requires L.Sound(RulesOf(s), input) && L.EncodeFrame(RulesOf(s), bank, input).Ok?
    ensures var e := L.EncodeFrame(RulesOf(s), bank, input).value;
      var d := L.DecodeFrame(RulesOf(s), bank, e.frame);
      d.Ok? && d.value.levels == e.levels && d.value.plan == e.plan &&
      e.frame.base != [] && e.frame.base[0] < |e.frame.base| &&
      (StagesIn(s, e.frame, d.value.plan) == S.Surviving(code(e.plan), |e.frame.refinements| + 1) <==> S.Audible(code(e.plan)))
    ensures var e := L.EncodeFrame(RulesOf(s), bank, input).value;
      Wire.Carriable(e.frame) ==>
        var arrived := Wire.FromBytes(Wire.ToBytes(e.frame));
        arrived.Ok? && arrived.value.base == e.frame.base &&
        (S.Audible(code(e.plan)) ==>
          StagesIn(s, arrived.value, e.plan) == S.Surviving(code(e.plan), |e.frame.refinements| + 1))
  {
    hide *;
    var rules := RulesOf(s);
    L.FrameAgreement(rules, bank, input);
    FrameIs(rules, bank, input);
    var e := L.EncodeFrame(rules, bank, input).value;
    PackedFor(s, input, filter, code, e.plan);
    StagesFound(s, e.frame, input.pack(e.plan), filter, code(e.plan), e.plan);
    WireKeepsBase(e.frame);
  }

  // --- silence has a plan ---

  const FROM_TWELVE := 11

  /** The bands of twelve coefficients or more. */
  lemma WideBands(b: nat)
    requires b < BANDS
    ensures b >= FROM_TWELVE <==> A.Width(b) >= 12
    ensures A.Width(FROM_TWELVE) == 12 && A.Width(b) <= C.MAX_N
  {
  }

  /** Bands of fewer than twelve coefficients hold at most 672 bits in all. */
  lemma {:induction false} NarrowBits(bits: seq<nat>, n: nat)
    requires |bits| == BANDS && n <= BANDS
    requires forall b :: 0 <= b < n ==> bits[b] <= if b < FROM_TWELVE then 12 * A.Width(b) else 0
    ensures A.Total(bits, n) <= if n <= FROM_TWELVE then 12 * A.EDGES[n] else 672
  {
    if n > 0 {
      NarrowBits(bits, n - 1);
    }
  }

  /** With every band awake, 684 bits reach some band of at least twelve coefficients. */
  lemma WideBandIsFunded(sp: A.Spectrum, bits: nat) returns (b: nat)
    requires sp.Valid() && bits >= 684 && forall c :: 0 <= c < BANDS ==> A.Awake(sp, c)
    ensures b < BANDS && A.Width(b) >= 12 && A.Allocation(sp, bits)[b] >= A.Width(b)
  {
    var shares := A.Allocation(sp, bits);
    if c :| FROM_TWELVE <= c < BANDS && shares[c] > 0 {
      b := c;
      WideBands(b);
      A.AllocationLaws(sp, bits, b);
      Whole(A.Rate(sp, bits, b), A.Width(b));
    } else {
      assert A.Awake(sp, FROM_TWELVE);
      A.AllocationLaws(sp, bits, FROM_TWELVE);
      WideBands(FROM_TWELVE);
      hide A.Width;
      hide A.Rate;
      hide A.Allocation;
      hide A.Total;
      forall c | 0 <= c < BANDS ensures shares[c] <= if c < FROM_TWELVE then 12 * A.Width(c) else 0 {
        A.AllocationLaws(sp, bits, c);
        AtMostTwelve(A.Rate(sp, bits, c), A.Width(c));
      }
      NarrowBits(shares, BANDS);
    }
  }

  lemma Whole(rate: nat, width: nat)
    requires rate * width > 0
    ensures rate * width >= width
  {
  }

  lemma AtMostTwelve(rate: nat, width: nat)
    requires rate <= 12
    ensures rate * width <= 12 * width
  {
  }

  lemma {:induction false} OnePulse(n: nat)
    ensures C.V(n, 1) == 2 * n
  {
    if n > 0 {
      OnePulse(n - 1);
      assert C.V(n, 0) == 1 && (n > 1 ==> C.V(n - 1, 0) == 1);
    }
  }

  lemma {:induction false} BitsForOnePulse(n: nat)
    requires n >= 12
    ensures 2 * n <= C.Pow2(n / 2)
    decreases n
  {
    if n < 14 {
      assert C.Pow2(6) == 64;
    } else {
      BitsForOnePulse(n - 2);
    }
  }

  /** A bit a coefficient is enough to plan a stage for a band of twelve or more. */
  lemma FundedBandHasAStage(n: nat, left: nat)
    requires 12 <= n <= C.MAX_N && left >= n
    ensures S.Plan(n, left, 0) != []
  {
    OnePulse(n);
    BitsForOnePulse(n);
    C.Pow2Monotone(n / 2, left / 2);
    assert C.Affordable(n, 1, left / 2);
    hide C.Pow2;
    C.PulsesAtLeast(n, left / 2, 1);
    var k := C.Pulses(n, left / 2);
    C.AffordableWidth(n, k, left / 2);
  }

  /**
   * A frame of digital silence is planned for: the lowest level's gain is above
   * the threshold, so with 684 bits some band of zeros has a stage to read that
   * was never written, and the decoder cannot find what the encoder kept.
   */
  lemma SilenceIsMisread(s: Setting, levels: seq<nat>, bits: nat, bands: seq<S.Coding>)
    requires s.Valid() && IsFrame(levels) && bits >= 684
    requires forall l :: 0 <= l < 256 ==> s.scale.gain[l] >= A.SILENCE
    requires CodedTo(bands, PlansFor(s, levels, bits)) && forall b :: 0 <= b < |bands| ==> bands[b].stages == []
    ensures !S.Audible(bands)
  {
    hide A.Width;
    hide S.Plan;
    var sp := R.Heard(s.scale, levels);
    var b := WideBandIsFunded(sp, bits);
    WideBands(b);
    FundedBandHasAStage(A.Width(b), A.Allocation(sp, bits)[b]);
    assert bands[b].plan == PlansFor(s, levels, bits)[b];
  }
}
