/** The shapes of a layered frame: a stage of every band to a layer, and whichever layers arrive. */
module LayeredShapes {
  import opened Bytes
  import opened BitPacker
  import opened Stages
  import C = PvqCount
  import Wire

  const MAX_STAGES := 4

  // --- how many stages a band gets ---

  /** The pulses of each stage: half of what is left at a time, and all of it to the last. */
  function Plan(n: nat, left: nat, stage: nat): (pulses: seq<nat>)
    requires stage <= MAX_STAGES
    ensures |pulses| <= MAX_STAGES - stage
    decreases MAX_STAGES - stage, left
  {
    if stage == MAX_STAGES || left == 0 then []
    else
      var k := C.Pulses(n, Share(left, stage));
      if k == 0 || StageWidth(n, k) > left then []
      else [k] + Plan(n, left - StageWidth(n, k), stage + 1)
  }

  function Share(left: nat, stage: nat): (share: nat)
    ensures share > 0
  {
    var share := if stage + 1 == MAX_STAGES then left else left / 2;
    if share == 0 then 1 else share
  }

  function PlanCost(n: nat, pulses: seq<nat>): nat {
    if pulses == [] then 0 else StageWidth(n, pulses[0]) + PlanCost(n, pulses[1..])
  }

  /** A plan never costs more than it was given, and names only codebooks that can be indexed. */
  lemma {:induction false} PlanWithinBudget(n: nat, left: nat, stage: nat)
    requires stage <= MAX_STAGES
    ensures PlanCost(n, Plan(n, left, stage)) <= left
    ensures forall i :: 0 <= i < |Plan(n, left, stage)| ==> 0 < C.Count(n, Plan(n, left, stage)[i]) < C.INDEX_LIMIT
    decreases MAX_STAGES - stage
  {
    hide StageWidth;
    hide C.Count;
    hide C.Pulses;
    hide Share;
    if stage < MAX_STAGES && left > 0 {
      var k := C.Pulses(n, Share(left, stage));
      if k > 0 && StageWidth(n, k) <= left {
        PlanWithinBudget(n, left - StageWidth(n, k), stage + 1);
        var rest := Plan(n, left - StageWidth(n, k), stage + 1);
        assert ([k] + rest)[1..] == rest;
      }
    }
  }

  /** What stage `stage` may spend of `left` bits: half of them, or all from the fourth on, but one at least. */
  ghost predicate Offers(left: nat, stage: nat, share: nat) {
    if left <= 1 then share == 1
    else if stage < 3 then 2 * share <= left <= 2 * share + 1
    else share == left
  }

  /** A stage has as many pulses as its share affords, if what they cost is there; the first that has none is the last. */
  ghost predicate Staged(n: nat, left: nat, stage: nat, pulses: seq<nat>) {
    forall share :: Offers(left, stage, share) ==>
      var k := C.Pulses(n, share);
      if pulses != [] then stage < 4 && left > 0 && pulses[0] == k > 0 && StageWidth(n, k) <= left
      else stage >= 4 || left == 0 || k == 0 || StageWidth(n, k) > left
  }

  lemma OffersOnce(left: nat, stage: nat, a: nat)
    requires Offers(left, stage, a) && stage < MAX_STAGES
    ensures a == Share(left, stage)
  {
  }

  /** Every stage of a plan, and the end of it, follow from the bits left by the stages before. */
  lemma {:induction false} PlanByShares(n: nat, left: nat, stage: nat, i: nat)
    requires stage <= MAX_STAGES && i <= |Plan(n, left, stage)|
    ensures var pulses := Plan(n, left, stage);
      PlanCost(n, pulses[..i]) <= left && Staged(n, left - PlanCost(n, pulses[..i]), stage + i, pulses[i..])
    decreases i
  {
    hide *;
    PlanFirst(n, left, stage);
    if i > 0 {
      PlanRest(n, left, stage, i);
      PlanByShares(n, left - StageWidth(n, Plan(n, left, stage)[0]), stage + 1, i - 1);
    }
  }

  lemma PlanFirst(n: nat, left: nat, stage: nat)
    requires stage <= MAX_STAGES
    ensures var pulses := Plan(n, left, stage);
      pulses[..0] == [] && pulses[0..] == pulses && PlanCost(n, []) == 0 && Staged(n, left, stage, pulses) &&
      (stage == MAX_STAGES ==> pulses == [])
  {
    hide StageWidth;
    hide C.Pulses;
    hide Offers;
    hide Share;
    forall share | Offers(left, stage, share) ensures stage < MAX_STAGES ==> share == Share(left, stage) {
      if stage < MAX_STAGES {
        OffersOnce(left, stage, share);
      }
    }
  }

  lemma PlanRest(n: nat, left: nat, stage: nat, i: nat)
    requires stage <= MAX_STAGES && 0 < i <= |Plan(n, left, stage)|
    ensures var pulses := Plan(n, left, stage);
      stage < MAX_STAGES && StageWidth(n, pulses[0]) <= left &&
      pulses[1..] == Plan(n, left - StageWidth(n, pulses[0]), stage + 1) && pulses[i..] == pulses[1..][i - 1..] &&
      PlanCost(n, pulses[..i]) == StageWidth(n, pulses[0]) + PlanCost(n, pulses[1..][..i - 1])
  {
    hide StageWidth;
    hide C.Pulses;
    hide Share;
    var pulses := Plan(n, left, stage);
    assert pulses[..i][1..] == pulses[1..][..i - 1];
  }

  method PlanStages(n: nat, budget: nat) returns (pulses: seq<nat>)
    ensures pulses == Plan(n, budget, 0)
  {
    hide StageWidth;
    hide C.Pulses;
    hide Plan;
    pulses := [];
    var left: nat := budget;
    var stage: nat := 0;
    assert [] + Plan(n, budget, 0) == Plan(n, budget, 0);
    while stage < MAX_STAGES
      invariant stage <= MAX_STAGES
      invariant pulses + Plan(n, left, stage) == Plan(n, budget, 0)
    {
      PlanStep(n, left, stage, pulses);
      if left == 0 {
        return;
      }
      var k := C.PulsesFor(n, Share(left, stage));
      if k == 0 || StageWidth(n, k) > left {
        return;
      }
      pulses := pulses + [k];
      left := left - StageWidth(n, k);
      stage := stage + 1;
    }
    PlanStep(n, left, stage, pulses);
  }

  lemma PlanStep(n: nat, left: nat, stage: nat, before: seq<nat>)
    requires stage <= MAX_STAGES
    ensures if stage == MAX_STAGES || left == 0 then before + Plan(n, left, stage) == before
            else
              var k := C.Pulses(n, Share(left, stage));
              if k == 0 || StageWidth(n, k) > left then before + Plan(n, left, stage) == before
              else before + Plan(n, left, stage) == (before + [k]) + Plan(n, left - StageWidth(n, k), stage + 1)
  {
    hide StageWidth;
    hide C.Affordable;
    assert before + [] == before;
    if stage < MAX_STAGES && left > 0 {
      var k := C.Pulses(n, Share(left, stage));
      if k > 0 && StageWidth(n, k) <= left {
        Assoc(before, [k], Plan(n, left - StageWidth(n, k), stage + 1));
      }
    }
  }

  // --- what goes in which layer ---

  /** A band's coefficients, what both sides plan for it, and the stages it was coded in. */
  datatype Coding = Coding(n: nat, plan: seq<nat>, stages: seq<Stage>)

  ghost predicate Sound(bands: seq<Coding>) {
    forall b :: 0 <= b < |bands| ==> SoundBand(bands[b])
  }

  /** The quantiser follows the plan, except that a band of zeros is not coded at all. */
  ghost predicate SoundBand(c: Coding) {
    (c.stages == [] || PlanOf(c) == c.plan) &&
    forall i :: 0 <= i < |c.stages| ==> Sendable(c.n, c.stages[i])
  }

  /** No band that has a plan is a band of zeros. */
  ghost predicate Audible(bands: seq<Coding>) {
    forall b :: 0 <= b < |bands| ==> bands[b].plan == [] || bands[b].stages != []
  }

  function PlanOf(c: Coding): (pulses: seq<nat>)
    ensures |pulses| == |c.stages| && forall i :: 0 <= i < |pulses| ==> pulses[i] == c.stages[i].pulses
  {
    seq(|c.stages|, i requires 0 <= i < |c.stages| => c.stages[i].pulses)
  }

  function OneField(c: Coding, level: nat): seq<Field> {
    if level < |c.stages| then StageFields(c.n, c.stages[level]) else []
  }

  /** Layer `level`: that stage of every band that has one, in band order. */
  function LayerFields(bands: seq<Coding>, level: nat): seq<Field> {
    if bands == [] then [] else OneField(bands[0], level) + LayerFields(bands[1..], level)
  }

  // --- reading what arrived ---

  /** A band's stages from the layers there are; the first missing layer ends the band. */
  function ReadBand(layers: seq<seq<bool>>, at: seq<nat>, n: nat, pulses: seq<nat>, level: nat): (stages: seq<Stage>)
    requires |at| == |layers|
    decreases |layers| - level
  {
    if level >= |pulses| || level >= |layers| then []
    else [StageAt(layers[level], at[level], n, pulses[level])] + ReadBand(layers, at, n, pulses, level + 1)
  }

  function Moved(at: seq<nat>, n: nat, pulses: seq<nat>): (r: seq<nat>)
    ensures |r| == |at|
    ensures forall l :: 0 <= l < |at| ==> r[l] == if l < |pulses| then at[l] + StageWidth(n, pulses[l]) else at[l]
  {
    seq(|at|, l requires 0 <= l < |at| => if l < |pulses| then at[l] + StageWidth(n, pulses[l]) else at[l])
  }

  /** What a decoder knows of a band before reading it. */
  datatype Expected = Expected(n: nat, pulses: seq<nat>)

  function ReadBands(layers: seq<seq<bool>>, at: seq<nat>, bands: seq<Expected>): (r: seq<seq<Stage>>)
    requires |at| == |layers|
    ensures |r| == |bands|
    decreases |bands|
  {
    if bands == [] then []
    else
      [ReadBand(layers, at, bands[0].n, bands[0].pulses, 0)] +
      ReadBands(layers, Moved(at, bands[0].n, bands[0].pulses), bands[1..])
  }

  function ExpectedOf(bands: seq<Coding>): (e: seq<Expected>)
    ensures |e| == |bands|
  {
    if bands == [] then [] else [Expected(bands[0].n, bands[0].plan)] + ExpectedOf(bands[1..])
  }

  /** The first stages of every band, as many as there are layers. */
  function Surviving(bands: seq<Coding>, layers: nat): (r: seq<seq<Stage>>)
    ensures |r| == |bands|
  {
    if bands == [] then [] else [Kept(bands[0].stages, layers)] + Surviving(bands[1..], layers)
  }

  function Kept(stages: seq<Stage>, layers: nat): seq<Stage> {
    if |stages| <= layers then stages else stages[..layers]
  }

  /** Every layer, from where its reader stands, holds that stage of the bands still to come. */
  ghost predicate Ahead(layers: seq<seq<bool>>, at: seq<nat>, bands: seq<Coding>) {
    |at| == |layers| && forall l :: 0 <= l < |layers| ==> ReadsBack(layers[l], at[l], LayerFields(bands, l))
  }

  lemma AheadAt(layers: seq<seq<bool>>, at: seq<nat>, bands: seq<Coding>, l: nat)
    requires Ahead(layers, at, bands) && l < |layers| && bands != [] && SoundBand(bands[0])
    ensures ReadsBack(layers[l], at[l], OneField(bands[0], l))
    ensures ReadsBack(layers[l], Moved(at, bands[0].n, PlanOf(bands[0]))[l], LayerFields(bands[1..], l))
  {
    hide ReadsBack;
    hide StageFields;
    hide StageWidth;
    ReadsBackSplit(layers[l], at[l], OneField(bands[0], l), LayerFields(bands[1..], l));
    if l < |bands[0].stages| {
      StageFits(bands[0].n, bands[0].stages[l]);
    }
  }

  lemma {:induction false} BandReadsBack(layers: seq<seq<bool>>, at: seq<nat>, c: Coding, level: nat)
    requires |at| == |layers| && level <= |layers| && SoundBand(c)
    requires forall l :: 0 <= l < |layers| ==> ReadsBack(layers[l], at[l], OneField(c, l))
    ensures ReadBand(layers, at, c.n, PlanOf(c), level) ==
      if level < |c.stages| then Kept(c.stages, |layers|)[level..] else []
    decreases |layers| - level
  {
    hide *;
    KeptFrom(c.stages, |layers|, level);
    ReadFrom(layers, at, c, level);
    if level < |c.stages| && level < |layers| {
      StageHere(layers[level], at[level], c, level);
      StageReadsBack(layers[level], at[level], c.n, c.stages[level]);
      BandReadsBack(layers, at, c, level + 1);
    }
  }

  lemma KeptFrom(stages: seq<Stage>, layers: nat, level: nat)
    requires level <= layers
    ensures level < |stages| && level == layers ==> Kept(stages, layers)[level..] == []
    ensures |Kept(stages, layers)| == if |stages| <= layers then |stages| else layers
    ensures level < |stages| && level < layers ==>
      Kept(stages, layers)[level..] ==
      [stages[level]] + if level + 1 < |stages| then Kept(stages, layers)[level + 1..] else []
  {
  }

  lemma ReadFrom(layers: seq<seq<bool>>, at: seq<nat>, c: Coding, level: nat)
    requires |at| == |layers| && level <= |layers|
    ensures ReadBand(layers, at, c.n, PlanOf(c), level) ==
      if level >= |c.stages| || level >= |layers| then []
      else [StageAt(layers[level], at[level], c.n, c.stages[level].pulses)] + ReadBand(layers, at, c.n, PlanOf(c), level + 1)
  {
    hide StageAt;
  }

  lemma StageHere(bits: seq<bool>, p: nat, c: Coding, level: nat)
    requires SoundBand(c) && level < |c.stages| && ReadsBack(bits, p, OneField(c, level))
    ensures Sendable(c.n, c.stages[level]) && ReadsBack(bits, p, StageFields(c.n, c.stages[level]))
  {
    hide ReadsBack;
    hide Sendable;
    hide StageFields;
  }

  /** Whichever layers arrived, every band reads back as many of its stages. */
  lemma {:induction false} BandsReadBack(layers: seq<seq<bool>>, at: seq<nat>, bands: seq<Coding>)
    requires Sound(bands) && Audible(bands) && Ahead(layers, at, bands)
    ensures ReadBands(layers, at, ExpectedOf(bands)) == Surviving(bands, |layers|)
    decreases |bands|
  {
    hide ReadsBack;
    hide SoundBand;
    hide OneField;
    hide ReadBand;
    hide Kept;
    if bands != [] {
      var c := bands[0];
      PlanFollowed(bands);
      var next := Moved(at, c.n, PlanOf(c));
      forall l | 0 <= l < |layers|
        ensures ReadsBack(layers[l], at[l], OneField(c, l))
        ensures ReadsBack(layers[l], next[l], LayerFields(bands[1..], l))
      {
        AheadAt(layers, at, bands, l);
      }
      WholeBand(layers, at, c);
      BandsReadBack(layers, next, bands[1..]);
      assert ExpectedOf(bands)[1..] == ExpectedOf(bands[1..]);
    }
  }

  lemma PlanFollowed(bands: seq<Coding>)
    requires Sound(bands) && Audible(bands) && bands != []
    ensures SoundBand(bands[0]) && PlanOf(bands[0]) == bands[0].plan
    ensures Sound(bands[1..]) && Audible(bands[1..])
  {
    assert SoundBand(bands[0]);
    if bands[0].stages == [] {
      assert PlanOf(bands[0]) == [];
    }
  }

  lemma WholeBand(layers: seq<seq<bool>>, at: seq<nat>, c: Coding)
    requires |at| == |layers| && SoundBand(c)
    requires forall l :: 0 <= l < |layers| ==> ReadsBack(layers[l], at[l], OneField(c, l))
    ensures ReadBand(layers, at, c.n, PlanOf(c), 0) == Kept(c.stages, |layers|)
  {
    BandReadsBack(layers, at, c, 0);
  }

  // --- a frame's layers as bytes ---

  /** The base opens with the shaping filter, when the rate carries one. */
  function BaseFields(filter: seq<Field>, bands: seq<Coding>): seq<Field> {
    filter + LayerFields(bands, 0)
  }

  ghost predicate HoldsShapes(base: seq<Byte>, refinements: seq<seq<Byte>>, filter: seq<Field>, bands: seq<Coding>) {
    Holds(base, Written(BaseFields(filter, bands))) &&
    forall l :: 0 <= l < |refinements| ==> Holds(refinements[l], Written(LayerFields(bands, l + 1)))
  }

  function Unpacked(base: seq<Byte>, refinements: seq<seq<Byte>>): (layers: seq<seq<bool>>)
    ensures |layers| == |refinements| + 1 && layers[0] == Unpack(base)
    ensures forall l :: 0 <= l < |refinements| ==> layers[l + 1] == Unpack(refinements[l])
  {
    [Unpack(base)] + seq(|refinements|, l requires 0 <= l < |refinements| => Unpack(refinements[l]))
  }

  function StartAt(filterBits: nat, layers: nat): (at: seq<nat>)
    requires layers > 0
    ensures |at| == layers && at[0] == filterBits && forall l :: 1 <= l < layers ==> at[l] == 0
  {
    [filterBits] + seq(layers - 1, l => 0)
  }

  /** The stages a decoder makes of a base, the refinements that arrived, and its own plan. */
  function Decoded(base: seq<Byte>, refinements: seq<seq<Byte>>, filterBits: nat, bands: seq<Expected>): (r: seq<seq<Stage>>)
  {
    var layers := Unpacked(base, refinements);
    ReadBands(layers, StartAt(filterBits, |layers|), bands)
  }

  lemma {:induction false} LayerFits(bands: seq<Coding>, level: nat)
    requires Sound(bands)
    ensures AllFit(LayerFields(bands, level))
  {
    hide StageFields;
    hide Sendable;
    if bands != [] {
      assert SoundBand(bands[0]);
      if level < |bands[0].stages| {
        StageFits(bands[0].n, bands[0].stages[level]);
      }
      LayerFits(bands[1..], level);
    }
  }

  lemma LayerReadsBack(layer: seq<Byte>, before: seq<Field>, fields: seq<Field>)
    requires AllFit(before) && AllFit(fields) && Holds(layer, Written(before + fields))
    ensures ReadsBack(Unpack(layer), Widths(before), fields)
  {
    hide ReadsBack;
    hide Holds;
    hide Written;
    hide Unpack;
    PackedRoundTrip(before + fields, layer);
    ReadsBackSplit(Unpack(layer), 0, before, fields);
  }

  /**
   * However many refinements arrive, the decoder finds the filter and recovers,
   * of every band, exactly the stages whose layers it holds; if and only if no
   * band that both sides planned for was coded as nothing.
   */
  lemma ShapesSurvive(base: seq<Byte>, refinements: seq<seq<Byte>>, filter: seq<Field>, bands: seq<Coding>)
    requires Sound(bands) && AllFit(filter) && HoldsShapes(base, refinements, filter, bands)
    ensures ReadsBack(Unpack(base), 0, filter)
    ensures Decoded(base, refinements, Widths(filter), ExpectedOf(bands)) == Surviving(bands, |refinements| + 1)
       <==> Audible(bands)
  {
    hide ReadsBack;
    hide Sound;
    hide AllFit;
    hide Holds;
    hide ReadBands;
    hide Surviving;
    FilterReads(base, filter, LayerFields(bands, 0));
    if Audible(bands) {
      AudibleShapes(base, refinements, filter, bands);
    }
    var layers := Unpacked(base, refinements);
    var at := StartAt(Widths(filter), |layers|);
    if Decoded(base, refinements, Widths(filter), ExpectedOf(bands)) == Surviving(bands, |refinements| + 1) {
      forall b | 0 <= b < |bands| ensures bands[b].plan == [] || bands[b].stages != [] {
        LengthsRead(layers, at, bands, b);
      }
    }
  }

  lemma {:induction false} LengthsRead(layers: seq<seq<bool>>, at: seq<nat>, bands: seq<Coding>, b: nat)
    requires |at| == |layers| && b < |bands|
    ensures |ReadBands(layers, at, ExpectedOf(bands))[b]| == Fewer(|bands[b].plan|, |layers|)
    ensures |Surviving(bands, |layers|)[b]| == Fewer(|bands[b].stages|, |layers|)
    decreases b
  {
    hide ReadBand;
    var n, plan := bands[0].n, bands[0].plan;
    assert ExpectedOf(bands)[1..] == ExpectedOf(bands[1..]);
    if b == 0 {
      BandLength(layers, at, n, plan, 0);
    } else {
      LengthsRead(layers, Moved(at, n, plan), bands[1..], b - 1);
    }
  }

  function Fewer(a: nat, b: nat): nat {
    if a < b then a else b
  }

  lemma {:induction false} BandLength(layers: seq<seq<bool>>, at: seq<nat>, n: nat, pulses: seq<nat>, level: nat)
    requires |at| == |layers|
    ensures |ReadBand(layers, at, n, pulses, level)| ==
      if level < Fewer(|pulses|, |layers|) then Fewer(|pulses|, |layers|) - level else 0
    decreases |layers| - level
  {
    hide StageAt;
    if level < |pulses| && level < |layers| {
      BandLength(layers, at, n, pulses, level + 1);
    }
  }

  lemma AudibleShapes(base: seq<Byte>, refinements: seq<seq<Byte>>, filter: seq<Field>, bands: seq<Coding>)
    requires Sound(bands) && Audible(bands) && AllFit(filter) && HoldsShapes(base, refinements, filter, bands)
    ensures Decoded(base, refinements, Widths(filter), ExpectedOf(bands)) == Surviving(bands, |refinements| + 1)
  {
    hide ReadsBack;
    hide Sound;
    hide Audible;
    hide AllFit;
    hide HoldsShapes;
    hide ReadBands;
    hide Surviving;
    hide Unpacked;
    hide StartAt;
    var layers := Unpacked(base, refinements);
    var at := StartAt(Widths(filter), |layers|);
    forall l | 0 <= l < |layers| ensures ReadsBack(layers[l], at[l], LayerFields(bands, l)) {
      hide Audible;
      LayerStarts(base, refinements, filter, bands, l);
    }
    BandsReadBack(layers, at, bands);
  }

  /** Every layer is read from where its stages start. */
  lemma LayerStarts(base: seq<Byte>, refinements: seq<seq<Byte>>, filter: seq<Field>, bands: seq<Coding>, l: nat)
    requires Sound(bands) && AllFit(filter) && HoldsShapes(base, refinements, filter, bands) && l <= |refinements|
    ensures ReadsBack(Unpacked(base, refinements)[l], StartAt(Widths(filter), |refinements| + 1)[l], LayerFields(bands, l))
  {
    hide ReadsBack;
    hide Sound;
    hide AllFit;
    hide Holds;
    hide Written;
    hide LayerFields;
    LayerFits(bands, l);
    if l == 0 {
      LayerReadsBack(base, filter, LayerFields(bands, 0));
    } else {
      assert [] + LayerFields(bands, l) == LayerFields(bands, l);
      NothingFits();
      assert Holds(refinements[l - 1], Written(LayerFields(bands, l - 1 + 1)));
      LayerReadsBack(refinements[l - 1], [], LayerFields(bands, l));
    }
  }

  /** A band of zeros that has a plan takes the stage of the band after it. */
  lemma SilentBandTakesTheNext(base: seq<Byte>, n: nat, s: Stage)
    requires Sendable(n, s) && Holds(base, Written(StageFields(n, s)))
    ensures var bands := [Coding(n, [s.pulses], []), Coding(n, [s.pulses], [s])];
      LayerFields(bands, 0) == StageFields(n, s) &&
      Decoded(base, [], 0, ExpectedOf(bands))[0] == [s]
  {
    hide StageFields;
    hide Holds;
    hide StageAt;
    var bands := [Coding(n, [s.pulses], []), Coding(n, [s.pulses], [s])];
    assert bands[1..] == [bands[1]] && bands[1..][1..] == [];
    assert LayerFields(bands[1..][1..], 0) == [];
    assert LayerFields(bands[1..], 0) == StageFields(n, s) + [];
    assert LayerFields(bands, 0) == StageFields(n, s);
    StageFits(n, s);
    PackedRoundTrip(StageFields(n, s), base);
    StageReadsBack(Unpack(base), 0, n, s);
    var layers := Unpacked(base, []);
    assert ReadBand(layers, [0], n, [s.pulses], 1) == [];
    assert StartAt(0, 1) == [0];
  }

  lemma NothingFits()
    ensures AllFit([]) && Widths([]) == 0
  {
  }

  lemma FilterReads(base: seq<Byte>, filter: seq<Field>, rest: seq<Field>)
    requires AllFit(filter) && Holds(base, Written(filter + rest))
    ensures ReadsBack(Unpack(base), 0, filter)
  {
    hide *;
    WrittenAppend(filter, rest);
    FieldsReadBack([], filter, Written(rest));
    NothingBefore(Written(filter), Written(rest));
    ReadsBackHeld(base, Written(filter + rest), 0, filter);
  }

  lemma NothingBefore(a: seq<bool>, b: seq<bool>)
    ensures [] + a + b == a + b
  {
  }

  // --- layers that are empty are not missed ---

  /** A layer with no bytes is one no band has a stage for. */
  lemma {:induction false} EmptyLayer(bands: seq<Coding>, level: nat)
    requires Sound(bands) && Holds([], Written(LayerFields(bands, level)))
    ensures forall b :: 0 <= b < |bands| ==> |bands[b].stages| <= level
  {
    hide Sendable;
    hide StageFields;
    if bands != [] {
      assert SoundBand(bands[0]);
      var first, rest := OneField(bands[0], level), LayerFields(bands[1..], level);
      WrittenAppend(first, rest);
      WrittenLength(first);
      if level < |bands[0].stages| {
        StageFits(bands[0].n, bands[0].stages[level]);
      }
      assert Written(rest) == [];
      assert Holds([], Written(rest)) by { HoldsNothing(); }
      EmptyLayer(bands[1..], level);
      forall b | 0 <= b < |bands| ensures |bands[b].stages| <= level {
        if b > 0 {
          assert bands[b] == bands[1..][b - 1];
        }
      }
    }
  }

  lemma HoldsNothing()
    ensures Holds([], [])
  {
  }

  lemma {:induction false} SurvivingAll(bands: seq<Coding>, few: nat, many: nat)
    requires few <= many && forall b :: 0 <= b < |bands| ==> |bands[b].stages| <= few
    ensures Surviving(bands, few) == Surviving(bands, many)
  {
    if bands != [] {
      SurvivingAll(bands[1..], few, many);
    }
  }

  /** The wire drops trailing empty refinements, and no stage is lost by it. */
  lemma TrimLosesNothing(f: Wire.LayeredFrame, base: seq<Byte>, filter: seq<Field>, bands: seq<Coding>)
    requires Sound(bands) && Audible(bands) && AllFit(filter) && HoldsShapes(base, f.refinements, filter, bands)
    ensures Decoded(base, Wire.Trimmed(f).refinements, Widths(filter), ExpectedOf(bands)) ==
      Surviving(bands, |f.refinements| + 1)
  {
    hide Sound;
    hide Audible;
    hide AllFit;
    hide Holds;
    hide Decoded;
    hide Surviving;
    hide LayerFields;
    TrimmedPrefix(f);
    var kept := Wire.Trimmed(f).refinements;
    assert forall l :: 0 <= l < |kept| ==> kept[l] == f.refinements[l];
    AudibleShapes(base, kept, filter, bands);
    if |kept| < |f.refinements| {
      assert f.refinements[|kept|] == [];
      EmptyLayer(bands, |kept| + 1);
      SurvivingAll(bands, |kept| + 1, |f.refinements| + 1);
    }
  }

  lemma TrimmedPrefix(f: Wire.LayeredFrame)
    ensures var kept := Wire.Trimmed(f).refinements;
      |kept| <= |f.refinements| && kept == f.refinements[..|kept|] &&
      forall l :: |kept| <= l < |f.refinements| ==> f.refinements[l] == []
  {
    var kept := Wire.Trimmed(f).refinements;
    var t := Wire.Trim(f.Layers());
    assert [f.base] + kept == t;
    assert kept == t[1..];
    assert f.refinements == f.Layers()[1..];
    forall l | |kept| <= l < |f.refinements| ensures f.refinements[l] == [] {
      assert f.Layers()[l + 1] == f.refinements[l];
    }
  }
}
