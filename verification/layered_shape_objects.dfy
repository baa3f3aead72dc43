/**
 * Writing every band's stages into one bit packer a layer, and reading them
 * from however many layers arrived. The loops run over bands and, inside, over
 * stages; a stage past the last layer is skipped when writing and ends the band
 * when reading. They are proved against the functions of `LayeredShapes`.
 */
module LayeredShapeObjects {
  import opened Bytes
  import opened BitPacker
  import opened Stages
  import opened LayeredShapes
  import C = PvqCount

  ghost predicate Apart(objects: seq<object>) {
    forall i, j :: 0 <= i < j < |objects| ==> objects[i] != objects[j]
  }

  ghost predicate Ready(layers: seq<Encoder>)
    reads layers
  {
    forall l :: 0 <= l < |layers| ==> layers[l].Valid()
  }

  ghost function Texts(layers: seq<Encoder>): (r: seq<seq<bool>>)
    reads layers
    ensures |r| == |layers| && forall l :: 0 <= l < |r| ==> r[l] == layers[l].Contents()
  {
    seq(|layers|, l requires 0 <= l < |layers| reads layers => layers[l].Contents())
  }

  /** What layer `l` holds once the stages of `c` below `level` have gone into their layers. */
  ghost predicate Grown(before: seq<seq<bool>>, after: seq<seq<bool>>, c: Coding, level: nat) {
    |before| == |after| &&
    forall l :: 0 <= l < |before| ==> after[l] == before[l] + if l < level then Written(OneField(c, l)) else []
  }

  /** One stage, into the layer it belongs to. */
  method WriteInto(layers: seq<Encoder>, c: Coding, level: nat)
    requires Apart(layers) && Ready(layers) && SoundBand(c) && level < |c.stages| && level < |layers|
    modifies layers
    ensures Ready(layers)
    ensures Texts(layers) == old(Texts(layers))[level := old(Texts(layers))[level] + Written(StageFields(c.n, c.stages[level]))]
  {
    hide StageFields;
    hide Encoder.Valid;
    hide Encoder.Contents;
    hide Written;
    WriteStage(layers[level], c.n, c.stages[level]);
  }

  lemma FewerIs(level: nat, layers: nat)
    ensures Fewer(0, layers) == 0
    ensures level < layers ==> Fewer(level, layers) == level && Fewer(level + 1, layers) == level + 1
    ensures level >= layers ==> Fewer(level, layers) == layers && Fewer(level + 1, layers) == layers
  {
  }

  method WriteBand(layers: seq<Encoder>, c: Coding)
    requires Apart(layers) && Ready(layers) && SoundBand(c)
    modifies layers
    ensures Ready(layers) && Grown(old(Texts(layers)), Texts(layers), c, |layers|)
  {
    hide *;
    ghost var before := Texts(layers);
    NothingGrown(before, c);
    FewerIs(0, |layers|);
    for level := 0 to |c.stages|
      invariant Ready(layers)
      invariant Grown(before, Texts(layers), c, Fewer(level, |layers|))
    {
      FewerIs(level, |layers|);
      if level < |layers| {
        ghost var sofar := Texts(layers);
        WriteInto(layers, c, level);
        StageGrown(before, sofar, Texts(layers), c, level);
      }
    }
    BandGrown(before, Texts(layers), c, Fewer(|c.stages|, |layers|));
  }

  lemma NothingGrown(before: seq<seq<bool>>, c: Coding)
    ensures Grown(before, before, c, 0)
  {
    assert forall l :: 0 <= l < |before| ==> before[l] + [] == before[l];
  }

  lemma StageGrown(before: seq<seq<bool>>, sofar: seq<seq<bool>>, after: seq<seq<bool>>, c: Coding, level: nat)
    requires Grown(before, sofar, c, level) && level < |before| == |after| && level < |c.stages|
    requires after[level] == sofar[level] + Written(StageFields(c.n, c.stages[level]))
    requires forall l :: 0 <= l < |after| && l != level ==> after[l] == sofar[l]
    ensures Grown(before, after, c, level + 1)
  {
    hide StageFields;
    hide Written;
    assert before[level] + [] == before[level];
  }

  lemma BandGrown(before: seq<seq<bool>>, after: seq<seq<bool>>, c: Coding, level: nat)
    requires Grown(before, after, c, level) && level == Fewer(|c.stages|, |before|)
    ensures Grown(before, after, c, |before|)
  {
  }

  /** Layer `l` after all of `bands`: what it held, and that stage of every band in turn. */
  ghost predicate AllGrown(before: seq<seq<bool>>, after: seq<seq<bool>>, bands: seq<Coding>) {
    |before| == |after| && forall l :: 0 <= l < |before| ==> after[l] == before[l] + Written(LayerFields(bands, l))
  }

  method WriteBands(layers: seq<Encoder>, bands: seq<Coding>)
    requires Apart(layers) && Ready(layers) && Sound(bands)
    modifies layers
    ensures Ready(layers) && AllGrown(old(Texts(layers)), Texts(layers), bands)
  {
    hide *;
    ghost var before := Texts(layers);
    NoBands(before);
    for b := 0 to |bands|
      invariant Ready(layers)
      invariant AllGrown(before, Texts(layers), bands[..b])
    {
      ghost var sofar := Texts(layers);
      SoundAt(bands, b);
      WriteBand(layers, bands[b]);
      OneMoreBand(before, sofar, Texts(layers), bands[..b], bands[b]);
    }
    assert bands[..|bands|] == bands;
  }

  lemma SoundAt(bands: seq<Coding>, b: nat)
    requires Sound(bands) && b < |bands|
    ensures SoundBand(bands[b]) && bands[..b + 1] == bands[..b] + [bands[b]]
  {
    hide SoundBand;
  }

  lemma NoBands(before: seq<seq<bool>>)
    ensures AllGrown(before, before, [])
  {
    assert forall l :: 0 <= l < |before| ==> before[l] + [] == before[l];
  }

  lemma OneMoreBand(before: seq<seq<bool>>, sofar: seq<seq<bool>>, after: seq<seq<bool>>, bands: seq<Coding>, c: Coding)
    requires AllGrown(before, sofar, bands) && Grown(sofar, after, c, |sofar|)
    ensures AllGrown(before, after, bands + [c])
  {
    hide Written;
    hide LayerFields;
    hide OneField;
    forall l | 0 <= l < |before| ensures after[l] == before[l] + Written(LayerFields(bands + [c], l)) {
      LayerAppend(bands, c, l);
      WrittenAppend(LayerFields(bands, l), OneField(c, l));
      Assoc(before[l], Written(LayerFields(bands, l)), Written(OneField(c, l)));
    }
  }

  lemma {:induction false} LayerAppend(bands: seq<Coding>, c: Coding, level: nat)
    ensures LayerFields(bands + [c], level) == LayerFields(bands, level) + OneField(c, level)
  {
    hide OneField;
    if bands == [] {
      assert [c][1..] == [] && [] + [c] == [c];
      assert LayerFields([c], level) == OneField(c, level) + [];
    } else {
      LayerAppend(bands[1..], c, level);
      assert (bands + [c])[1..] == bands[1..] + [c];
    }
  }

  // --- reading ---

  ghost function Bits(layers: seq<Decoder>): (r: seq<seq<bool>>)
    ensures |r| == |layers| && forall l :: 0 <= l < |r| ==> r[l] == Unpack(layers[l].bytes)
  {
    seq(|layers|, l requires 0 <= l < |layers| => Unpack(layers[l].bytes))
  }

  ghost function Positions(layers: seq<Decoder>): (at: seq<nat>)
    reads layers
    ensures |at| == |layers| && forall l :: 0 <= l < |at| ==> at[l] == layers[l].position
  {
    seq(|layers|, l requires 0 <= l < |layers| reads layers => layers[l].position)
  }

  ghost predicate Indexable(e: Expected) {
    forall i :: 0 <= i < |e.pulses| ==> C.Count(e.n, e.pulses[i]) < C.INDEX_LIMIT
  }

  /** Where a band's loop stands: the stages read, and how far each layer's reader has moved. */
  ghost predicate Reading(bits: seq<seq<bool>>, at: seq<nat>, now: seq<nat>, e: Expected, level: nat, stages: seq<Stage>) {
    |bits| == |at| == |now| && level <= |e.pulses| && level <= |bits| &&
    stages + ReadBand(bits, at, e.n, e.pulses, level) == ReadBand(bits, at, e.n, e.pulses, 0) &&
    forall l :: 0 <= l < |at| ==> now[l] == if l < level then at[l] + StageWidth(e.n, e.pulses[l]) else at[l]
  }

  lemma ReadingStarts(bits: seq<seq<bool>>, at: seq<nat>, e: Expected)
    requires |bits| == |at|
    ensures Reading(bits, at, at, e, 0, [])
  {
    assert [] + ReadBand(bits, at, e.n, e.pulses, 0) == ReadBand(bits, at, e.n, e.pulses, 0);
  }

  lemma ReadingStep(bits: seq<seq<bool>>, at: seq<nat>, now: seq<nat>, after: seq<nat>, e: Expected, level: nat, stages: seq<Stage>)
    requires Reading(bits, at, now, e, level, stages) && level < |e.pulses| && level < |bits|
    requires |after| == |now| && after[level] == now[level] + StageWidth(e.n, e.pulses[level])
    requires forall l :: 0 <= l < |now| && l != level ==> after[l] == now[l]
    ensures Reading(bits, at, after, e, level + 1, stages + [StageAt(bits[level], now[level], e.n, e.pulses[level])])
  {
    hide StageAt;
    hide StageWidth;
    NextStage(bits, at, e, level, stages);
    hide ReadBand;
  }

  lemma ReadingEnds(bits: seq<seq<bool>>, at: seq<nat>, now: seq<nat>, e: Expected, level: nat, stages: seq<Stage>)
    requires Reading(bits, at, now, e, level, stages) && (level == |e.pulses| || level == |bits|)
    ensures stages == ReadBand(bits, at, e.n, e.pulses, 0) && now == Moved(at, e.n, e.pulses)
  {
    hide StageAt;
    hide StageWidth;
    NextStage(bits, at, e, level, stages);
    hide ReadBand;
    var r := Moved(at, e.n, e.pulses);
    forall l | 0 <= l < |at| ensures now[l] == r[l] {
    }
  }

  /** One stage, from the layer it belongs to. */
  method ReadNext(layers: seq<Decoder>, e: Expected, level: nat) returns (stage: Stage)
    requires Apart(layers) && Indexable(e) && level < |e.pulses| && level < |layers|
    modifies layers
    ensures var was := old(Positions(layers));
      stage == StageAt(Bits(layers)[level], was[level], e.n, e.pulses[level]) &&
      Positions(layers) == was[level := was[level] + StageWidth(e.n, e.pulses[level])]
  {
    hide StageAt;
    hide StageWidth;
    hide Unpack;
    hide C.Count;
    stage := ReadStage(layers[level], e.n, e.pulses[level]);
  }

  method ReadBandFrom(layers: seq<Decoder>, e: Expected) returns (stages: seq<Stage>)
    requires Apart(layers) && Indexable(e)
    modifies layers
    ensures stages == ReadBand(Bits(layers), old(Positions(layers)), e.n, e.pulses, 0)
    ensures Positions(layers) == Moved(old(Positions(layers)), e.n, e.pulses)
  {
    hide StageAt;
    hide StageWidth;
    hide Unpack;
    hide ReadBand;
    hide Moved;
    hide Reading;
    hide C.Count;
    hide Bits;
    hide Positions;
    hide Apart;
    ghost var bits, at := Bits(layers), Positions(layers);
    ReadingStarts(bits, at, e);
    stages := [];
    var level := 0;
    while level < |e.pulses| && level < |layers|
      invariant level <= |e.pulses| && level <= |layers|
      invariant Reading(bits, at, Positions(layers), e, level, stages)
    {
      ghost var now := Positions(layers);
      var stage := ReadNext(layers, e, level);
      ReadingStep(bits, at, now, Positions(layers), e, level, stages);
      stages := stages + [stage];
      level := level + 1;
    }
    ReadingEnds(bits, at, Positions(layers), e, level, stages);
  }

  lemma NextStage(bits: seq<seq<bool>>, at: seq<nat>, e: Expected, level: nat, before: seq<Stage>)
    requires |at| == |bits|
    ensures before + ReadBand(bits, at, e.n, e.pulses, level) ==
      if level >= |e.pulses| || level >= |bits| then before
      else (before + [StageAt(bits[level], at[level], e.n, e.pulses[level])]) + ReadBand(bits, at, e.n, e.pulses, level + 1)
  {
    hide StageAt;
    assert before + [] == before;
    if level < |e.pulses| && level < |bits| {
      Assoc(before, [StageAt(bits[level], at[level], e.n, e.pulses[level])],
            ReadBand(bits, at, e.n, e.pulses, level + 1));
    }
  }

  method ReadBandsFrom(layers: seq<Decoder>, bands: seq<Expected>) returns (r: seq<seq<Stage>>)
    requires Apart(layers) && forall b :: 0 <= b < |bands| ==> Indexable(bands[b])
    modifies layers
    ensures r == ReadBands(Bits(layers), old(Positions(layers)), bands)
  {
    hide Unpack;
    hide ReadBand;
    hide ReadBands;
    hide Moved;
    hide Indexable;
    ghost var bits := Bits(layers);
    ghost var all := ReadBands(bits, Positions(layers), bands);
    r := [];
    assert [] + all == all;
    assert bands[0..] == bands;
    for b := 0 to |bands|
      invariant r + ReadBands(bits, Positions(layers), bands[b..]) == all
    {
      assert bands[b..][0] == bands[b] && bands[b..][1..] == bands[b + 1..];
      NextBand(bits, Positions(layers), bands[b..], r);
      var stages := ReadBandFrom(layers, bands[b]);
      r := r + [stages];
    }
    NextBand(bits, Positions(layers), bands[|bands|..], r);
  }

  lemma NextBand(bits: seq<seq<bool>>, at: seq<nat>, bands: seq<Expected>, before: seq<seq<Stage>>)
    requires |at| == |bits|
    ensures before + ReadBands(bits, at, bands) ==
      if bands == [] then before
      else (before + [ReadBand(bits, at, bands[0].n, bands[0].pulses, 0)]) +
           ReadBands(bits, Moved(at, bands[0].n, bands[0].pulses), bands[1..])
  {
    hide ReadBand;
    assert before + [] == before;
    if bands != [] {
      Assoc(before, [ReadBand(bits, at, bands[0].n, bands[0].pulses, 0)],
            ReadBands(bits, Moved(at, bands[0].n, bands[0].pulses), bands[1..]));
    }
  }

}
