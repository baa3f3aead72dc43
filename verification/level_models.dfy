/**
 * The level models as objects, and the methods that write and read a frame
 * through them. Every model of the set is its own object, and a clone shares
 * none of them, so that trying a candidate leaves the real models alone;
 * `Bank` is the list of counts the specification works on.
 */
module LevelModelObjects {
  import opened Bytes
  import opened Common
  import opened ExactCoder
  import opened RangeCoding
  import opened AdaptiveModel
  import opened SymbolStream
  import opened LevelCoding

  /** Counts with which both ends start. */
  function FreshBank(): (bank: seq<Freq>)
    ensures LevelBank(bank)
    ensures forall i :: 0 <= i < MODELS ==> bank[i] == Uniform(Alphabet(i))
  {
    seq(MODELS, i requires 0 <= i < MODELS => Uniform(Alphabet(i)))
  }

  /**
   * The silence models, the residual models and the first-band model, kept in
   * one list in that order.
   */
  class LevelModels {
    const all: seq<Model>

    ghost function Bank(): (bank: seq<Freq>)
      reads all
      ensures |bank| == |all|
      ensures forall i :: 0 <= i < |bank| ==> bank[i] == all[i].State()
    {
      seq(|all|, i requires 0 <= i < |all| reads all => all[i].State())
    }

    /** No model is shared: an update of one leaves every other alone. */
    ghost predicate Shape() {
      |all| == MODELS && forall i, j :: 0 <= i < j < MODELS ==> all[i] != all[j]
    }

    ghost predicate Valid()
      reads all
      ensures Valid() ==> LevelBank(Bank())
    {
      Shape() && LevelBank(Bank())
    }

    constructor ()
      ensures Valid() && Bank() == FreshBank()
      ensures fresh(all)
    {
      var models := NewModels();
      all := models;
      new;
      hide Uniform;
      assert Bank() == FreshBank();
    }

    /** A copy to try things on: the same counts, and no model in common. */
    constructor Clone(other: LevelModels)
      requires other.Valid()
      ensures Valid() && Bank() == other.Bank()
      ensures fresh(all)
    {
      var models := CloneModels(other.all);
      all := models;
      new;
      hide LevelBank;
      assert Bank() == other.Bank();
    }

    /** Whether a band is silent, by where it sits. */
    function Silence(b: nat): (m: Model)
      requires b < BANDS && |all| == MODELS
    {
      all[BandContext(b)]
    }

    /** A band's departure from the band below: by band, and by what the band below did. */
    function Residual(b: nat, previous: int): (m: Model)
      requires b < BANDS && |all| == MODELS
    {
      all[RESIDUAL_BASE + ResidualSlot(b, previous)]
    }

    /** The first awake band of a frame, with nothing below it to predict from. */
    function First(): (m: Model)
      requires |all| == MODELS
    {
      all[FIRST]
    }
  }

  method NewModels() returns (models: seq<Model>)
    ensures |models| == MODELS && fresh(models)
    ensures forall k :: 0 <= k < MODELS ==> models[k].State() == Uniform(Alphabet(k))
    ensures forall k, l :: 0 <= k < l < MODELS ==> models[k] != models[l]
  {
    hide Uniform;
    models := [];
    for i := 0 to MODELS
      invariant |models| == i && fresh(models)
      invariant forall k :: 0 <= k < i ==> models[k].State() == Uniform(Alphabet(k))
      invariant forall k, l :: 0 <= k < l < i ==> models[k] != models[l]
    {
      var m := new Model(Alphabet(i));
      models := models + [m];
    }
  }

  method CloneModels(others: seq<Model>) returns (models: seq<Model>)
    ensures |models| == |others| && fresh(models)
    ensures forall k :: 0 <= k < |models| ==> models[k].State() == others[k].State()
    ensures forall k, l :: 0 <= k < l < |models| ==> models[k] != models[l]
  {
    hide Model.State;
    models := [];
    for i := 0 to |others|
      invariant |models| == i && fresh(models)
      invariant forall k :: 0 <= k < i ==> models[k].State() == others[k].State()
      invariant forall k, l :: 0 <= k < l < i ==> models[k] != models[l]
    {
      var m := new Model.Clone(others[i]);
      models := models + [m];
    }
  }

  /** Code `symbol` against one model of the set; the others keep their counts. */
  method EncodeAt(stream: RangeEncoder, models: LevelModels, model: Model, symbol: nat, ghost slot: nat)
    requires stream.Valid() && models.Valid()
    requires slot < MODELS && models.all[slot] == model && symbol < Alphabet(slot)
    modifies stream, models.all
    ensures stream.Valid() && models.Valid()
    ensures Fits(old(models.Bank()), Coded(slot, symbol))
    ensures IntervalOf(old(models.Bank())[slot], symbol).Codable()
    ensures stream.Abs() == Encode(old(stream.Abs()), IntervalOf(old(models.Bank())[slot], symbol))
    ensures models.Bank() == AdaptBank(old(models.Bank()), Coded(slot, symbol))
  {
    hide Adapt;
    ghost var bank := models.Bank();
    AdaptLevelBank(bank, Coded(slot, symbol));
    EncodeSymbol(stream, model, symbol);
    assert models.Bank() == bank[slot := model.State()];
  }

  method DecodeAt(stream: RangeDecoder, models: LevelModels, model: Model, ghost slot: nat) returns (symbol: nat)
    requires stream.Valid() && models.Valid()
    requires slot < MODELS && models.all[slot] == model
    modifies stream, models.all
    ensures stream.Valid() && models.Valid()
    ensures symbol < Alphabet(slot)
    ensures Reading([symbol], stream.State(), models.Bank())
         == ReadOne(stream.input, old(stream.State()), old(models.Bank()), slot)
  {
    hide DecodeOne;
    ghost var bank := models.Bank();
    ghost var d := stream.State();
    symbol := DecodeSymbol(stream, model);
    assert models.Bank() == bank[slot := model.State()];
    assert models.Bank() == ReadOne(stream.input, d, bank, slot).bank;
  }

  /**
   * Write one frame's band levels. The stream moves by exactly the frame's
   * script, so several frames may share one stream.
   */
  method WriteLevels(stream: RangeEncoder, levels: seq<nat>, models: LevelModels)
    requires stream.Valid() && models.Valid() && IsFrame(levels)
    modifies stream, models.all
    ensures stream.Valid() && models.Valid()
    ensures AllFit(old(models.Bank()), Script(levels))
    ensures stream.Abs() == Stream(old(stream.Abs()), old(models.Bank()), Script(levels))
    ensures models.Bank() == After(old(models.Bank()), Script(levels))
  {
    ghost var bank := models.Bank();
    ScriptFits(bank, levels);
    WriteFlags(stream, levels, models);
    ghost var middle := models.Bank();
    WriteAwake(stream, levels, models);
    StreamAppend(old(stream.Abs()), bank, Flags(levels, 0), Awake(levels, 0, GROUND));
  }

  method WriteFlags(stream: RangeEncoder, levels: seq<nat>, models: LevelModels)
    requires stream.Valid() && models.Valid() && IsFrame(levels)
    modifies stream, models.all
    ensures stream.Valid() && models.Valid()
    ensures AllFit(old(models.Bank()), Flags(levels, 0))
    ensures stream.Abs() == Stream(old(stream.Abs()), old(models.Bank()), Flags(levels, 0))
    ensures models.Bank() == After(old(models.Bank()), Flags(levels, 0))
  {
    hide *;
    OnTheGround(levels);
    FlagsFit(models.Bank(), levels, 0);
    ghost var e0, bank0 := stream.Abs(), models.Bank();
    FlagsStart(e0, bank0, levels);
    for b := 0 to BANDS
      invariant stream.Valid() && models.Valid()
      invariant FlagsLeft(e0, bank0, levels, stream.Abs(), models.Bank(), b)
    {
      WriteFlag(stream, models, e0, bank0, levels, b);
    }
    FlagsEnd(e0, bank0, levels, stream.Abs(), models.Bank());
  }

  lemma OnTheGround(levels: seq<nat>)
    requires IsFrame(levels)
    ensures Below(None, 0) == GROUND && |levels| == BANDS > 0
  {
  }

  method WriteFlag(stream: RangeEncoder, models: LevelModels, ghost e0: Exact, ghost bank0: seq<Freq>, levels: seq<nat>, b: nat)
    requires stream.Valid() && models.Valid() && IsFrame(levels) && b < BANDS
    requires e0.Ready() && LevelBank(bank0) && AllFit(bank0, Flags(levels, 0))
    requires FlagsLeft(e0, bank0, levels, stream.Abs(), models.Bank(), b)
    modifies stream, models.all
    ensures stream.Valid() && models.Valid()
    ensures FlagsLeft(e0, bank0, levels, stream.Abs(), models.Bank(), b + 1)
  {
    hide AdaptBank;
    hide LevelBank;
    hide Flags;
    hide FlagsLeft;
    hide Stream;
    hide After;
    hide AllFit;
    hide Encode;
    hide IntervalOf;
    hide Fits;
    FlagsLeftStep(e0, bank0, levels, stream.Abs(), models.Bank(), b);
    EncodeAt(stream, models, models.Silence(b), Flag(levels[b]), BandContext(b));
  }

  /** Where the writer of flags stands: from here, the flags of bands `b` and up finish them. */
  ghost predicate FlagsLeft(e0: Exact, bank0: seq<Freq>, levels: seq<nat>, e: Exact, bank: seq<Freq>, b: nat)
    requires e0.Ready() && LevelBank(bank0) && IsFrame(levels) && AllFit(bank0, Flags(levels, 0))
  {
    b <= BANDS && e.Ready() && LevelBank(bank) && AllFit(bank, Flags(levels, b)) &&
    Stream(e, bank, Flags(levels, b)) == Stream(e0, bank0, Flags(levels, 0)) &&
    After(bank, Flags(levels, b)) == After(bank0, Flags(levels, 0))
  }

  lemma FlagsStart(e0: Exact, bank0: seq<Freq>, levels: seq<nat>)
    requires e0.Ready() && LevelBank(bank0) && IsFrame(levels) && AllFit(bank0, Flags(levels, 0))
    ensures FlagsLeft(e0, bank0, levels, e0, bank0, 0)
  {
  }

  lemma FlagsLeftStep(e0: Exact, bank0: seq<Freq>, levels: seq<nat>, e: Exact, bank: seq<Freq>, b: nat)
    requires e0.Ready() && LevelBank(bank0) && IsFrame(levels) && AllFit(bank0, Flags(levels, 0))
    requires FlagsLeft(e0, bank0, levels, e, bank, b) && b < BANDS
    ensures var c := Coded(BandContext(b), Flag(levels[b]));
      Fits(bank, c) && IntervalOf(bank[c.model], c.symbol).Codable() &&
      FlagsLeft(e0, bank0, levels, Encode(e, IntervalOf(bank[c.model], c.symbol)), AdaptBank(bank, c), b + 1)
  {
    hide LevelBank;
    hide AdaptBank;
    hide Encode;
    var c := Coded(BandContext(b), Flag(levels[b]));
    assert Flags(levels, b)[0] == c;
    assert Flags(levels, b)[1..] == Flags(levels, b + 1);
    AdaptLevelBank(bank, c);
    IntervalCodable(bank[c.model], c.symbol);
  }

  lemma FlagsEnd(e0: Exact, bank0: seq<Freq>, levels: seq<nat>, e: Exact, bank: seq<Freq>)
    requires e0.Ready() && LevelBank(bank0) && IsFrame(levels) && AllFit(bank0, Flags(levels, 0))
    requires FlagsLeft(e0, bank0, levels, e, bank, BANDS)
    ensures e == Stream(e0, bank0, Flags(levels, 0)) && bank == After(bank0, Flags(levels, 0))
  {
    hide LevelBank;
  }

  /** Code one awake band against the model its neighbour below selects. */
  method EncodeBand(stream: RangeEncoder, models: LevelModels, b: nat, level: nat, predictor: Option<nat>, previous: int)
    requires stream.Valid() && models.Valid() && b < BANDS && level < ENERGY_SYMBOLS
    modifies stream, models.all
    ensures stream.Valid() && models.Valid()
    ensures Fits(old(models.Bank()), LevelCode(b, Below(predictor, previous), level))
    ensures var c := LevelCode(b, Below(predictor, previous), level);
      IntervalOf(old(models.Bank())[c.model], c.symbol).Codable() &&
      stream.Abs() == Encode(old(stream.Abs()), IntervalOf(old(models.Bank())[c.model], c.symbol)) &&
      models.Bank() == AdaptBank(old(models.Bank()), c)
  {
    hide AdaptBank;
    hide LevelBank;
    hide Encode;
    hide IntervalOf;
    hide Fits;
    match predictor
    case None =>
      EncodeAt(stream, models, models.First(), level, FIRST);
    case Some(p) =>
      EncodeAt(stream, models, models.Residual(b, previous), FoldResidual(level - p),
               RESIDUAL_BASE + ResidualSlot(b, previous));
  }

  /** Where the writer stands: from here, bands `b` and up finish the frame. */
  ghost predicate AwakeLeft(e0: Exact, bank0: seq<Freq>, levels: seq<nat>, e: Exact, bank: seq<Freq>, b: nat, below: Below)
    requires e0.Ready() && LevelBank(bank0) && IsFrame(levels) && AllFit(bank0, Awake(levels, 0, GROUND))
  {
    b <= BANDS && e.Ready() && LevelBank(bank) && AllFit(bank, Awake(levels, b, below)) &&
    Stream(e, bank, Awake(levels, b, below)) == Stream(e0, bank0, Awake(levels, 0, GROUND)) &&
    After(bank, Awake(levels, b, below)) == After(bank0, Awake(levels, 0, GROUND))
  }

  lemma AwakeLeftStep(e0: Exact, bank0: seq<Freq>, levels: seq<nat>, e: Exact, bank: seq<Freq>, b: nat, below: Below)
    requires e0.Ready() && LevelBank(bank0) && IsFrame(levels) && AllFit(bank0, Awake(levels, 0, GROUND))
    requires AwakeLeft(e0, bank0, levels, e, bank, b, below) && b < BANDS
    ensures levels[b] == SILENT ==> AwakeLeft(e0, bank0, levels, e, bank, b + 1, below)
    ensures levels[b] != SILENT ==>
      var c := LevelCode(b, below, levels[b]);
      Fits(bank, c) && IntervalOf(bank[c.model], c.symbol).Codable() &&
      AwakeLeft(e0, bank0, levels, Encode(e, IntervalOf(bank[c.model], c.symbol)), AdaptBank(bank, c), b + 1, below.Next(levels[b]))
  {
    hide LevelBank;
    hide FoldResidual;
    hide ResidualSlot;
    hide AdaptBank;
    hide Encode;
    if levels[b] != SILENT {
      var c := LevelCode(b, below, levels[b]);
      assert Awake(levels, b, below)[0] == c;
      assert Awake(levels, b, below)[1..] == Awake(levels, b + 1, below.Next(levels[b]));
      AdaptLevelBank(bank, c);
      IntervalCodable(bank[c.model], c.symbol);
    }
  }

  method WriteAwake(stream: RangeEncoder, levels: seq<nat>, models: LevelModels)
    requires stream.Valid() && models.Valid() && IsFrame(levels)
    modifies stream, models.all
    ensures stream.Valid() && models.Valid()
    ensures AllFit(old(models.Bank()), Awake(levels, 0, GROUND))
    ensures stream.Abs() == Stream(old(stream.Abs()), old(models.Bank()), Awake(levels, 0, GROUND))
    ensures models.Bank() == After(old(models.Bank()), Awake(levels, 0, GROUND))
  {
    hide *;
    OnTheGround(levels);
    AwakeFit(models.Bank(), levels, 0, GROUND);
    ghost var e0, bank0 := stream.Abs(), models.Bank();
    var predictor: Option<nat> := None;
    var previous := 0;
    AwakeStart(e0, bank0, levels);
    for b := 0 to BANDS
      invariant stream.Valid() && models.Valid()
      invariant AwakeLeft(e0, bank0, levels, stream.Abs(), models.Bank(), b, Below(predictor, previous))
    {
      predictor, previous := WriteNext(stream, models, e0, bank0, levels, b, predictor, previous);
    }
    AwakeEnd(e0, bank0, levels, stream.Abs(), models.Bank(), Below(predictor, previous));
  }

  /** The next band, if it is awake. */
  method WriteNext(stream: RangeEncoder, models: LevelModels, ghost e0: Exact, ghost bank0: seq<Freq>, levels: seq<nat>, b: nat,
                   predictor: Option<nat>, previous: int) returns (p: Option<nat>, r: int)
    requires stream.Valid() && models.Valid() && IsFrame(levels) && b < BANDS
    requires e0.Ready() && LevelBank(bank0) && AllFit(bank0, Awake(levels, 0, GROUND))
    requires AwakeLeft(e0, bank0, levels, stream.Abs(), models.Bank(), b, Below(predictor, previous))
    modifies stream, models.all
    ensures stream.Valid() && models.Valid()
    ensures AwakeLeft(e0, bank0, levels, stream.Abs(), models.Bank(), b + 1, Below(p, r))
    ensures Below(p, r) == if levels[b] == SILENT then Below(predictor, previous) else Below(predictor, previous).Next(levels[b])
  {
    hide LevelBank;
    hide LevelCode;
    hide AdaptBank;
    hide Awake;
    hide AwakeLeft;
    hide AllFit;
    hide Encode;
    hide IntervalOf;
    hide LevelModels.Shape;
    hide Fits;
    AwakeLeftStep(e0, bank0, levels, stream.Abs(), models.Bank(), b, Below(predictor, previous));
    var level := levels[b];
    p, r := predictor, previous;
    if level != SILENT {
      EncodeBand(stream, models, b, level, predictor, previous);
      if predictor.Some? {
        r := level - predictor.value;
      }
      p := Some(level);
    }
  }

  lemma AwakeStart(e0: Exact, bank0: seq<Freq>, levels: seq<nat>)
    requires e0.Ready() && LevelBank(bank0) && IsFrame(levels) && AllFit(bank0, Awake(levels, 0, GROUND))
    ensures AwakeLeft(e0, bank0, levels, e0, bank0, 0, GROUND)
  {
  }

  lemma AwakeEnd(e0: Exact, bank0: seq<Freq>, levels: seq<nat>, e: Exact, bank: seq<Freq>, below: Below)
    requires e0.Ready() && LevelBank(bank0) && IsFrame(levels) && AllFit(bank0, Awake(levels, 0, GROUND))
    requires AwakeLeft(e0, bank0, levels, e, bank, BANDS, below)
    ensures e == Stream(e0, bank0, Awake(levels, 0, GROUND)) && bank == After(bank0, Awake(levels, 0, GROUND))
  {
    hide LevelBank;
  }

  /** Read back what `WriteLevels` wrote, or something harmless from anything else. */
  method ReadLevels(stream: RangeDecoder, models: LevelModels) returns (levels: seq<nat>)
    requires stream.Valid() && models.Valid()
    modifies stream, models.all
    ensures stream.Valid() && models.Valid() && IsFrame(levels)
    ensures Reading(levels, stream.State(), models.Bank())
         == ReadFrame(stream.input, old(stream.State()), old(models.Bank()))
  {
    var flags := DecodeFlags(stream, models);
    levels := DecodeAwake(stream, models, flags);
  }

  /** Where the reader stands: what it has, plus what it has still to read, is the whole. */
  ghost predicate FlagsSoFar(input: seq<Byte>, whole: Reading, d: Registers, bank: seq<Freq>, flags: seq<nat>) {
    |flags| <= BANDS && Readable(d, bank) &&
    var rest := ReadFlags(input, d, bank, |flags|);
    whole == Reading(flags + rest.values, rest.registers, rest.bank)
  }

  lemma FlagsSoFarStep(input: seq<Byte>, whole: Reading, d: Registers, bank: seq<Freq>, flags: seq<nat>)
    requires FlagsSoFar(input, whole, d, bank, flags) && |flags| < BANDS
    ensures var one := ReadOne(input, d, bank, BandContext(|flags|));
      FlagsSoFar(input, whole, one.registers, one.bank, flags + one.values)
  {
    hide ReadOne;
    hide LevelBank;
  }

  method DecodeFlags(stream: RangeDecoder, models: LevelModels) returns (flags: seq<nat>)
    requires stream.Valid() && models.Valid()
    modifies stream, models.all
    ensures stream.Valid() && models.Valid() && |flags| == BANDS
    ensures Reading(flags, stream.State(), models.Bank())
         == ReadFlags(stream.input, old(stream.State()), old(models.Bank()), 0)
  {
    ghost var whole := ReadFlags(stream.input, stream.State(), models.Bank(), 0);
    ghost var d, bank := stream.State(), models.Bank();
    flags := [];
    for b := 0 to BANDS
      invariant stream.Valid() && models.Valid() && |flags| == b
      invariant d == stream.State() && bank == models.Bank()
      invariant FlagsSoFar(stream.input, whole, d, bank, flags)
    {
      hide FlagsSoFar;
      hide ReadOne;
      hide LevelBank;
      FlagsSoFarStep(stream.input, whole, d, bank, flags);
      var flag := DecodeAt(stream, models, models.Silence(b), BandContext(b));
      flags := flags + [flag];
      d, bank := stream.State(), models.Bank();
    }
  }

  /** Decode one awake band against the model its neighbour below selects. */
  method DecodeBand(stream: RangeDecoder, models: LevelModels, b: nat, predictor: Option<nat>, previous: int)
    returns (level: nat)
    requires stream.Valid() && models.Valid() && b < BANDS
    modifies stream, models.all
    ensures stream.Valid() && models.Valid()
    ensures var r := ReadOne(stream.input, old(stream.State()), old(models.Bank()), ModelFor(b, Below(predictor, previous)));
      level == LevelFrom(r.values[0], Below(predictor, previous)) &&
      stream.State() == r.registers && models.Bank() == r.bank
  {
    hide ReadOne;
    hide LevelBank;
    match predictor
    case None =>
      level := DecodeAt(stream, models, models.First(), FIRST);
    case Some(p) =>
      var symbol := DecodeAt(stream, models, models.Residual(b, previous), RESIDUAL_BASE + ResidualSlot(b, previous));
      level := UnfoldResidual(symbol, p);
  }

  ghost predicate AwakeSoFar(input: seq<Byte>, whole: Reading, flags: seq<nat>, d: Registers, bank: seq<Freq>,
                             levels: seq<nat>, below: Below)
    requires |flags| == BANDS
  {
    |levels| <= BANDS && Readable(d, bank) &&
    var rest := ReadAwake(input, d, bank, flags, |levels|, below);
    whole == Reading(levels + rest.values, rest.registers, rest.bank)
  }

  lemma AwakeSoFarStep(input: seq<Byte>, whole: Reading, flags: seq<nat>, d: Registers, bank: seq<Freq>,
                       levels: seq<nat>, below: Below)
    requires |flags| == BANDS && AwakeSoFar(input, whole, flags, d, bank, levels, below) && |levels| < BANDS
    ensures flags[|levels|] == 1 ==> AwakeSoFar(input, whole, flags, d, bank, levels + [SILENT], below)
    ensures flags[|levels|] != 1 ==>
      var one := ReadOne(input, d, bank, ModelFor(|levels|, below));
      var level := LevelFrom(one.values[0], below);
      AwakeSoFar(input, whole, flags, one.registers, one.bank, levels + [level], below.Next(level))
  {
    hide ReadOne;
    hide LevelBank;
    hide LevelFrom;
    hide ModelFor;
  }

  method DecodeAwake(stream: RangeDecoder, models: LevelModels, flags: seq<nat>) returns (levels: seq<nat>)
    requires stream.Valid() && models.Valid() && |flags| == BANDS
    modifies stream, models.all
    ensures stream.Valid() && models.Valid()
    ensures Reading(levels, stream.State(), models.Bank())
         == ReadAwake(stream.input, old(stream.State()), old(models.Bank()), flags, 0, GROUND)
  {
    hide ReadOne;
    hide LevelBank;
    hide LevelFrom;
    hide ModelFor;
    ghost var whole := ReadAwake(stream.input, stream.State(), models.Bank(), flags, 0, GROUND);
    ghost var d, bank, below := stream.State(), models.Bank(), GROUND;
    levels := [];
    var predictor: Option<nat> := None;
    var previous := 0;
    for b := 0 to BANDS
      invariant stream.Valid() && models.Valid() && |levels| == b
      invariant d == stream.State() && bank == models.Bank()
      invariant below == Below(predictor, previous)
      invariant AwakeSoFar(stream.input, whole, flags, d, bank, levels, below)
    {
      hide AwakeSoFar;
      AwakeSoFarStep(stream.input, whole, flags, d, bank, levels, below);
      if flags[b] == 1 {
        levels := levels + [SILENT];
      } else {
        var level := DecodeBand(stream, models, b, predictor, previous);
        d, bank, below := stream.State(), models.Bank(), below.Next(level);
        levels := levels + [level];
        if predictor.Some? {
          previous := level - predictor.value;
        }
        predictor := Some(level);
      }
    }
  }
}
