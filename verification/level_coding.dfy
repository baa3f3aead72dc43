/**
 * One frame's band levels in an arithmetic stream: silence flags first, then
 * each awake band predicted from the awake band below it, on a ring of 191.
 */
module LevelCoding {
  import opened Bytes
  import opened Common
  import opened ExactCoder
  import opened RangeCoding
  import opened AdaptiveModel
  import opened SymbolStream

  const ENERGY_SYMBOLS := 192
  const AWAKE_LEVELS := 191
  const SILENT := 0
  const BAND_CONTEXTS := 6
  const RESIDUAL_CONTEXTS := 5

  // --- folding ---

  /** Zig-zag, saturating at the top of the alphabet. */
  function Fold(delta: int): (symbol: nat)
    ensures symbol < ENERGY_SYMBOLS
  {
    var folded := if delta >= 0 then 2 * delta else -2 * delta - 1;
    if folded < ENERGY_SYMBOLS - 1 then folded else ENERGY_SYMBOLS - 1
  }

  function Unfold(symbol: nat): int {
    if symbol % 2 == 0 then symbol / 2 else -((symbol + 1) / 2)
  }

  /** Folding alone loses every delta outside -96..95; that is what the ring is for. */
  lemma FoldExact(delta: int)
    ensures Unfold(Fold(delta)) == delta <==> -96 <= delta <= 95
  {
  }

  function FoldResidual(residual: int): (symbol: nat)
    ensures symbol < AWAKE_LEVELS
  {
    var d := residual % AWAKE_LEVELS;
    Fold(if d > AWAKE_LEVELS / 2 then d - AWAKE_LEVELS else d)
  }

  function UnfoldResidual(symbol: nat, predictor: nat): (level: nat)
    ensures 1 <= level <= AWAKE_LEVELS
  {
    1 + (predictor - 1 + Unfold(symbol) % AWAKE_LEVELS) % AWAKE_LEVELS
  }

  /** Whatever the level below was, an awake level comes back exactly. */
  lemma ResidualExact(level: nat, predictor: nat)
    requires 1 <= level <= AWAKE_LEVELS
    ensures UnfoldResidual(FoldResidual(level - predictor), predictor) == level
  {
    hide Fold;
    hide Unfold;
    var d := (level - predictor) % AWAKE_LEVELS;
    var centred := if d > AWAKE_LEVELS / 2 then d - AWAKE_LEVELS else d;
    FoldExact(centred);
    WholeTurns(if d > AWAKE_LEVELS / 2 then -1 else 0, d);
    var q := (level - predictor) / AWAKE_LEVELS;
    WholeTurns(-q, level - 1);
    assert predictor - 1 + d == -q * AWAKE_LEVELS + (level - 1);
  }

  lemma WholeTurns(q: int, r: nat)
    requires r < AWAKE_LEVELS
    ensures (q * AWAKE_LEVELS + r) % AWAKE_LEVELS == r
  {
  }

  // --- which model codes what ---

  function BandContext(b: nat): (c: nat)
    requires b < BANDS
    ensures c < BAND_CONTEXTS
  {
    b * BAND_CONTEXTS / BANDS
  }

  function ResidualContext(previous: int): (c: nat)
    ensures c < RESIDUAL_CONTEXTS
  {
    if previous <= -4 then 0
    else if previous <= -2 then 1
    else if previous <= 0 then 2
    else if previous <= 2 then 3
    else 4
  }

  const RESIDUAL_BASE := BAND_CONTEXTS
  const FIRST := RESIDUAL_BASE + BAND_CONTEXTS * RESIDUAL_CONTEXTS
  const MODELS := FIRST + 1

  function ResidualSlot(b: nat, previous: int): (slot: nat)
    requires b < BANDS
    ensures slot < BAND_CONTEXTS * RESIDUAL_CONTEXTS
  {
    BandContext(b) * RESIDUAL_CONTEXTS + ResidualContext(previous)
  }

  function Alphabet(model: nat): (n: nat)
    ensures n == 2 || n == ENERGY_SYMBOLS
  {
    if model < BAND_CONTEXTS then 2 else ENERGY_SYMBOLS
  }

  ghost predicate LevelBank(bank: seq<Freq>) {
    |bank| == MODELS &&
    forall i :: 0 <= i < MODELS ==> bank[i].Valid() && |bank[i].counts| == Alphabet(i)
  }

  lemma AdaptLevelBank(bank: seq<Freq>, c: Coded)
    requires LevelBank(bank) && c.model < MODELS && c.symbol < Alphabet(c.model)
    ensures Fits(bank, c) && ValidBank(bank) && LevelBank(AdaptBank(bank, c))
  {
    AdaptValid(bank[c.model], c.symbol);
  }

  // --- what is written ---

  ghost predicate IsFrame(levels: seq<nat>) {
    |levels| == BANDS && forall b :: 0 <= b < BANDS ==> levels[b] < ENERGY_SYMBOLS
  }

  function Flag(level: nat): nat {
    if level == SILENT then 1 else 0
  }

  function Flags(levels: seq<nat>, b: nat): (cs: seq<Coded>)
    requires |levels| == BANDS && b <= BANDS
    decreases BANDS - b, levels
  {
    if b == BANDS then [] else [Coded(BandContext(b), Flag(levels[b]))] + Flags(levels, b + 1)
  }

  /** What the next awake band is coded against. */
  datatype Below = Below(predictor: Option<nat>, residual: int) {
    function Next(level: nat): Below {
      if predictor.None? then Below(Some(level), residual)
      else Below(Some(level), level - predictor.value)
    }
  }

  const GROUND := Below(None, 0)

  function LevelCode(b: nat, below: Below, level: nat): Coded
    requires b < BANDS
  {
    if below.predictor.None? then Coded(FIRST, level)
    else Coded(RESIDUAL_BASE + ResidualSlot(b, below.residual), FoldResidual(level - below.predictor.value))
  }

  function Awake(levels: seq<nat>, b: nat, below: Below): (cs: seq<Coded>)
    requires |levels| == BANDS && b <= BANDS
    decreases BANDS - b, levels
  {
    if b == BANDS then []
    else if levels[b] == SILENT then Awake(levels, b + 1, below)
    else [LevelCode(b, below, levels[b])] + Awake(levels, b + 1, below.Next(levels[b]))
  }

  /** Every symbol of one frame, in order, each with the model it is coded against. */
  function Script(levels: seq<nat>): seq<Coded>
    requires IsFrame(levels)
  {
    Flags(levels, 0) + Awake(levels, 0, GROUND)
  }

  lemma {:induction false} FlagsFit(bank: seq<Freq>, levels: seq<nat>, b: nat)
    requires LevelBank(bank) && |levels| == BANDS && b <= BANDS
    ensures AllFit(bank, Flags(levels, b)) && LevelBank(After(bank, Flags(levels, b)))
    decreases BANDS - b
  {
    if b < BANDS {
      hide LevelBank;
      hide BandContext;
      hide AdaptBank;
      var c := Coded(BandContext(b), Flag(levels[b]));
      AdaptLevelBank(bank, c);
      FlagsFit(AdaptBank(bank, c), levels, b + 1);
      assert Flags(levels, b)[1..] == Flags(levels, b + 1);
    }
  }

  lemma LevelCodeFits(b: nat, below: Below, level: nat)
    requires b < BANDS && level < ENERGY_SYMBOLS
    ensures var c := LevelCode(b, below, level);
      c.model < MODELS && c.symbol < Alphabet(c.model)
  {
    hide FoldResidual;
    hide ResidualSlot;
  }

  lemma {:induction false} AwakeFit(bank: seq<Freq>, levels: seq<nat>, b: nat, below: Below)
    requires LevelBank(bank) && IsFrame(levels) && b <= BANDS
    ensures AllFit(bank, Awake(levels, b, below)) && LevelBank(After(bank, Awake(levels, b, below)))
    decreases BANDS - b
  {
    if b < BANDS {
      hide LevelBank;
      hide FoldResidual;
      hide ResidualSlot;
      hide AdaptBank;
      if levels[b] == SILENT {
        AwakeFit(bank, levels, b + 1, below);
      } else {
        var c := LevelCode(b, below, levels[b]);
        LevelCodeFits(b, below, levels[b]);
        AwakeOpens(levels, b, below, []);
        assert Awake(levels, b, below) + [] == Awake(levels, b, below);
        assert Awake(levels, b + 1, below.Next(levels[b])) + [] == Awake(levels, b + 1, below.Next(levels[b]));
        hide LevelCode;
        hide Awake;
        AdaptLevelBank(bank, c);
        AwakeFit(AdaptBank(bank, c), levels, b + 1, below.Next(levels[b]));
        FitOpens(bank, Awake(levels, b, below));
      }
    }
  }

  lemma ScriptFits(bank: seq<Freq>, levels: seq<nat>)
    requires LevelBank(bank) && IsFrame(levels)
    ensures AllFit(bank, Script(levels)) && LevelBank(After(bank, Script(levels)))
  {
    FlagsFit(bank, levels, 0);
    AwakeFit(After(bank, Flags(levels, 0)), levels, 0, GROUND);
    AfterAppend(bank, Flags(levels, 0), Awake(levels, 0, GROUND));
  }

  // --- what is read ---

  /** The result of reading part of a frame: the values, and where the decoder is. */
  datatype Reading = Reading(values: seq<nat>, registers: Registers, bank: seq<Freq>)

  ghost predicate Readable(d: Registers, bank: seq<Freq>) {
    d.range >= TOP && LevelBank(bank)
  }

  /** Decode one symbol against model `m`. */
  function ReadOne(input: seq<Byte>, d: Registers, bank: seq<Freq>, m: nat): (r: Reading)
    requires Readable(d, bank) && m < MODELS
    ensures |r.values| == 1 && r.values[0] < Alphabet(m) && Readable(r.registers, r.bank)
  {
    var one := DecodeOne(input, d, bank[m]);
    AdaptLevelBank(bank, Coded(m, one.symbol));
    Reading([one.symbol], one.registers, bank[m := one.freq])
  }

  function ReadFlags(input: seq<Byte>, d: Registers, bank: seq<Freq>, b: nat): (r: Reading)
    requires Readable(d, bank) && b <= BANDS
    ensures |r.values| == BANDS - b && Readable(r.registers, r.bank)
    decreases BANDS - b, bank
  {
    if b == BANDS then Reading([], d, bank)
    else
      var one := ReadOne(input, d, bank, BandContext(b));
      var rest := ReadFlags(input, one.registers, one.bank, b + 1);
      Reading(one.values + rest.values, rest.registers, rest.bank)
  }

  function ModelFor(b: nat, below: Below): (m: nat)
    requires b < BANDS
    ensures RESIDUAL_BASE <= m < MODELS
  {
    if below.predictor.None? then FIRST else RESIDUAL_BASE + ResidualSlot(b, below.residual)
  }

  function LevelFrom(symbol: nat, below: Below): (level: nat)
    requires symbol < ENERGY_SYMBOLS
    ensures level < ENERGY_SYMBOLS
  {
    if below.predictor.None? then symbol else UnfoldResidual(symbol, below.predictor.value)
  }

  /** Reading undoes writing, one band at a time. */
  lemma LevelFromCode(b: nat, below: Below, level: nat)
    requires b < BANDS && SILENT < level < ENERGY_SYMBOLS
    ensures LevelCode(b, below, level).model == ModelFor(b, below)
    ensures LevelCode(b, below, level).symbol < ENERGY_SYMBOLS
    ensures LevelFrom(LevelCode(b, below, level).symbol, below) == level
  {
    if below.predictor.Some? {
      ResidualExact(level, below.predictor.value);
    }
  }

  function ReadAwake(input: seq<Byte>, d: Registers, bank: seq<Freq>, flags: seq<nat>, b: nat, below: Below): (r: Reading)
    requires Readable(d, bank) && |flags| == BANDS && b <= BANDS
    ensures |r.values| == BANDS - b && Readable(r.registers, r.bank)
    ensures forall i :: 0 <= i < |r.values| ==> r.values[i] < ENERGY_SYMBOLS
    decreases BANDS - b, bank
  {
    if b == BANDS then Reading([], d, bank)
    else if flags[b] == 1 then
      var rest := ReadAwake(input, d, bank, flags, b + 1, below);
      Reading([SILENT] + rest.values, rest.registers, rest.bank)
    else
      var one := ReadOne(input, d, bank, ModelFor(b, below));
      var level := LevelFrom(one.values[0], below);
      var rest := ReadAwake(input, one.registers, one.bank, flags, b + 1, below.Next(level));
      Reading([level] + rest.values, rest.registers, rest.bank)
  }

  function ReadFrame(input: seq<Byte>, d: Registers, bank: seq<Freq>): (r: Reading)
    requires Readable(d, bank)
    ensures IsFrame(r.values) && Readable(r.registers, r.bank)
  {
    var flags := ReadFlags(input, d, bank, 0);
    ReadAwake(input, flags.registers, flags.bank, flags.values, 0, GROUND)
  }

  // --- reading undoes writing ---

  lemma ReadsOne(bytes: seq<Byte>, d: Registers, bank: seq<Freq>, cs: seq<Coded>)
    requires LevelBank(bank) && WillRead(bytes, d, bank, cs) && cs != []
    ensures Readable(d, bank) && Fits(bank, cs[0]) && cs[0].model < MODELS
    ensures ReadOne(bytes, d, bank, cs[0].model).values == [cs[0].symbol]
    ensures ReadOne(bytes, d, bank, cs[0].model).bank == AdaptBank(bank, cs[0])
    ensures WillRead(bytes, ReadOne(bytes, d, bank, cs[0].model).registers, AdaptBank(bank, cs[0]), cs[1..])
  {
    hide DecodeOne;
    hide AdaptBank;
    ReadsNext(bytes, d, bank, cs);
  }

  function FlagValues(levels: seq<nat>, b: nat): (flags: seq<nat>)
    requires |levels| == BANDS && b <= BANDS
    ensures |flags| == BANDS - b
    ensures forall i :: 0 <= i < |flags| ==> flags[i] == Flag(levels[b + i])
    decreases BANDS - b, levels
  {
    if b == BANDS then [] else [Flag(levels[b])] + FlagValues(levels, b + 1)
  }

  lemma {:induction false} ReadsFlags(bytes: seq<Byte>, d: Registers, bank: seq<Freq>, levels: seq<nat>, b: nat, rest: seq<Coded>)
    requires LevelBank(bank) && |levels| == BANDS && b <= BANDS
    requires WillRead(bytes, d, bank, Flags(levels, b) + rest)
    ensures Readable(d, bank) && AllFit(bank, Flags(levels, b))
    ensures ReadFlags(bytes, d, bank, b).values == FlagValues(levels, b)
    ensures ReadFlags(bytes, d, bank, b).bank == After(bank, Flags(levels, b))
    ensures WillRead(bytes, ReadFlags(bytes, d, bank, b).registers, After(bank, Flags(levels, b)), rest)
    decreases BANDS - b
  {
    hide WillRead;
    hide LevelBank;
    hide BandContext;
    hide AdaptBank;
    var cs := Flags(levels, b) + rest;
    WillReadReady(bytes, d, bank, cs);
    if b == BANDS {
      assert cs == rest;
    } else {
      hide ReadOne;
      assert cs[1..] == Flags(levels, b + 1) + rest;
      assert Flags(levels, b)[1..] == Flags(levels, b + 1);
      ReadsOne(bytes, d, bank, cs);
      AdaptLevelBank(bank, cs[0]);
      ReadsFlags(bytes, ReadOne(bytes, d, bank, cs[0].model).registers, AdaptBank(bank, cs[0]), levels, b + 1, rest);
    }
  }

  /** The awake bands from `b` on are read as written, and what follows is still to come. */
  ghost predicate AwakeHeard(bytes: seq<Byte>, d: Registers, bank: seq<Freq>, levels: seq<nat>, b: nat, below: Below, rest: seq<Coded>)
    requires IsFrame(levels) && b <= BANDS
  {
    Readable(d, bank) && AllFit(bank, Awake(levels, b, below)) &&
    var r := ReadAwake(bytes, d, bank, FlagValues(levels, 0), b, below);
    r.values == levels[b..] && r.bank == After(bank, Awake(levels, b, below)) && WillRead(bytes, r.registers, r.bank, rest)
  }

  lemma {:induction false} ReadsAwake(bytes: seq<Byte>, d: Registers, bank: seq<Freq>, levels: seq<nat>, b: nat, below: Below, rest: seq<Coded>)
    requires LevelBank(bank) && IsFrame(levels) && b <= BANDS
    requires WillRead(bytes, d, bank, Awake(levels, b, below) + rest)
    ensures AwakeHeard(bytes, d, bank, levels, b, below, rest)
    decreases BANDS - b
  {
    hide AwakeHeard;
    hide WillRead;
    hide ReadAwake;
    hide Awake;
    AwakeReady(bytes, d, bank, levels, b, below, rest);
    AwakeOpens(levels, b, below, rest);
    if b == BANDS {
      HeardEnd(bytes, d, bank, levels, below, rest);
    } else if levels[b] == SILENT {
      ReadsAwake(bytes, d, bank, levels, b + 1, below, rest);
      HeardSilent(bytes, d, bank, levels, b, below, rest);
    } else {
      AwakeBand(bytes, d, bank, levels, b, below, rest);
      hide LevelBank;
      hide ReadOne;
      hide LevelCode;
      hide ModelFor;
      hide LevelFrom;
      var c := LevelCode(b, below, levels[b]);
      var one := ReadOne(bytes, d, bank, c.model);
      ReadsAwake(bytes, one.registers, one.bank, levels, b + 1, below.Next(levels[b]), rest);
      HeardAwake(bytes, d, bank, levels, b, below, rest);
    }
  }

  lemma HeardEnd(bytes: seq<Byte>, d: Registers, bank: seq<Freq>, levels: seq<nat>, below: Below, rest: seq<Coded>)
    requires IsFrame(levels) && Readable(d, bank) && WillRead(bytes, d, bank, rest)
    ensures AwakeHeard(bytes, d, bank, levels, BANDS, below, rest)
  {
    hide WillRead;
    hide LevelBank;
  }

  lemma HeardSilent(bytes: seq<Byte>, d: Registers, bank: seq<Freq>, levels: seq<nat>, b: nat, below: Below, rest: seq<Coded>)
    requires IsFrame(levels) && b < BANDS && levels[b] == SILENT && AwakeHeard(bytes, d, bank, levels, b + 1, below, rest)
    ensures AwakeHeard(bytes, d, bank, levels, b, below, rest)
  {
    hide WillRead;
    hide LevelBank;
    hide ReadAwake;
    hide Awake;
    hide AllFit;
    hide After;
    hide FlagValues;
    ReadOpens(bytes, d, bank, levels, b, below);
    Suffix(levels, b);
  }

  lemma Suffix(levels: seq<nat>, b: nat)
    requires b < |levels|
    ensures levels[b..] == [levels[b]] + levels[b + 1..]
  {
  }

  lemma HeardAwake(bytes: seq<Byte>, d: Registers, bank: seq<Freq>, levels: seq<nat>, b: nat, below: Below, rest: seq<Coded>)
    requires IsFrame(levels) && b < BANDS && levels[b] != SILENT && Readable(d, bank)
    requires ModelFor(b, below) == LevelCode(b, below, levels[b]).model && Fits(bank, LevelCode(b, below, levels[b]))
    requires var one := ReadOne(bytes, d, bank, ModelFor(b, below));
      LevelFrom(one.values[0], below) == levels[b] && one.bank == AdaptBank(bank, LevelCode(b, below, levels[b])) &&
      AwakeHeard(bytes, one.registers, one.bank, levels, b + 1, below.Next(levels[b]), rest)
    ensures AwakeHeard(bytes, d, bank, levels, b, below, rest)
  {
    ReadOpens(bytes, d, bank, levels, b, below);
    FitOpens(bank, Awake(levels, b, below));
    Suffix(levels, b);
    hide IsFrame;
    hide WillRead;
    hide LevelBank;
    hide ReadAwake;
    hide Awake;
    hide AllFit;
    hide After;
    hide FlagValues;
    hide AdaptBank;
    hide ReadOne;
    hide LevelCode;
    hide ModelFor;
    hide LevelFrom;
    hide Fits;
  }

  /** The first band of what is left to read. */
  lemma ReadOpens(bytes: seq<Byte>, d: Registers, bank: seq<Freq>, levels: seq<nat>, b: nat, below: Below)
    requires IsFrame(levels) && b < BANDS && Readable(d, bank)
    ensures levels[b] == SILENT ==>
      Awake(levels, b, below) == Awake(levels, b + 1, below) &&
      var more := ReadAwake(bytes, d, bank, FlagValues(levels, 0), b + 1, below);
      ReadAwake(bytes, d, bank, FlagValues(levels, 0), b, below) == Reading([levels[b]] + more.values, more.registers, more.bank)
    ensures levels[b] != SILENT ==>
      var c := LevelCode(b, below, levels[b]);
      var later := Awake(levels, b + 1, below.Next(levels[b]));
      var one := ReadOne(bytes, d, bank, ModelFor(b, below));
      var level := LevelFrom(one.values[0], below);
      var more := ReadAwake(bytes, one.registers, one.bank, FlagValues(levels, 0), b + 1, below.Next(level));
      Awake(levels, b, below) != [] && Awake(levels, b, below)[0] == c && Awake(levels, b, below)[1..] == later &&
      ReadAwake(bytes, d, bank, FlagValues(levels, 0), b, below) == Reading([level] + more.values, more.registers, more.bank)
  {
    hide LevelBank;
    hide ReadOne;
    hide LevelCode;
    hide ModelFor;
    hide LevelFrom;
  }

  lemma AwakeReady(bytes: seq<Byte>, d: Registers, bank: seq<Freq>, levels: seq<nat>, b: nat, below: Below, rest: seq<Coded>)
    requires LevelBank(bank) && IsFrame(levels) && b <= BANDS && WillRead(bytes, d, bank, Awake(levels, b, below) + rest)
    ensures Readable(d, bank)
  {
    hide WillRead;
    hide Awake;
    hide LevelBank;
    WillReadReady(bytes, d, bank, Awake(levels, b, below) + rest);
  }

  /** One awake band read: its level comes back, and what follows is still to come. */
  lemma AwakeBand(bytes: seq<Byte>, d: Registers, bank: seq<Freq>, levels: seq<nat>, b: nat, below: Below, rest: seq<Coded>)
    requires Readable(d, bank) && IsFrame(levels) && b < BANDS && levels[b] != SILENT
    requires WillRead(bytes, d, bank, Awake(levels, b, below) + rest)
    ensures var c := LevelCode(b, below, levels[b]);
      c.model == ModelFor(b, below) && c.model < MODELS && Fits(bank, c) &&
      var one := ReadOne(bytes, d, bank, c.model);
      LevelFrom(one.values[0], below) == levels[b] && one.bank == AdaptBank(bank, c) && Readable(one.registers, one.bank) &&
      WillRead(bytes, one.registers, one.bank, Awake(levels, b + 1, below.Next(levels[b])) + rest)
  {
    hide WillRead;
    hide LevelBank;
    hide AdaptBank;
    hide ReadOne;
    hide LevelCode;
    hide ModelFor;
    hide LevelFrom;
    hide Fits;
    hide Awake;
    AwakeOpens(levels, b, below, rest);
    LevelFromCode(b, below, levels[b]);
    ReadsOne(bytes, d, bank, Awake(levels, b, below) + rest);
  }

  lemma FitOpens(bank: seq<Freq>, cs: seq<Coded>)
    ensures cs == [] ==> AllFit(bank, cs) && After(bank, cs) == bank
    ensures cs != [] && Fits(bank, cs[0]) && AllFit(AdaptBank(bank, cs[0]), cs[1..]) ==>
      AllFit(bank, cs) && After(bank, cs) == After(AdaptBank(bank, cs[0]), cs[1..])
  {
  }

  /** The first band of what is left to write. */
  lemma AwakeOpens(levels: seq<nat>, b: nat, below: Below, rest: seq<Coded>)
    requires IsFrame(levels) && b <= BANDS
    ensures b == BANDS ==> Awake(levels, b, below) + rest == rest
    ensures b < BANDS && levels[b] == SILENT ==> Awake(levels, b, below) == Awake(levels, b + 1, below)
    ensures b < BANDS && levels[b] != SILENT ==>
      var cs := Awake(levels, b, below) + rest;
      cs != [] && cs[0] == LevelCode(b, below, levels[b]) && cs[1..] == Awake(levels, b + 1, below.Next(levels[b])) + rest
  {
    hide LevelBank;
    hide ReadOne;
    hide LevelCode;
    hide ModelFor;
    hide LevelFrom;
  }

  /** A decoder about to meet a frame reads that frame, and is about to meet what follows. */
  lemma ReadsFrame(bytes: seq<Byte>, d: Registers, bank: seq<Freq>, levels: seq<nat>, rest: seq<Coded>)
    requires LevelBank(bank) && IsFrame(levels)
    requires WillRead(bytes, d, bank, Script(levels) + rest)
    ensures Readable(d, bank) && AllFit(bank, Script(levels))
    ensures ReadFrame(bytes, d, bank).values == levels
    ensures ReadFrame(bytes, d, bank).bank == After(bank, Script(levels))
    ensures WillRead(bytes, ReadFrame(bytes, d, bank).registers, After(bank, Script(levels)), rest)
  {
    hide WillRead;
    hide LevelBank;
    var flags, awake := Flags(levels, 0), Awake(levels, 0, GROUND);
    assert Script(levels) + rest == flags + (awake + rest);
    ReadsFlags(bytes, d, bank, levels, 0, awake + rest);
    FlagsFit(bank, levels, 0);
    ReadsAwake(bytes, ReadFlags(bytes, d, bank, 0).registers, After(bank, flags), levels, 0, GROUND, rest);
    AfterAppend(bank, flags, awake);
    assert levels[0..] == levels;
  }
}
