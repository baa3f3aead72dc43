/** Choosing the levels of one layered frame, and what a decoder makes of it. */
module LayeredCodec {
  import opened Bytes
  import opened Common
  import opened ExactCoder
  import opened RangeCoding
  import opened AdaptiveModel
  import opened SymbolStream
  import opened LevelCoding
  import opened LevelModelObjects
  import opened Grouped
  import Wire

  /*
   * A level may move only if the frame comes out the same shape: the coded
   * levels stay as long as they were and the plan stays the same, because the
   * decoder recomputes both.
   */

  /** How much of a plan's coded shapes goes where. */
  datatype Packed = Packed(shapes: seq<Byte>, refinements: seq<seq<Byte>>)

  /**
   * What both ends compute alike: the plan for a set of levels and a number of
   * bits, and how many of the packed bits the shaping filter takes.
   */
  datatype Rules<!P> = Rules(plan: (seq<nat>, nat) -> P, shaping: seq<Byte> -> nat, budgetBits: nat)

  /** One frame as the encoder meets it, its audio reduced to what the level logic asks of it. */
  datatype Input<!P> = Input(
    length: nat,               // samples in the window
    levels: seq<nat>,          // measured and coarsened
    shaping: nat,              // bits the shaping filter takes
    pack: P -> Packed,         // the shapes, coded to a plan
    refine: nat -> seq<nat>,   // the levels preferred when so many refinements survive
    budget: nat                // bytes the link will take
  )

  ghost predicate Sound<P(!new)>(rules: Rules<P>, input: Input<P>) {
    IsFrame(input.levels) &&
    (forall keep :: IsFrame(input.refine(keep))) &&
    forall p :: rules.shaping(input.pack(p).shapes) == input.shaping
  }

  /** Bits left for shapes once the levels and the filter are paid for. */
  function Left<P(==,!new)>(rules: Rules<P>, energyLength: nat, shaping: nat): nat {
    var spent := (1 + energyLength) * 8 + shaping;
    if spent < rules.budgetBits then rules.budgetBits - spent else 0
  }

  function Energy(bank: seq<Freq>, levels: seq<nat>): (bytes: seq<Byte>)
    requires LevelBank(bank) && IsFrame(levels)
    ensures |bytes| >= 4
  {
    StreamBytes(bank, [levels])
  }

  // --- the commit loop ---

  /** The decoder would split the frame the way it was written. */
  predicate Keeps<P(==)>(rules: Rules<P>, bank: seq<Freq>, plan: P, want: nat, length: nat, levels: seq<nat>)
    requires LevelBank(bank) && IsFrame(levels)
  {
    |Energy(bank, levels)| == length && rules.plan(levels, want) == plan
  }

  function Commit<P(==,!new)>(rules: Rules<P>, bank: seq<Freq>, plan: P, want: nat, length: nat,
                     refined: seq<nat>, chosen: seq<nat>, b: nat): (r: seq<nat>)
    requires LevelBank(bank) && IsFrame(refined) && IsFrame(chosen) && b <= BANDS
    ensures IsFrame(r)
    decreases BANDS - b, chosen
  {
    if b == BANDS then chosen
    else
      var candidate := chosen[b := refined[b]];
      if refined[b] != chosen[b] && Keeps(rules, bank, plan, want, length, candidate) then
        Commit(rules, bank, plan, want, length, refined, candidate, b + 1)
      else Commit(rules, bank, plan, want, length, refined, chosen, b + 1)
  }

  /** Band by band, the length and the plan survive, and a band moves only to its refinement. */
  lemma {:induction false} CommitKeeps<P(!new)>(rules: Rules<P>, bank: seq<Freq>, plan: P, want: nat, length: nat,
                                          refined: seq<nat>, chosen: seq<nat>, b: nat)
    requires LevelBank(bank) && IsFrame(refined) && IsFrame(chosen) && b <= BANDS
    requires Keeps(rules, bank, plan, want, length, chosen)
    ensures var r := Commit(rules, bank, plan, want, length, refined, chosen, b);
      Keeps(rules, bank, plan, want, length, r) &&
      r[..b] == chosen[..b] &&
      forall c :: b <= c < BANDS ==> r[c] == chosen[c] || r[c] == refined[c]
    decreases BANDS - b
  {
    hide *;
    if b < BANDS {
      var next := Offered(rules, bank, plan, want, length, refined, chosen, b);
      CommitTurn(rules, bank, plan, want, length, refined, chosen, b);
      CommitKeeps(rules, bank, plan, want, length, refined, next, b + 1);
      OneLess(Commit(rules, bank, plan, want, length, refined, next, b + 1), next, b);
    } else {
      CommitDone(rules, bank, plan, want, length, refined, chosen, b);
    }
  }

  lemma CommitDone<P(!new)>(rules: Rules<P>, bank: seq<Freq>, plan: P, want: nat, length: nat, refined: seq<nat>, chosen: seq<nat>, b: nat)
    requires LevelBank(bank) && IsFrame(refined) && IsFrame(chosen) && b == BANDS
    ensures Commit(rules, bank, plan, want, length, refined, chosen, b) == chosen && |chosen| == BANDS
  {
  }

  lemma OneLess(r: seq<nat>, next: seq<nat>, b: nat)
    requires b < |r| == |next| && r[..b + 1] == next[..b + 1]
    ensures r[..b] == next[..b] && r[b] == next[b]
  {
    assert r[..b] == r[..b + 1][..b] && next[..b] == next[..b + 1][..b];
    assert r[b] == r[..b + 1][b];
  }

  /** What one turn of the loop leaves. */
  function Offered<P(==,!new)>(rules: Rules<P>, bank: seq<Freq>, plan: P, bits: nat, length: nat,
                               refined: seq<nat>, chosen: seq<nat>, b: nat): (r: seq<nat>)
    requires LevelBank(bank) && IsFrame(refined) && IsFrame(chosen) && b < BANDS
    requires Keeps(rules, bank, plan, bits, length, chosen)
    ensures IsFrame(r) && Keeps(rules, bank, plan, bits, length, r)
  {
    var candidate := chosen[b := refined[b]];
    if refined[b] != chosen[b] && Keeps(rules, bank, plan, bits, length, candidate) then candidate else chosen
  }

  lemma CommitTurn<P(!new)>(rules: Rules<P>, bank: seq<Freq>, plan: P, want: nat, length: nat,
                            refined: seq<nat>, chosen: seq<nat>, b: nat)
    requires LevelBank(bank) && IsFrame(refined) && IsFrame(chosen) && b < BANDS
    requires Keeps(rules, bank, plan, want, length, chosen)
    ensures var next := Offered(rules, bank, plan, want, length, refined, chosen, b);
      var r := Commit(rules, bank, plan, want, length, refined, next, b + 1);
      |chosen| == |refined| == |next| == |r| == BANDS &&
      Commit(rules, bank, plan, want, length, refined, chosen, b) == r &&
      next[..b] == chosen[..b] && (next[b] == chosen[b] || next[b] == refined[b]) &&
      forall c :: b < c < BANDS ==> next[c] == chosen[c]
  {
    hide Keeps;
    hide LevelBank;
  }

  /** The levels as they stood when band `b` was reached, with the move it was offered. */
  function Moved(chosen: seq<nat>, refined: seq<nat>, levels: seq<nat>, b: nat): (r: seq<nat>)
    requires IsFrame(chosen) && IsFrame(refined) && IsFrame(levels) && b < BANDS
    ensures IsFrame(r)
  {
    chosen[..b] + [refined[b]] + levels[b + 1..]
  }

  /**
   * A band stands at its refined level if moving it there, from the levels as
   * they stood when it was reached, keeps the length of the coded levels and the
   * plan; otherwise it stands where it was measured.
   */
  ghost predicate Settled<P(!new)>(rules: Rules<P>, bank: seq<Freq>, bits: nat, refined: seq<nat>, levels: seq<nat>, chosen: seq<nat>)
    requires LevelBank(bank) && IsFrame(refined) && IsFrame(levels) && IsFrame(chosen)
  {
    forall b :: 0 <= b < BANDS ==>
      var moved := Moved(chosen, refined, levels, b);
      chosen[b] ==
        if |Energy(bank, moved)| == |Energy(bank, levels)| && rules.plan(moved, bits) == rules.plan(levels, bits)
        then refined[b] else levels[b]
  }

  lemma {:induction false} CommitSettlesFrom<P(!new)>(rules: Rules<P>, bank: seq<Freq>, bits: nat, refined: seq<nat>,
                                                levels: seq<nat>, chosen: seq<nat>, from: nat, b: nat)
    requires LevelBank(bank) && IsFrame(refined) && IsFrame(levels) && IsFrame(chosen) && from <= BANDS && b < BANDS
    requires Keeps(rules, bank, rules.plan(levels, bits), bits, |Energy(bank, levels)|, chosen)
    requires chosen[from..] == levels[from..] && from <= b
    ensures var plan, length := rules.plan(levels, bits), |Energy(bank, levels)|;
      var r := Commit(rules, bank, plan, bits, length, refined, chosen, from);
      r[..from] == chosen[..from] &&
      r[b] == if Keeps(rules, bank, plan, bits, length, Moved(r, refined, levels, b)) then refined[b] else levels[b]
    decreases BANDS - from
  {
    hide *;
    var plan, length := rules.plan(levels, bits), |Energy(bank, levels)|;
    var next := Offered(rules, bank, plan, bits, length, refined, chosen, from);
    var r := Commit(rules, bank, plan, bits, length, refined, next, from + 1);
    BandsAre(levels, from, b);
    CommitTurn(rules, bank, plan, bits, length, refined, chosen, from);
    CommitKeeps(rules, bank, plan, bits, length, refined, next, from + 1);
    OneLess(r, next, from);
    if from < b {
      LaterStand(chosen, next, levels, from);
      CommitSettlesFrom(rules, bank, bits, refined, levels, next, from + 1, b);
    } else {
      OfferedHere(rules, bank, plan, bits, length, refined, levels, chosen, r, b);
    }
  }

  lemma BandsAre(levels: seq<nat>, from: nat, b: nat)
    requires IsFrame(levels) && from <= b < BANDS
    ensures |levels| == BANDS && from + 1 <= BANDS
  {
  }

  lemma LaterStand(chosen: seq<nat>, next: seq<nat>, levels: seq<nat>, from: nat)
    requires |chosen| == |next| == |levels| == BANDS && from < BANDS && chosen[from..] == levels[from..]
    requires forall c :: from < c < BANDS ==> next[c] == chosen[c]
    ensures next[from + 1..] == levels[from + 1..]
  {
    assert forall c :: from <= c < BANDS ==> chosen[c] == chosen[from..][c - from] == levels[c];
  }

  lemma OfferedHere<P(!new)>(rules: Rules<P>, bank: seq<Freq>, plan: P, bits: nat, length: nat,
                             refined: seq<nat>, levels: seq<nat>, chosen: seq<nat>, r: seq<nat>, b: nat)
    requires LevelBank(bank) && IsFrame(refined) && IsFrame(levels) && IsFrame(chosen) && IsFrame(r) && b < BANDS
    requires Keeps(rules, bank, plan, bits, length, chosen)
    requires chosen[b..] == levels[b..] && r[..b] == chosen[..b]
    ensures Offered(rules, bank, plan, bits, length, refined, chosen, b)[b] ==
      if Keeps(rules, bank, plan, bits, length, Moved(r, refined, levels, b)) then refined[b] else levels[b]
  {
    hide Keeps;
    hide LevelBank;
    assert chosen[b] == chosen[b..][0] == levels[b..][0] == levels[b];
    assert chosen[b + 1..] == chosen[b..][1..] && levels[b + 1..] == levels[b..][1..];
    assert Moved(r, refined, levels, b) == chosen[b := refined[b]];
    assert refined[b] == chosen[b] ==> chosen[b := refined[b]] == chosen;
  }

  /** The loop moves every band it can and no other. */
  lemma CommitSettles<P(!new)>(rules: Rules<P>, bank: seq<Freq>, bits: nat, refined: seq<nat>, levels: seq<nat>)
    requires LevelBank(bank) && IsFrame(refined) && IsFrame(levels)
    ensures Settled(rules, bank, bits, refined, levels,
                    Commit(rules, bank, rules.plan(levels, bits), bits, |Energy(bank, levels)|, refined, levels, 0))
  {
    hide LevelBank;
    hide Energy;
    hide Commit;
    hide Moved;
    var plan, length := rules.plan(levels, bits), |Energy(bank, levels)|;
    var chosen := Commit(rules, bank, plan, bits, length, refined, levels, 0);
    forall b | 0 <= b < BANDS
      ensures chosen[b] == if Keeps(rules, bank, plan, bits, length, Moved(chosen, refined, levels, b)) then refined[b] else levels[b]
    {
      CommitSettlesFrom(rules, bank, bits, refined, levels, levels, 0, b);
    }
  }

  /** So a single refinement that keeps both is always made. */
  lemma OneMoveIsMade<P(!new)>(rules: Rules<P>, bank: seq<Freq>, bits: nat, levels: seq<nat>, b: nat, level: nat, chosen: seq<nat>)
    requires LevelBank(bank) && IsFrame(levels) && b < BANDS && level < ENERGY_SYMBOLS && IsFrame(chosen)
    requires Settled(rules, bank, bits, levels[b := level], levels, chosen)
    requires |Energy(bank, levels[b := level])| == |Energy(bank, levels)|
    requires rules.plan(levels[b := level], bits) == rules.plan(levels, bits)
    ensures chosen == levels[b := level]
  {
    hide LevelBank;
    hide Energy;
    var refined := levels[b := level];
    forall c | 0 <= c < BANDS && c != b ensures chosen[c] == levels[c] {
      assert refined[c] == levels[c];
    }
    assert Moved(chosen, refined, levels, b) == refined;
  }

  // --- one frame, encoded and decoded ---

  function Assemble(energy: seq<Byte>, shapes: seq<Byte>, refinements: seq<seq<Byte>>): Wire.LayeredFrame
    requires |energy| < 256
  {
    Wire.LayeredFrame([|energy|] + energy + shapes, refinements)
  }

  datatype Encoded<P> = Encoded(frame: Wire.LayeredFrame, levels: seq<nat>, plan: P)

  function EncodeFrame<P(==,!new)>(rules: Rules<P>, bank: seq<Freq>, input: Input<P>): (r: Result<Encoded<P>>)
    requires LevelBank(bank) && Sound(rules, input)
    ensures r.Ok? ==> IsFrame(r.value.levels)
  {
    if input.length != WINDOW then Err(WrongFrameSize(input.length))
    else
      var energy := Energy(bank, input.levels);
      if |energy| > 255 then Err(Malformed)
      else
        var want := Left(rules, |energy|, input.shaping);
        var plan := rules.plan(input.levels, want);
        var packed := input.pack(plan);
        var keep := Wire.Keep(Assemble(energy, packed.shapes, packed.refinements), input.budget, |packed.refinements|);
        var chosen := Commit(rules, bank, plan, want, |energy|, input.refine(keep), input.levels, 0);
        CommitKeeps(rules, bank, plan, want, |energy|, input.refine(keep), input.levels, 0);
        Ok(Encoded(Assemble(Energy(bank, chosen), packed.shapes, packed.refinements[..keep]), chosen, plan))
  }

  /**
   * All that a frame is bound to be. Its plan is that of the measured levels and
   * of the bits which, with the coded levels, their length byte and the filter,
   * make up the budget; its refinements are as many as the link takes; and its
   * levels are those that could be moved without changing length or plan.
   */
  ghost predicate Built<P(!new)>(rules: Rules<P>, bank: seq<Freq>, input: Input<P>, e: Encoded<P>)
    requires LevelBank(bank) && Sound(rules, input)
  {
    hide Wire.Size;
    hide Settled;
    hide Energy;
    hide LevelBank;
    hide IsFrame;
    IsFrame(e.levels) &&
    var measured, sent := Energy(bank, input.levels), Energy(bank, e.levels);
    var spent := 8 + 8 * |measured| + input.shaping;
    var bits := if spent <= rules.budgetBits then rules.budgetBits - spent else 0;
    var packed := input.pack(e.plan);
    var keep := |e.frame.refinements|;
    |sent| == |measured| < 256 &&
    e.plan == rules.plan(input.levels, bits) &&
    e.frame.base == [|sent|] + sent + packed.shapes &&
    keep <= |packed.refinements| && e.frame.refinements == packed.refinements[..keep] &&
    Wire.AsManyAsFit(Wire.LayeredFrame([|sent|] + measured + packed.shapes, packed.refinements), input.budget, keep) &&
    Settled(rules, bank, bits, input.refine(keep), input.levels, e.levels)
  }

  /** And there is a frame exactly for a window of the right size whose levels code to a length one byte can hold. */
  lemma FrameIsBuilt<P(!new)>(rules: Rules<P>, bank: seq<Freq>, input: Input<P>)
    requires LevelBank(bank) && Sound(rules, input)
    ensures var r := EncodeFrame(rules, bank, input);
      if input.length != 1920 then r == Err(WrongFrameSize(input.length))
      else if |Energy(bank, input.levels)| > 255 then r == Err(Malformed)
      else r.Ok? && Built(rules, bank, input, r.value)
  {
    hide LevelBank;
    hide IsFrame;
    hide Commit;
    hide Energy;
    hide Settled;
    hide Wire.Keep;
    hide Wire.AsManyAsFit;
    var energy := Energy(bank, input.levels);
    if input.length == WINDOW && |energy| <= 255 {
      var e := EncodeFrame(rules, bank, input).value;
      var want := Left(rules, |energy|, input.shaping);
      var packed := input.pack(e.plan);
      var whole := Assemble(energy, packed.shapes, packed.refinements);
      var keep := Wire.Keep(whole, input.budget, |packed.refinements|);
      Wire.KeepFits(whole, input.budget);
      CommitKeeps(rules, bank, e.plan, want, |energy|, input.refine(keep), input.levels, 0);
      CommitSettles(rules, bank, want, input.refine(keep), input.levels);
    }
  }

  datatype Understood<P> = Understood(levels: seq<nat>, plan: P, bank: seq<Freq>)

  function DecodeFrame<P(==,!new)>(rules: Rules<P>, bank: seq<Freq>, frame: Wire.LayeredFrame): (r: Result<Understood<P>>)
    requires LevelBank(bank)
    ensures r.Ok? ==> LevelBank(r.value.bank)
  {
    if frame.base == [] || |frame.base| - 1 < frame.base[0] then Err(Malformed)
    else
      var length := frame.base[0];
      var energy, shapes := frame.base[1..1 + length], frame.base[1 + length..];
      var read := ReadFrame(energy, Boot(energy), bank);
      Ok(Understood(read.values, rules.plan(read.values, Left(rules, length, rules.shaping(shapes))), read.bank))
  }

  function BankOf(bank: seq<Freq>, levels: seq<nat>): (r: seq<Freq>)
    requires LevelBank(bank) && IsFrame(levels)
    ensures LevelBank(r)
  {
    BankAfter(bank, [levels])
  }

  /** One frame's levels, coded alone and read back alone. */
  lemma EnergyRoundTrip(bank: seq<Freq>, levels: seq<nat>)
    requires LevelBank(bank) && IsFrame(levels)
    ensures var bytes := Energy(bank, levels);
      ReadFrame(bytes, Boot(bytes), bank).values == levels &&
      ReadFrame(bytes, Boot(bytes), bank).bank == BankOf(bank, levels)
  {
    hide LevelBank;
    hide IsFrame;
    hide StreamBytes;
    hide BankAfter;
    hide ReadFrame;
    StreamRoundTrip(bank, [levels]);
    var bytes := Energy(bank, levels);
    var one := ReadFrame(bytes, Boot(bytes), bank);
    var all := ReadFrames(bytes, Boot(bytes), bank, 1);
    assert ReadFrames(bytes, one.registers, one.bank, 0) == FramesRead([], one.registers, one.bank);
    assert all.frames == [one.values] + [];
    assert all.frames[0] == one.values;
  }

  /**
   * Every frame the encoder returns makes a decoder holding the same models
   * read the levels that were chosen, recompute the plan the shapes were
   * written with, and end up with the models the encoder committed.
   */
  lemma FrameAgreement<P(!new)>(rules: Rules<P>, bank: seq<Freq>, input: Input<P>)
    requires LevelBank(bank) && Sound(rules, input) && EncodeFrame(rules, bank, input).Ok?
    ensures var e := EncodeFrame(rules, bank, input).value;
      DecodeFrame(rules, bank, e.frame) == Ok(Understood(e.levels, e.plan, BankOf(bank, e.levels)))
  {
    hide LevelBank;
    hide IsFrame;
    hide Commit;
    hide Energy;
    hide ReadFrame;
    hide BankOf;
    hide Wire.Keep;
    var e := EncodeFrame(rules, bank, input).value;
    var energy := Energy(bank, input.levels);
    var want := Left(rules, |energy|, input.shaping);
    var packed := input.pack(e.plan);
    var keep := Wire.Keep(Assemble(energy, packed.shapes, packed.refinements), input.budget, |packed.refinements|);
    CommitKeeps(rules, bank, e.plan, want, |energy|, input.refine(keep), input.levels, 0);
    var sent := Energy(bank, e.levels);
    assert |sent| == |energy|;
    assert e.frame.base[1..1 + |sent|] == sent;
    assert e.frame.base[1 + |sent|..] == packed.shapes;
    EnergyRoundTrip(bank, e.levels);
  }

  /** Nor does the wire between them change anything: only trailing empty refinements go missing. */
  lemma AgreementOverTheWire<P(!new)>(rules: Rules<P>, bank: seq<Freq>, input: Input<P>)
    requires LevelBank(bank) && Sound(rules, input) && EncodeFrame(rules, bank, input).Ok?
    requires Wire.Carriable(EncodeFrame(rules, bank, input).value.frame)
    ensures var e := EncodeFrame(rules, bank, input).value;
      var arrived := Wire.FromBytes(Wire.ToBytes(e.frame));
      arrived.Ok? &&
      DecodeFrame(rules, bank, arrived.value) == Ok(Understood(e.levels, e.plan, BankOf(bank, e.levels)))
  {
    hide LevelBank;
    hide EncodeFrame;
    hide Wire.FromBytes;
    hide Wire.ToBytes;
    hide Wire.Carriable;
    hide ReadFrame;
    FrameAgreement(rules, bank, input);
    Wire.WireRoundTrip(EncodeFrame(rules, bank, input).value.frame);
  }

  // --- whole calls ---

  datatype Call<P> = Call(levels: seq<seq<nat>>, plans: seq<P>, bank: seq<Freq>)

  /** What the encoder sends, frame by frame; a refused window sends nothing and changes nothing. */
  function Sent<P(==,!new)>(rules: Rules<P>, bank: seq<Freq>, inputs: seq<Input<P>>): (frames: seq<Wire.LayeredFrame>)
    requires LevelBank(bank) && forall i :: 0 <= i < |inputs| ==> Sound(rules, inputs[i])
    decreases |inputs|
  {
    if inputs == [] then []
    else
      var e := EncodeFrame(rules, bank, inputs[0]);
      if e.Err? then Sent(rules, bank, inputs[1..])
      else [e.value.frame] + Sent(rules, BankOf(bank, e.value.levels), inputs[1..])
  }

  /** What the encoder meant: the levels and plans of every frame it sent, and its models after. */
  function Meant<P(==,!new)>(rules: Rules<P>, bank: seq<Freq>, inputs: seq<Input<P>>): (c: Call<P>)
    requires LevelBank(bank) && forall i :: 0 <= i < |inputs| ==> Sound(rules, inputs[i])
    decreases |inputs|
  {
    if inputs == [] then Call([], [], bank)
    else
      var e := EncodeFrame(rules, bank, inputs[0]);
      if e.Err? then Meant(rules, bank, inputs[1..])
      else
        var rest := Meant(rules, BankOf(bank, e.value.levels), inputs[1..]);
        Call([e.value.levels] + rest.levels, [e.value.plan] + rest.plans, rest.bank)
  }

  /** What a decoder makes of frames that all arrive; none when one is malformed. */
  function Heard<P(==,!new)>(rules: Rules<P>, bank: seq<Freq>, frames: seq<Wire.LayeredFrame>): (c: Result<Call<P>>)
    requires LevelBank(bank)
    decreases |frames|
  {
    if frames == [] then Ok(Call([], [], bank))
    else
      var d := DecodeFrame(rules, bank, frames[0]);
      if d.Err? then Err(d.error)
      else
        var rest := Heard(rules, d.value.bank, frames[1..]);
        if rest.Err? then rest
        else Ok(Call([d.value.levels] + rest.value.levels, [d.value.plan] + rest.value.plans, rest.value.bank))
  }

  /** Over any loss-free call the decoder hears exactly what was meant, models included. */
  lemma {:induction false} CallAgreement<P(!new)>(rules: Rules<P>, bank: seq<Freq>, inputs: seq<Input<P>>)
    requires LevelBank(bank) && forall i :: 0 <= i < |inputs| ==> Sound(rules, inputs[i])
    ensures Heard(rules, bank, Sent(rules, bank, inputs)) == Ok(Meant(rules, bank, inputs))
    decreases |inputs|
  {
    hide LevelBank;
    hide Sound;
    hide EncodeFrame;
    hide DecodeFrame;
    hide BankOf;
    if inputs != [] {
      var e := EncodeFrame(rules, bank, inputs[0]);
      if e.Err? {
        CallAgreement(rules, bank, inputs[1..]);
      } else {
        FrameAgreement(rules, bank, inputs[0]);
        var next := BankOf(bank, e.value.levels);
        CallAgreement(rules, next, inputs[1..]);
        assert Sent(rules, bank, inputs)[1..] == Sent(rules, next, inputs[1..]);
      }
    }
  }
}

/** The layered encoder and decoder as objects, down to the trial streams and cloned models. */
module LayeredObjects {
  import opened Bytes
  import opened Common
  import opened ExactCoder
  import opened RangeCoding
  import opened AdaptiveModel
  import opened SymbolStream
  import opened LevelCoding
  import opened LevelModelObjects
  import opened Grouped
  import opened LayeredCodec
  import opened GroupedObjects
  import Wire

  class LayeredEncoder<P(==,!new)> {
    const rules: Rules<P>
    var models: LevelModels

    ghost predicate Valid()
      reads this, models.all
    {
      models.Valid()
    }

    constructor (rules: Rules<P>)
      ensures Valid() && this.rules == rules && models.Bank() == FreshBank()
      ensures fresh(models.all)
    {
      this.rules := rules;
      models := new LevelModels();
    }

    /** Code a candidate against a copy of the models, leaving the real ones alone. */
    method Try(levels: seq<nat>) returns (bytes: seq<Byte>, trial: LevelModels)
      requires Valid() && IsFrame(levels)
      ensures Valid() && models.Bank() == old(models.Bank())
      ensures bytes == Energy(models.Bank(), levels)
      ensures fresh(trial.all) && trial.Valid() && trial.Bank() == BankOf(models.Bank(), levels)
    {
      hide LevelBank;
      hide IsFrame;
      hide StreamBytes;
      hide BankAfter;
      hide LevelModels.Valid;
      hide LevelModels.Bank;
      trial := new LevelModels.Clone(models);
      OneFrame(levels);
      bytes := CodeLevels([levels], trial);
    }

    /**
     * Encode a frame that fits in the budget. The real models are advanced
     * once, at the end, by whichever levels are actually sent; a refusal leaves
     * them as they were.
     */
    method EncodeWithin(input: Input<P>) returns (r: Result<Wire.LayeredFrame>)
      requires Valid() && Sound(rules, input)
      modifies this
      ensures Valid()
      ensures var e := EncodeFrame(rules, old(models.Bank()), input);
        if e.Ok? then
          r == Ok(e.value.frame) && models.Bank() == BankOf(old(models.Bank()), e.value.levels) &&
          Built(rules, old(models.Bank()), input, e.value)
        else r == Err(e.error) && models.Bank() == old(models.Bank())
    {
      hide LevelBank;
      hide IsFrame;
      hide Energy;
      hide BankOf;
      hide Built;
      hide Settled;
      hide Wire.Keep;
      hide Wire.AsManyAsFit;
      hide LevelModels.Valid;
      hide LevelModels.Bank;
      FrameIsBuilt(rules, models.Bank(), input);
      if input.length != WINDOW {
        return Err(WrongFrameSize(input.length));
      }
      var energy, trial := Try(input.levels);
      if |energy| > 255 {
        return Err(Malformed);
      }
      var want := Left(rules, |energy|, input.shaping);
      var plan := rules.plan(input.levels, want);
      var packed := input.pack(plan);
      var trimmed := Wire.Within(Assemble(energy, packed.shapes, packed.refinements), input.budget);
      var keep := |trimmed.refinements|;
      var refined := input.refine(keep);

      var chosen, bytes, committed := CommitLevels(plan, want, input.levels, refined, energy, trial);
      CommitKeeps(rules, models.Bank(), plan, want, |energy|, refined, input.levels, 0);
      models := committed;
      r := Ok(Assemble(bytes, packed.shapes, packed.refinements[..keep]));
    }

    /** Move one band at a time, keeping only the moves the decoder will follow. */
    method CommitLevels(plan: P, want: nat, levels: seq<nat>, refined: seq<nat>, energy: seq<Byte>, trial: LevelModels)
      returns (chosen: seq<nat>, bytes: seq<Byte>, committed: LevelModels)
      requires Valid() && IsFrame(levels) && IsFrame(refined)
      requires energy == Energy(models.Bank(), levels)
      requires trial.Valid() && trial.Bank() == BankOf(models.Bank(), levels)
      ensures Valid() && models.Bank() == old(models.Bank())
      ensures chosen == Commit(rules, models.Bank(), plan, want, |energy|, refined, levels, 0)
      ensures plan == rules.plan(levels, want) ==> IsFrame(chosen) && Settled(rules, models.Bank(), want, refined, levels, chosen)
      ensures IsFrame(chosen) && bytes == Energy(models.Bank(), chosen)
      ensures committed.Valid() && committed.Bank() == BankOf(models.Bank(), chosen)
    {
      hide LevelBank;
      hide Energy;
      hide BankOf;
      hide LevelModels.Shape;
      hide LevelModels.Bank;
      hide Settled;
      CommitSettles(rules, models.Bank(), want, refined, levels);
      chosen, bytes, committed := levels, energy, trial;
      ghost var whole := Commit(rules, models.Bank(), plan, want, |energy|, refined, levels, 0);
      for b := 0 to BANDS
        invariant Valid() && models.Bank() == old(models.Bank()) && IsFrame(chosen)
        invariant whole == Commit(rules, models.Bank(), plan, want, |energy|, refined, chosen, b)
        invariant bytes == Energy(models.Bank(), chosen)
        invariant committed.Valid() && committed.Bank() == BankOf(models.Bank(), chosen)
      {
        if refined[b] != chosen[b] {
          var candidate := chosen[b := refined[b]];
          var coded, tried := Try(candidate);
          if |coded| == |energy| && rules.plan(candidate, want) == plan {
            chosen, bytes, committed := candidate, coded, tried;
          }
        }
      }
    }
  }

  lemma OneFrame(levels: seq<nat>)
    requires IsFrame(levels)
    ensures AreFrames([levels])
  {
  }

  class LayeredDecoder<P(==,!new)> {
    const rules: Rules<P>
    const models: LevelModels

    constructor (rules: Rules<P>)
      ensures models.Valid() && this.rules == rules && models.Bank() == FreshBank()
      ensures fresh(models.all)
    {
      this.rules := rules;
      models := new LevelModels();
    }

    /** Read a frame's levels and recompute its plan. A frame too short for its own header is refused. */
    method Decode(frame: Wire.LayeredFrame) returns (r: Result<(seq<nat>, P)>)
      requires models.Valid()
      modifies models.all
      ensures models.Valid()
      ensures var u := DecodeFrame(rules, old(models.Bank()), frame);
        if u.Ok? then r == Ok((u.value.levels, u.value.plan)) && models.Bank() == u.value.bank
        else r == Err(u.error) && models.Bank() == old(models.Bank())
    {
      hide LevelBank;
      hide ReadFrame;
      hide Boot;
      hide Left;
      hide LevelModels.Shape;
      hide LevelModels.Bank;
      if |frame.base| == 0 {
        return Err(Malformed);
      }
      var length := frame.base[0];
      if |frame.base| - 1 < length {
        return Err(Malformed);
      }
      var energy, shapes := frame.base[1..1 + length], frame.base[1 + length..];
      var stream := new RangeDecoder(energy);
      var levels := ReadLevels(stream, models);
      var plan := rules.plan(levels, Left(rules, length, rules.shaping(shapes)));
      r := Ok((levels, plan));
    }
  }
}
