/**
 * The grouped encoder and decoder as objects. They carry their models from
 * group to group and are proved against the functions of `Grouped`: what is
 * pending and what has been emitted is all there is to their state. The shape
 * half of a frame passes through them untouched.
 */
module GroupedObjects {
  import opened Bytes
  import opened Common
  import opened ExactCoder
  import opened RangeCoding
  import opened AdaptiveModel
  import opened SymbolStream
  import opened LevelCoding
  import opened LevelModelObjects
  import opened Grouped

  /** Accumulates frames and emits a group when it has enough. */
  class GroupedEncoder<S> {
    const models: LevelModels
    var pendingLevels: seq<seq<nat>>
    var pendingFrames: seq<S>

    ghost function State(): (g: Grouping<S>)
      reads this, models.all
      requires |pendingLevels| == |pendingFrames|
      ensures LevelsOf(g.pending) == pendingLevels && ShapesOf(g.pending) == pendingFrames
    {
      var items := seq(|pendingLevels|, i reads this requires 0 <= i < |pendingLevels| && |pendingLevels| == |pendingFrames| =>
                         Item(pendingLevels[i], pendingFrames[i]));
      assert LevelsOf(items) == pendingLevels && ShapesOf(items) == pendingFrames;
      Grouping(models.Bank(), items)
    }

    ghost predicate Valid()
      reads this, models.all
    {
      models.Valid() && |pendingLevels| == |pendingFrames| && State().Valid()
    }

    constructor ()
      ensures Valid() && State() == Grouping(FreshBank(), [])
      ensures fresh(models.all)
    {
      models := new LevelModels();
      pendingLevels, pendingFrames := [], [];
    }

    /**
     * Add one window of `length` samples, whose levels and shapes the shape
     * coder has produced. A window of the wrong size is refused and changes
     * nothing.
     */
    method Push(length: nat, levels: seq<nat>, shape: S) returns (r: Result<Option<Group<S>>>)
      requires Valid() && IsFrame(levels)
      modifies this, models.all
      ensures Valid()
      ensures length != 1920 ==> r == Err(WrongFrameSize(length)) && State() == old(State())
      ensures length == 1920 ==>
        r == Ok(PushItem(old(State()), Item(levels, shape)).group) &&
        State() == PushItem(old(State()), Item(levels, shape)).state
    {
      if length != WINDOW {
        return Err(WrongFrameSize(length));
      }
      ghost var before := State();
      WholeFrames(before, Item(levels, shape));
      pendingLevels := pendingLevels + [levels];
      pendingFrames := pendingFrames + [shape];
      assert State().pending == before.pending + [Item(levels, shape)];
      if |pendingLevels| < GROUP {
        return Ok(None);
      }
      var group := Flush();
      return Ok(Some(group));
    }

    /** Emit whatever has accumulated, however little. */
    method Finish() returns (group: Option<Group<S>>)
      requires Valid()
      modifies this, models.all
      ensures Valid() && State().pending == []
      ensures group == if old(State()).pending == [] then None
                       else Some(GroupOf(old(State()).bank, old(State()).pending))
    {
      if |pendingLevels| == 0 {
        group := None;
      } else {
        var g := Flush();
        group := Some(g);
      }
    }

    method Flush() returns (group: Group<S>)
      requires models.Valid() && |pendingLevels| == |pendingFrames| && AreFrames(pendingLevels)
      modifies this, models.all
      ensures Valid()
      ensures group == GroupOf(old(models.Bank()), old(State()).pending)
      ensures State() == Grouping(BankAfter(old(models.Bank()), old(pendingLevels)), [])
    {
      hide GroupOf;
      hide StreamBytes;
      hide BankAfter;
      hide LevelBank;
      hide IsFrame;
      hide LevelModels.Shape;
      hide LevelModels.Bank;
      GroupIs(models.Bank(), State().pending);
      var energies := CodeLevels(pendingLevels, models);
      group := Group(energies, pendingFrames);
      pendingLevels, pendingFrames := [], [];
    }
  }

  lemma GroupIs<S>(bank: seq<Freq>, items: seq<Item<S>>)
    requires LevelBank(bank) && AreFrames(LevelsOf(items))
    ensures GroupOf(bank, items) == Group(StreamBytes(bank, LevelsOf(items)), ShapesOf(items))
  {
  }

  /** One fresh stream, every frame, flushed once. */
  method CodeLevels(list: seq<seq<nat>>, models: LevelModels) returns (energies: seq<Byte>)
    requires models.Valid() && AreFrames(list)
    modifies models.all
    ensures models.Valid()
    ensures energies == StreamBytes(old(models.Bank()), list)
    ensures models.Bank() == BankAfter(old(models.Bank()), list)
  {
    hide StreamBytes;
    hide BankAfter;
    hide LevelBank;
    hide AreFrames;
    hide BytesOf;
    hide Start;
    hide RangeEncoder.Valid;
    hide RangeEncoder.Abs;
    hide LevelModels.Valid;
    hide LevelModels.Bank;
    var stream := new RangeEncoder();
    WriteAll(stream, list, models);
    energies := stream.Finish();
  }

  /** The stream at `e` and the models at `bank` are what writing `done` leaves. */
  ghost predicate Written(bank0: seq<Freq>, done: seq<seq<nat>>, e: Exact, bank: seq<Freq>) {
    LevelBank(bank0) && ValidBank(bank0) && AreFrames(done) && AllFit(bank0, Scripts(done)) &&
    e == Stream(Start(), bank0, Scripts(done)) && bank == After(bank0, Scripts(done))
  }

  lemma WrittenNext(bank0: seq<Freq>, done: seq<seq<nat>>, e: Exact, bank: seq<Freq>, levels: seq<nat>)
    requires Written(bank0, done, e, bank) && IsFrame(levels)
    ensures LevelBank(bank) && ValidBank(bank) && AllFit(bank, Script(levels)) && e.Ready()
    ensures Written(bank0, done + [levels], Stream(e, bank, Script(levels)), After(bank, Script(levels)))
  {
    hide IsFrame;
    hide Script;
    hide LevelBank;
    ScriptsFit(bank0, done);
    ScriptFits(bank, levels);
    LevelBankValid(bank);
    ScriptsAppend(done, levels);
    StreamAppend(Start(), bank0, Scripts(done), Script(levels));
  }

  lemma FrameAt(list: seq<seq<nat>>, i: nat)
    requires AreFrames(list) && i < |list|
    ensures IsFrame(list[i])
  {
  }

  lemma WrittenNone(bank: seq<Freq>)
    requires LevelBank(bank)
    ensures Written(bank, [], Start(), bank)
  {
    LevelBankValid(bank);
  }

  lemma WrittenBytes(bank0: seq<Freq>, done: seq<seq<nat>>, e: Exact, bank: seq<Freq>)
    requires Written(bank0, done, e, bank) && e.Ready()
    ensures BytesOf(e) == StreamBytes(bank0, done) && bank == BankAfter(bank0, done)
  {
  }

  method WriteAll(stream: RangeEncoder, list: seq<seq<nat>>, models: LevelModels)
    requires stream.Valid() && stream.Abs() == Start() && models.Valid() && AreFrames(list)
    modifies stream, models.all
    ensures stream.Valid() && models.Valid()
    ensures BytesOf(stream.Abs()) == StreamBytes(old(models.Bank()), list)
    ensures models.Bank() == BankAfter(old(models.Bank()), list)
  {
    hide *;
    ghost var bank0 := models.Bank();
    WrittenNone(bank0);
    for i := 0 to |list|
      invariant stream.Valid() && models.Valid()
      invariant Written(bank0, list[..i], stream.Abs(), models.Bank())
    {
      FrameAt(list, i);
      WrittenNext(bank0, list[..i], stream.Abs(), models.Bank(), list[i]);
      WriteLevels(stream, list[i], models);
      assert list[..i + 1] == list[..i] + [list[i]];
    }
    assert list[..|list|] == list;
    WrittenBytes(bank0, list, stream.Abs(), models.Bank());
  }

  /** Where the group decoder stands: what it has read, and the `left` frames still to read. */
  ghost predicate ReadSoFar(input: seq<Byte>, whole: FramesRead, d: Registers, bank: seq<Freq>,
                            out: seq<seq<nat>>, left: nat) {
    Readable(d, bank) &&
    var rest := ReadFrames(input, d, bank, left);
    whole == FramesRead(out + rest.frames, rest.registers, rest.bank)
  }

  lemma ReadSoFarNext(input: seq<Byte>, whole: FramesRead, d: Registers, bank: seq<Freq>, out: seq<seq<nat>>, left: nat)
    requires ReadSoFar(input, whole, d, bank, out, left) && left > 0
    ensures Readable(d, bank)
    ensures var one := ReadFrame(input, d, bank);
      ReadSoFar(input, whole, one.registers, one.bank, out + [one.values], left - 1)
  {
    hide ReadFrame;
    hide LevelBank;
    hide IsFrame;
    var one := ReadFrame(input, d, bank);
    Assoc(out, [one.values], ReadFrames(input, one.registers, one.bank, left - 1).frames);
  }

  /** The level half of the group decoder. */
  class GroupedDecoder<S> {
    const models: LevelModels

    constructor ()
      ensures models.Valid() && models.Bank() == FreshBank()
      ensures fresh(models.all)
    {
      models := new LevelModels();
    }

    /** Refuses a group whose level stream never arrived; otherwise reads every frame's levels. */
    method Decode(group: Group<S>) returns (r: Result<seq<seq<nat>>>)
      requires models.Valid()
      modifies models.all
      ensures models.Valid()
      ensures group.energies == [] && group.frames != [] ==> r == Err(Malformed) && models.Bank() == old(models.Bank())
      ensures !(group.energies == [] && group.frames != []) ==>
        var read := ReadFrames(group.energies, Boot(group.energies), old(models.Bank()), |group.frames|);
        r == Ok(read.frames) && models.Bank() == read.bank
    {
      hide LevelModels.Shape;
      hide ReadFrame;
      hide LevelBank;
      if |group.energies| == 0 && |group.frames| != 0 {
        return Err(Malformed);
      }
      var stream := new RangeDecoder(group.energies);
      r := ReadAll(stream, |group.frames|);
    }

    method ReadAll(stream: RangeDecoder, n: nat) returns (r: Result<seq<seq<nat>>>)
      requires stream.Valid() && models.Valid()
      modifies stream, models.all
      ensures models.Valid()
      ensures var read := ReadFrames(stream.input, old(stream.State()), old(models.Bank()), n);
        r == Ok(read.frames) && models.Bank() == read.bank
    {
      hide ReadFrame;
      hide LevelBank;
      hide IsFrame;
      ghost var d, bank := stream.State(), models.Bank();
      ghost var whole := ReadFrames(stream.input, d, bank, n);
      var out := [];
      for i := 0 to n
        invariant stream.Valid() && models.Valid()
        invariant d == stream.State() && bank == models.Bank()
        invariant ReadSoFar(stream.input, whole, d, bank, out, n - i)
      {
        hide ReadSoFar;
        ReadSoFarNext(stream.input, whole, d, bank, out, n - i);
        var levels := ReadLevels(stream, models);
        out := out + [levels];
        d, bank := stream.State(), models.Bank();
      }
      assert out + [] == out;
      r := Ok(out);
    }
  }

  /** Where playing a recording stands: the levels so far, and the groups still to come. */
  ghost predicate PlayedSoFar<S>(whole: seq<seq<nat>>, bank: seq<Freq>, out: seq<seq<nat>>, rest: seq<Group<S>>) {
    LevelBank(bank) && whole == out + Play(bank, rest).levels
  }

  lemma PlayedNext<S>(whole: seq<seq<nat>>, bank: seq<Freq>, out: seq<seq<nat>>, rest: seq<Group<S>>)
    requires PlayedSoFar(whole, bank, out, rest) && rest != []
    ensures Readable(Boot(rest[0].energies), bank)
    ensures var read := ReadFrames(rest[0].energies, Boot(rest[0].energies), bank, |rest[0].frames|);
      PlayedSoFar(whole, read.bank, out + read.frames, rest[1..])
  {
    hide Boot;
    hide LevelBank;
    var read := ReadFrames(rest[0].energies, Boot(rest[0].energies), bank, |rest[0].frames|);
    Assoc(out, read.frames, Play(read.bank, rest[1..]).levels);
  }

  lemma PlayedAll<S>(whole: seq<seq<nat>>, bank: seq<Freq>, out: seq<seq<nat>>, rest: seq<Group<S>>)
    requires PlayedSoFar(whole, bank, out, rest) && rest == []
    ensures whole == out
  {
  }

  lemma PlayStarts<S>(items: seq<Item<S>>)
    requires AreFrames(LevelsOf(items))
    ensures PlayedSoFar(LevelsOf(items), FreshBank(), [], Record(items)) && AllHeard(Record(items))
  {
    hide LevelBank;
    hide Play;
    RecordingRoundTrip(items);
    RecordingHeard(items);
    assert [] + Play(FreshBank(), Record(items)).levels == Play(FreshBank(), Record(items)).levels;
  }

  lemma NotRefused<S>(groups: seq<Group<S>>, i: nat)
    requires AllHeard(groups) && i < |groups|
    ensures !(groups[i].energies == [] && groups[i].frames != [])
    ensures groups[i..] != [] && groups[i..][0] == groups[i] && groups[i..][1..] == groups[i + 1..]
  {
  }

  /** A decoder object given the groups of a recording refuses none of them, and recovers every level. */
  method PlayRecording<S(!new)>(decoder: GroupedDecoder<S>, ghost items: seq<Item<S>>, groups: seq<Group<S>>)
    returns (levels: seq<seq<nat>>)
    requires decoder.models.Valid() && decoder.models.Bank() == FreshBank()
    requires AreFrames(LevelsOf(items)) && groups == Record(items)
    modifies decoder.models.all
    ensures decoder.models.Valid()
    ensures levels == LevelsOf(items)
  {
    hide LevelModels.Shape;
    hide LevelBank;
    hide PlayedSoFar;
    hide AllHeard;
    hide Record;
    hide Boot;
    hide ReadFrames;
    hide AreFrames;
    PlayStarts(items);
    levels := [];
    assert groups[0..] == groups;
    for i := 0 to |groups|
      invariant decoder.models.Valid()
      invariant PlayedSoFar(LevelsOf(items), decoder.models.Bank(), levels, groups[i..])
    {
      NotRefused(groups, i);
      PlayedNext(LevelsOf(items), decoder.models.Bank(), levels, groups[i..]);
      var r := decoder.Decode(groups[i]);
      assert r.Ok?;
      levels := levels + r.value;
    }
    PlayedAll(LevelsOf(items), decoder.models.Bank(), levels, groups[|groups|..]);
  }
}
