/** Several frames' levels in one arithmetic stream, with the models carried from group to group. */
module Grouped {
  import opened Bytes
  import opened Common
  import opened ExactCoder
  import opened RangeCoding
  import opened AdaptiveModel
  import opened SymbolStream
  import opened LevelCoding
  import opened LevelModelObjects

  const GROUP := 10

  datatype Group<S> = Group(energies: seq<Byte>, frames: seq<S>)

  // --- many frames in one stream ---

  ghost predicate AreFrames(list: seq<seq<nat>>) {
    forall i :: 0 <= i < |list| ==> IsFrame(list[i])
  }

  function Scripts(list: seq<seq<nat>>): (cs: seq<Coded>)
    requires AreFrames(list)
  {
    if |list| == 0 then [] else Scripts(list[..|list| - 1]) + Script(list[|list| - 1])
  }

  lemma ScriptsAppend(list: seq<seq<nat>>, levels: seq<nat>)
    requires AreFrames(list) && IsFrame(levels)
    ensures Scripts(list + [levels]) == Scripts(list) + Script(levels)
  {
    assert (list + [levels])[..|list|] == list;
  }

  lemma {:induction false} ScriptsPrepend(levels: seq<nat>, list: seq<seq<nat>>)
    requires AreFrames(list) && IsFrame(levels)
    ensures Scripts([levels] + list) == Script(levels) + Scripts(list)
  {
    hide Script;
    if list == [] {
      assert [levels] + list == [] + [levels];
      ScriptsAppend([], levels);
    } else {
      var front, last := list[..|list| - 1], list[|list| - 1];
      ScriptsPrepend(levels, front);
      assert [levels] + list == ([levels] + front) + [last];
      ScriptsAppend([levels] + front, last);
    }
  }

  lemma {:induction false} ScriptsFit(bank: seq<Freq>, list: seq<seq<nat>>)
    requires LevelBank(bank) && AreFrames(list)
    ensures AllFit(bank, Scripts(list)) && LevelBank(After(bank, Scripts(list)))
  {
    hide LevelBank;
    hide Script;
    hide IsFrame;
    if list != [] {
      var front := list[..|list| - 1];
      ScriptsFit(bank, front);
      ScriptFits(After(bank, Scripts(front)), list[|list| - 1]);
      AfterAppend(bank, Scripts(front), Script(list[|list| - 1]));
    }
  }

  lemma LevelBankValid(bank: seq<Freq>)
    requires LevelBank(bank)
    ensures ValidBank(bank)
  {
  }

  /** The bytes of one stream holding every frame of `list`, coded from `bank`. */
  function StreamBytes(bank: seq<Freq>, list: seq<seq<nat>>): (bytes: seq<Byte>)
    requires LevelBank(bank) && AreFrames(list)
    ensures |bytes| >= 4
  {
    ScriptsFit(bank, list);
    LevelBankValid(bank);
    BytesOf(Stream(Start(), bank, Scripts(list)))
  }

  /** The models after the frames of `list`. */
  function BankAfter(bank: seq<Freq>, list: seq<seq<nat>>): (r: seq<Freq>)
    requires LevelBank(bank) && AreFrames(list)
    ensures LevelBank(r)
  {
    ScriptsFit(bank, list);
    After(bank, Scripts(list))
  }

  datatype FramesRead = FramesRead(frames: seq<seq<nat>>, registers: Registers, bank: seq<Freq>)

  function ReadFrames(input: seq<Byte>, d: Registers, bank: seq<Freq>, n: nat): (r: FramesRead)
    requires Readable(d, bank)
    ensures |r.frames| == n && AreFrames(r.frames) && Readable(r.registers, r.bank)
    decreases n
  {
    hide LevelBank;
    if n == 0 then FramesRead([], d, bank)
    else
      var one := ReadFrame(input, d, bank);
      hide IsFrame;
      var rest := ReadFrames(input, one.registers, one.bank, n - 1);
      FramesRead([one.values] + rest.frames, rest.registers, rest.bank)
  }

  lemma {:induction false} ReadsFrames(bytes: seq<Byte>, d: Registers, bank: seq<Freq>, list: seq<seq<nat>>)
    requires LevelBank(bank) && AreFrames(list) && WillRead(bytes, d, bank, Scripts(list))
    ensures Readable(d, bank)
    ensures ReadFrames(bytes, d, bank, |list|).frames == list
    ensures ReadFrames(bytes, d, bank, |list|).bank == BankAfter(bank, list)
    decreases |list|
  {
    hide WillRead;
    hide LevelBank;
    hide IsFrame;
    hide Script;
    hide ReadFrame;
    WillReadReady(bytes, d, bank, Scripts(list));
    if list == [] {
      ScriptsFit(bank, list);
    } else {
      var rest := list[1..];
      assert list == [list[0]] + rest;
      ScriptsPrepend(list[0], rest);
      ReadsFrame(bytes, d, bank, list[0], Scripts(rest));
      ScriptFits(bank, list[0]);
      var one := ReadFrame(bytes, d, bank);
      ReadsFrames(bytes, one.registers, one.bank, rest);
      ScriptsFit(one.bank, rest);
      AfterAppend(bank, Script(list[0]), Scripts(rest));
    }
  }

  /** One stream, decoded from the models it was coded from: every frame, and the same models after. */
  lemma StreamRoundTrip(bank: seq<Freq>, list: seq<seq<nat>>)
    requires LevelBank(bank) && AreFrames(list)
    ensures var bytes := StreamBytes(bank, list);
      var r := ReadFrames(bytes, Boot(bytes), bank, |list|);
      r.frames == list && r.bank == BankAfter(bank, list)
  {
    hide WillRead;
    hide ReadFrames;
    ScriptsFit(bank, list);
    LevelBankValid(bank);
    FreshDecoderWillRead(bank, Scripts(list));
    var bytes := StreamBytes(bank, list);
    ReadsFrames(bytes, Boot(bytes), bank, list);
  }

  // --- the grouping, on values ---

  /** One frame as pushed: its levels, and its independently coded shapes. */
  datatype Item<S> = Item(levels: seq<nat>, shape: S)

  function LevelsOf<S>(items: seq<Item<S>>): (r: seq<seq<nat>>)
    ensures |r| == |items| && forall i :: 0 <= i < |r| ==> r[i] == items[i].levels
  {
    seq(|items|, i requires 0 <= i < |items| => items[i].levels)
  }

  function ShapesOf<S>(items: seq<Item<S>>): (r: seq<S>)
    ensures |r| == |items| && forall i :: 0 <= i < |r| ==> r[i] == items[i].shape
  {
    seq(|items|, i requires 0 <= i < |items| => items[i].shape)
  }

  datatype Grouping<S> = Grouping(bank: seq<Freq>, pending: seq<Item<S>>) {
    ghost predicate Valid() {
      LevelBank(bank) && AreFrames(LevelsOf(pending)) && |pending| < GROUP
    }
  }

  function GroupOf<S>(bank: seq<Freq>, items: seq<Item<S>>): Group<S>
    requires LevelBank(bank) && AreFrames(LevelsOf(items))
  {
    Group(StreamBytes(bank, LevelsOf(items)), ShapesOf(items))
  }

  datatype Pushed<S> = Pushed(state: Grouping<S>, group: Option<Group<S>>)

  function PushItem<S>(g: Grouping<S>, item: Item<S>): (r: Pushed<S>)
    requires g.Valid() && IsFrame(item.levels)
    ensures r.state.Valid()
  {
    var items := g.pending + [item];
    WholeFrames(g, item);
    if |items| < GROUP then Pushed(Grouping(g.bank, items), None)
    else Pushed(Grouping(BankAfter(g.bank, LevelsOf(items)), []), Some(GroupOf(g.bank, items)))
  }

  datatype Recording<S> = Recording(groups: seq<Group<S>>, state: Grouping<S>)

  /** Every push of a recording, in order. */
  function PushItems<S>(g: Grouping<S>, items: seq<Item<S>>): (r: Recording<S>)
    requires g.Valid() && AreFrames(LevelsOf(items))
    ensures r.state.Valid()
    decreases |items|
  {
    if items == [] then Recording([], g)
    else
      assert IsFrame(LevelsOf(items)[0]);
      TailFrames(items);
      var p := PushItem(g, items[0]);
      var rest := PushItems(p.state, items[1..]);
      Recording((if p.group.Some? then [p.group.value] else []) + rest.groups, rest.state)
  }

  lemma TailFrames<S>(items: seq<Item<S>>)
    requires AreFrames(LevelsOf(items)) && items != []
    ensures AreFrames(LevelsOf(items[1..]))
  {
    forall i | 0 <= i < |items| - 1 ensures IsFrame(LevelsOf(items[1..])[i]) {
      assert IsFrame(LevelsOf(items)[i + 1]);
    }
  }

  /** A whole recording: the pushes, and `finish` for whatever is left. */
  function Record<S>(items: seq<Item<S>>): (groups: seq<Group<S>>)
    requires AreFrames(LevelsOf(items))
  {
    var r := PushItems(Grouping(FreshBank(), []), items);
    if r.state.pending == [] then r.groups
    else r.groups + [GroupOf(r.state.bank, r.state.pending)]
  }

  function Frames<S>(groups: seq<Group<S>>): seq<S> {
    if groups == [] then [] else groups[0].frames + Frames(groups[1..])
  }

  datatype Played = Played(levels: seq<seq<nat>>, bank: seq<Freq>)

  /** The level half of the grouped decoder, over a whole recording. */
  function Play<S>(bank: seq<Freq>, groups: seq<Group<S>>): (r: Played)
    requires LevelBank(bank)
    ensures LevelBank(r.bank)
    decreases |groups|
  {
    if groups == [] then Played([], bank)
    else
      var one := ReadFrames(groups[0].energies, Boot(groups[0].energies), bank, |groups[0].frames|);
      var rest := Play(one.bank, groups[1..]);
      Played(one.frames + rest.levels, rest.bank)
  }

  lemma PlaysGroup<S>(bank: seq<Freq>, items: seq<Item<S>>, rest: seq<Group<S>>)
    requires LevelBank(bank) && AreFrames(LevelsOf(items))
    ensures LevelBank(BankAfter(bank, LevelsOf(items)))
    ensures var after := BankAfter(bank, LevelsOf(items));
      Play(bank, [GroupOf(bank, items)] + rest)
        == Played(LevelsOf(items) + Play(after, rest).levels, Play(after, rest).bank)
  {
    hide ReadFrames;
    hide StreamBytes;
    hide BankAfter;
    hide LevelBank;
    StreamRoundTrip(bank, LevelsOf(items));
    assert ([GroupOf(bank, items)] + rest)[1..] == rest;
  }

  /** One push, then the rest of them: what is out and what is held, end to end. */
  lemma Chain<T>(emitted: seq<T>, held: seq<T>, before: seq<T>, item: T, out: seq<T>, left: seq<T>, items: seq<T>)
    requires emitted + held == before + [item] && out + left == held + items
    ensures (emitted + out) + left == before + ([item] + items)
  {
    Assoc(emitted, out, left);
    Assoc(emitted, held, items);
    Assoc(before, [item], items);
  }

  function Emitted<S>(p: Pushed<S>): seq<Group<S>> {
    if p.group.Some? then [p.group.value] else []
  }

  /** The first push of several, and the rest. */
  lemma PushesOpen<S>(g: Grouping<S>, items: seq<Item<S>>)
    requires g.Valid() && AreFrames(LevelsOf(items)) && items != []
    ensures IsFrame(items[0].levels) && AreFrames(LevelsOf(items[1..]))
    ensures var p := PushItem(g, items[0]);
      var rest := PushItems(p.state, items[1..]);
      PushItems(g, items) == Recording(Emitted(p) + rest.groups, rest.state)
    ensures ShapesOf(items) == [items[0].shape] + ShapesOf(items[1..])
    ensures LevelsOf(items) == [items[0].levels] + LevelsOf(items[1..])
  {
    hide LevelBank;
    hide IsFrame;
    hide PushItem;
    hide LevelsOf;
    hide ShapesOf;
    hide AreFrames;
    FirstFrame(items);
    TailFrames(items);
    FirstShape(items);
  }

  lemma FirstFrame<S>(items: seq<Item<S>>)
    requires AreFrames(LevelsOf(items)) && items != []
    ensures IsFrame(items[0].levels) && LevelsOf(items) == [items[0].levels] + LevelsOf(items[1..])
  {
    hide IsFrame;
    assert IsFrame(LevelsOf(items)[0]);
  }

  lemma FirstShape<S>(items: seq<Item<S>>)
    requires items != []
    ensures ShapesOf(items) == [items[0].shape] + ShapesOf(items[1..])
  {
  }

  lemma NothingPushed<S>(g: Grouping<S>)
    requires g.Valid()
    ensures PushItems(g, []) == Recording([], g)
    ensures ShapesOf<S>([]) == [] && LevelsOf<S>([]) == []
  {
    hide LevelBank;
    hide IsFrame;
  }

  lemma PushKeepsOrder<S>(g: Grouping<S>, item: Item<S>)
    requires g.Valid() && IsFrame(item.levels)
    ensures var p := PushItem(g, item);
      Frames(Emitted(p)) + ShapesOf(p.state.pending) == ShapesOf(g.pending) + [item.shape] &&
      (p.group.Some? ==> |p.group.value.frames| == GROUP)
  {
    hide LevelBank;
    hide IsFrame;
    hide StreamBytes;
    hide BankAfter;
    var p := PushItem(g, item);
    assert ShapesOf(g.pending + [item]) == ShapesOf(g.pending) + [item.shape];
    if p.group.Some? {
      assert Frames([p.group.value]) == p.group.value.frames;
    }
  }

  /** What the groups of a recording hold, and what it leaves pending, is what there was and what was pushed. */
  ghost predicate OrderKept<S>(pending: seq<Item<S>>, items: seq<Item<S>>, r: Recording<S>) {
    Frames(r.groups) + ShapesOf(r.state.pending) == ShapesOf(pending) + ShapesOf(items) &&
    forall i :: 0 <= i < |r.groups| ==> |r.groups[i].frames| == GROUP
  }

  lemma OrderStep<S>(pending: seq<Item<S>>, items: seq<Item<S>>, p: Pushed<S>, rest: Recording<S>)
    requires items != [] && ShapesOf(items) == [items[0].shape] + ShapesOf(items[1..])
    requires Frames(Emitted(p)) + ShapesOf(p.state.pending) == ShapesOf(pending) + [items[0].shape]
    requires p.group.Some? ==> |p.group.value.frames| == GROUP
    requires OrderKept(p.state.pending, items[1..], rest)
    ensures OrderKept(pending, items, Recording(Emitted(p) + rest.groups, rest.state))
  {
    hide ShapesOf;
    hide Frames;
    FramesAppend(Emitted(p), rest.groups);
    Chain(Frames(Emitted(p)), ShapesOf(p.state.pending), ShapesOf(pending), items[0].shape,
          Frames(rest.groups), ShapesOf(rest.state.pending), ShapesOf(items[1..]));
  }

  /** What the groups emitted so far hold, and what is still pending, is what was pushed. */
  lemma {:induction false} PushesKeepOrder<S>(g: Grouping<S>, items: seq<Item<S>>)
    requires g.Valid() && AreFrames(LevelsOf(items))
    ensures OrderKept(g.pending, items, PushItems(g, items))
    decreases |items|
  {
    hide LevelBank;
    hide IsFrame;
    hide PushItem;
    hide PushItems;
    hide AreFrames;
    hide LevelsOf;
    if items != [] {
      hide OrderKept;
      hide Emitted;
      PushesOpen(g, items);
      PushKeepsOrder(g, items[0]);
      var p := PushItem(g, items[0]);
      PushesKeepOrder(p.state, items[1..]);
      OrderStep(g.pending, items, p, PushItems(p.state, items[1..]));
    } else {
      NothingPushed(g);
    }
  }

  /** Decoding the groups of a recording yields the levels pushed, and the encoder's own models. */
  ghost predicate PlayedBack<S>(g: Grouping<S>, items: seq<Item<S>>, r: Recording<S>)
    requires LevelBank(g.bank)
  {
    Play(g.bank, r.groups).bank == r.state.bank &&
    Play(g.bank, r.groups).levels + LevelsOf(r.state.pending) == LevelsOf(g.pending) + LevelsOf(items)
  }

  lemma PlayStep<S>(g: Grouping<S>, items: seq<Item<S>>, p: Pushed<S>, rest: Recording<S>)
    requires LevelBank(g.bank) && LevelBank(p.state.bank)
    requires items != [] && LevelsOf(items) == [items[0].levels] + LevelsOf(items[1..])
    requires Play(g.bank, Emitted(p)).bank == p.state.bank
    requires Play(g.bank, Emitted(p)).levels + LevelsOf(p.state.pending) == LevelsOf(g.pending) + [items[0].levels]
    requires PlayedBack(p.state, items[1..], rest)
    ensures PlayedBack(g, items, Recording(Emitted(p) + rest.groups, rest.state))
  {
    hide LevelsOf;
    hide Play;
    hide LevelBank;
    PlayAppend(g.bank, Emitted(p), rest.groups);
    Chain(Play(g.bank, Emitted(p)).levels, LevelsOf(p.state.pending), LevelsOf(g.pending), items[0].levels,
          Play(p.state.bank, rest.groups).levels, LevelsOf(rest.state.pending), LevelsOf(items[1..]));
  }

  /** Decoding the groups emitted so far yields the levels pushed, and the encoder's own models. */
  lemma {:induction false} PushesPlayBack<S>(g: Grouping<S>, items: seq<Item<S>>)
    requires g.Valid() && AreFrames(LevelsOf(items))
    ensures PlayedBack(g, items, PushItems(g, items))
    decreases |items|
  {
    hide LevelBank;
    hide IsFrame;
    hide PushItem;
    hide PushItems;
    hide AreFrames;
    hide LevelsOf;
    if items != [] {
      hide PlayedBack;
      hide Emitted;
      hide Play;
      PushesOpen(g, items);
      PushPlaysBack(g, items[0]);
      var p := PushItem(g, items[0]);
      PushesPlayBack(p.state, items[1..]);
      PlayStep(g, items, p, PushItems(p.state, items[1..]));
    } else {
      NothingPushed(g);
    }
  }

  lemma PushPlaysBack<S>(g: Grouping<S>, item: Item<S>)
    requires g.Valid() && IsFrame(item.levels)
    ensures var p := PushItem(g, item);
      var played := Play(g.bank, Emitted(p));
      played.bank == p.state.bank &&
      played.levels + LevelsOf(p.state.pending) == LevelsOf(g.pending) + [item.levels]
  {
    hide LevelBank;
    hide IsFrame;
    hide GroupOf;
    hide BankAfter;
    var whole := g.pending + [item];
    WholeFrames(g, item);
    assert LevelsOf(whole) == LevelsOf(g.pending) + [item.levels];
    if |whole| == GROUP {
      PlaysGroup(g.bank, whole, []);
      assert [GroupOf(g.bank, whole)] + [] == [GroupOf(g.bank, whole)];
    }
  }

  lemma WholeFrames<S>(g: Grouping<S>, item: Item<S>)
    requires g.Valid() && IsFrame(item.levels)
    ensures AreFrames(LevelsOf(g.pending + [item]))
  {
    var items := g.pending + [item];
    forall i | 0 <= i < |items| ensures IsFrame(LevelsOf(items)[i]) {
      if i < |g.pending| { assert IsFrame(LevelsOf(g.pending)[i]); }
    }
  }

  lemma {:induction false} PlayAppend<S>(bank: seq<Freq>, a: seq<Group<S>>, b: seq<Group<S>>)
    requires LevelBank(bank)
    ensures var first := Play(bank, a);
      var second := Play(first.bank, b);
      Play(bank, a + b) == Played(first.levels + second.levels, second.bank)
    decreases |a|
  {
    hide ReadFrames;
    hide LevelBank;
    if a == [] {
      assert a + b == b;
    } else {
      var one := ReadFrames(a[0].energies, Boot(a[0].energies), bank, |a[0].frames|);
      PlayAppend(one.bank, a[1..], b);
      assert (a + b)[0] == a[0] && (a + b)[1..] == a[1..] + b;
      Assoc(one.frames, Play(one.bank, a[1..]).levels, Play(Play(one.bank, a[1..]).bank, b).levels);
    }
  }

  lemma {:induction false} FramesAppend<S>(a: seq<Group<S>>, b: seq<Group<S>>)
    ensures Frames(a + b) == Frames(a) + Frames(b)
  {
    if a == [] {
      assert a + b == b;
    } else {
      FramesAppend(a[1..], b);
      assert (a + b)[0] == a[0] && (a + b)[1..] == a[1..] + b;
      Assoc(a[0].frames, Frames(a[1..]), Frames(b));
    }
  }

  /**
   * A whole recording: every frame pushed is emitted once and in order, in
   * groups of ten except perhaps the last, and decoding the groups from fresh
   * models recovers the levels of every frame.
   */
  lemma RecordingRoundTrip<S>(items: seq<Item<S>>)
    requires AreFrames(LevelsOf(items))
    ensures Frames(Record(items)) == ShapesOf(items)
    ensures Play(FreshBank(), Record(items)).levels == LevelsOf(items)
    ensures forall i :: 0 <= i < |Record(items)| - 1 ==> |Record(items)[i].frames| == 10
    ensures |Record(items)| > 0 ==> 1 <= |Record(items)[|Record(items)| - 1].frames| <= 10
  {
    hide LevelBank;
    hide IsFrame;
    hide Play;
    hide StreamBytes;
    hide FreshBank;
    hide PushItem;
    hide PushItems;
    var g := Grouping(FreshBank(), []);
    var r := PushItems(g, items);
    PushesKeepOrder(g, items);
    PushesPlayBack(g, items);
    assert ShapesOf(g.pending) + ShapesOf(items) == ShapesOf(items);
    assert LevelsOf(g.pending) + LevelsOf(items) == LevelsOf(items);
    if r.state.pending != [] {
      var last := GroupOf(r.state.bank, r.state.pending);
      FramesAppend(r.groups, [last]);
      assert Frames([last]) == last.frames;
      PlayAppend(g.bank, r.groups, [last]);
      PlaysLast(r.state);
      assert Frames(r.groups) + ShapesOf(r.state.pending) == ShapesOf(items);
      assert Play(g.bank, r.groups).levels + LevelsOf(r.state.pending) == LevelsOf(items);
    } else {
      assert Frames(r.groups) == Frames(r.groups) + ShapesOf(r.state.pending);
      assert Play(g.bank, r.groups).levels == Play(g.bank, r.groups).levels + LevelsOf(r.state.pending);
    }
  }

  lemma PlaysLast<S>(g: Grouping<S>)
    requires g.Valid()
    ensures Play(g.bank, [GroupOf(g.bank, g.pending)]).levels == LevelsOf(g.pending)
  {
    hide LevelBank;
    hide IsFrame;
    hide BankAfter;
    hide GroupOf;
    PlaysGroup(g.bank, g.pending, []);
    assert [GroupOf(g.bank, g.pending)] + [] == [GroupOf(g.bank, g.pending)];
  }

  /** A group whose frames have no level stream to read, which a decoder will not touch. */
  predicate Refused<S>(g: Group<S>) {
    g.energies == [] && g.frames != []
  }

  ghost predicate AllHeard<S>(groups: seq<Group<S>>) {
    forall i :: 0 <= i < |groups| ==> !Refused(groups[i])
  }

  lemma {:induction false} PushesHeard<S>(g: Grouping<S>, items: seq<Item<S>>)
    requires g.Valid() && AreFrames(LevelsOf(items))
    ensures AllHeard(PushItems(g, items).groups)
    decreases |items|
  {
    hide StreamBytes;
    hide LevelBank;
    hide IsFrame;
    if items != [] {
      assert IsFrame(LevelsOf(items)[0]);
      TailFrames(items);
      StreamNeverEmpty(g, items[0]);
      PushesHeard(PushItem(g, items[0]).state, items[1..]);
    }
  }

  lemma StreamNeverEmpty<S>(g: Grouping<S>, item: Item<S>)
    requires g.Valid() && IsFrame(item.levels)
    ensures PushItem(g, item).group.Some? ==> !Refused(PushItem(g, item).group.value)
  {
    WholeFrames(g, item);
  }

  /** No group a recording emits is one a decoder refuses. */
  lemma RecordingHeard<S>(items: seq<Item<S>>)
    requires AreFrames(LevelsOf(items))
    ensures AllHeard(Record(items))
  {
    hide *;
    var g: Grouping<S> := Grouping(FreshBank(), []);
    FreshStart(g);
    PushesHeard(g, items);
    LastHeard(g, items);
  }

  lemma FreshStart<S>(g: Grouping<S>)
    requires g == Grouping(FreshBank(), [])
    ensures g.Valid()
  {
    hide FreshBank;
    hide LevelBank;
  }

  lemma LastHeard<S>(g: Grouping<S>, items: seq<Item<S>>)
    requires g == Grouping(FreshBank(), []) && g.Valid()
    requires AreFrames(LevelsOf(items)) && AllHeard(PushItems(g, items).groups)
    ensures AllHeard(Record(items))
  {
    hide FreshBank;
    hide LevelBank;
    hide IsFrame;
    hide PushItems;
    hide StreamBytes;
  }
}
