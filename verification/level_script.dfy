/** What one frame of levels puts in the stream, symbol by symbol, from the levels alone. */
module LevelScript {
  import opened Common
  import opened SymbolStream
  import opened LevelCoding

  /** The bands from `b` up that are not silent. */
  function AwakeBands(levels: seq<nat>, b: nat): (bands: seq<nat>)
    requires |levels| == BANDS && b <= BANDS
    ensures forall i :: 0 <= i < |bands| ==> b <= bands[i] < BANDS && levels[bands[i]] != 0
    ensures forall i, j :: 0 <= i < j < |bands| ==> bands[i] < bands[j]
    ensures forall x :: b <= x < BANDS && levels[x] != 0 ==> x in bands
    decreases BANDS - b, levels
  {
    if b == BANDS then []
    else if levels[b] == 0 then AwakeBands(levels, b + 1)
    else [b] + AwakeBands(levels, b + 1)
  }

  /** The symbol stands for `delta` on a ring of 191, small ones either way on small symbols. */
  ghost predicate Names(symbol: nat, delta: int) {
    symbol < 191 && (delta - if symbol % 2 == 0 then symbol / 2 else -((symbol + 1) / 2)) % 191 == 0
  }

  /** How many of -4, -2, 0 and 2 the step below was above. */
  ghost function Bucket(step: int): nat {
    (if step > -4 then 1 else 0) + (if step > -2 then 1 else 0) + (if step > 0 then 1 else 0) + (if step > 2 then 1 else 0)
  }

  function Climb(levels: seq<nat>, from: nat, to: nat): int
    requires from < |levels| && to < |levels|
  {
    levels[to] as int - levels[from] as int
  }

  /**
   * The i-th awake band. The first is sent as it is, against the last of the 37
   * models. Every other is sent as its step from the awake band below, against
   * one of the five models of its group of four bands, chosen by the step before.
   */
  ghost predicate Says(levels: seq<nat>, bands: seq<nat>, i: nat, c: Coded)
    requires i < |bands| && forall j :: 0 <= j < |bands| ==> bands[j] < |levels|
  {
    if i == 0 then c == Coded(36, levels[bands[0]])
    else
      var step := Climb(levels, bands[i - 1], bands[i]);
      var before := if i == 1 then 0 else Climb(levels, bands[i - 2], bands[i - 1]);
      c.model == 6 + 5 * (bands[i] / 4) + Bucket(before) && Names(c.symbol, step)
  }

  lemma FoldNames(delta: int)
    ensures Names(FoldResidual(delta), delta)
  {
    var d := delta % 191;
    var centred := if d > 95 then d - 191 else d;
    assert -95 <= centred <= 95;
    Turns(delta, if d > 95 then 1 else 0);
  }

  lemma Turns(delta: int, k: int)
    ensures (delta - (delta % 191 - 191 * k)) % 191 == 0
  {
    assert delta - (delta % 191 - 191 * k) == 191 * (delta / 191 + k);
  }

  /** Where the bands below leave the predictor. */
  ghost predicate Reached(levels: seq<nat>, done: seq<nat>, below: Below) {
    (forall j :: 0 <= j < |done| ==> done[j] < |levels|) &&
    if done == [] then below == GROUND
    else
      var n := |done|;
      below == Below(Some(levels[done[n - 1]]), if n == 1 then 0 else Climb(levels, done[n - 2], done[n - 1]))
  }

  lemma CodeSays(levels: seq<nat>, done: seq<nat>, below: Below, b: nat)
    requires |levels| == BANDS && b < BANDS && Reached(levels, done, below)
    ensures forall j :: 0 <= j < |done + [b]| ==> (done + [b])[j] < |levels|
    ensures Says(levels, done + [b], |done|, LevelCode(b, below, levels[b]))
    ensures Reached(levels, done + [b], below.Next(levels[b]))
  {
    hide FoldResidual;
    hide Names;
    if done != [] {
      FoldNames(Climb(levels, done[|done| - 1], b));
      SlotIs(b, below.residual);
    }
  }

  lemma SlotIs(b: nat, step: int)
    requires b < BANDS
    ensures RESIDUAL_BASE + ResidualSlot(b, step) == 6 + 5 * (b / 4) + Bucket(step)
  {
    hide BandContext;
    hide ResidualContext;
    hide Bucket;
    FoursOf(b);
    BucketIs(step);
  }

  lemma FoursOf(b: nat)
    requires b < BANDS
    ensures BandContext(b) == b / 4
  {
  }

  lemma BucketIs(step: int)
    ensures ResidualContext(step) == Bucket(step)
  {
  }

  lemma LaterSays(levels: seq<nat>, bands: seq<nat>, more: seq<nat>, i: nat, c: Coded)
    requires i < |bands| && forall j :: 0 <= j < |bands + more| ==> (bands + more)[j] < |levels|
    requires (forall j :: 0 <= j < |bands| ==> bands[j] < |levels|) && Says(levels, bands, i, c)
    ensures Says(levels, bands + more, i, c)
  {
    hide Names;
  }

  ghost predicate AllSay(levels: seq<nat>, done: seq<nat>, bands: seq<nat>, cs: seq<Coded>) {
    (forall j :: 0 <= j < |done + bands| ==> (done + bands)[j] < |levels|) &&
    |cs| == |bands| && forall i :: 0 <= i < |cs| ==> Says(levels, done + bands, |done| + i, cs[i])
  }

  lemma {:induction false} AwakeSays(levels: seq<nat>, done: seq<nat>, below: Below, b: nat)
    requires |levels| == BANDS && b <= BANDS && Reached(levels, done, below)
    ensures AllSay(levels, done, AwakeBands(levels, b), Awake(levels, b, below))
    decreases BANDS - b
  {
    hide Says;
    hide Reached;
    hide AllSay;
    hide LevelCode;
    if b == BANDS {
      NoneSay(levels, done, below);
    } else if levels[b] == 0 {
      AwakeSays(levels, done, below, b + 1);
    } else {
      CodeSays(levels, done, below, b);
      AwakeSays(levels, done + [b], below.Next(levels[b]), b + 1);
      OneSays(levels, done, b, AwakeBands(levels, b + 1), LevelCode(b, below, levels[b]), Awake(levels, b + 1, below.Next(levels[b])));
    }
  }

  lemma NoneSay(levels: seq<nat>, done: seq<nat>, below: Below)
    requires Reached(levels, done, below)
    ensures AllSay(levels, done, [], [])
  {
    assert done + [] == done;
  }

  lemma OneSays(levels: seq<nat>, done: seq<nat>, b: nat, bands: seq<nat>, c: Coded, cs: seq<Coded>)
    requires AllSay(levels, done + [b], bands, cs) && b < |levels|
    requires (forall j :: 0 <= j < |done + [b]| ==> (done + [b])[j] < |levels|) && Says(levels, done + [b], |done|, c)
    ensures AllSay(levels, done, [b] + bands, [c] + cs)
  {
    hide Says;
    assert done + ([b] + bands) == (done + [b]) + bands;
    LaterSays(levels, done + [b], bands, |done|, c);
    forall i | 0 <= i < |[c] + cs| ensures Says(levels, done + ([b] + bands), |done| + i, ([c] + cs)[i]) {
      if i > 0 {
        assert ([c] + cs)[i] == cs[i - 1];
        assert Says(levels, (done + [b]) + bands, |done + [b]| + (i - 1), cs[i - 1]);
      }
    }
  }

  lemma {:induction false} FlagSays(levels: seq<nat>, from: nat, b: nat)
    requires |levels| == BANDS && from <= b < BANDS
    ensures |Flags(levels, from)| == BANDS - from
    ensures Flags(levels, from)[b - from] == Coded(b / 4, if levels[b] == 0 then 1 else 0)
    decreases BANDS - from
  {
    if from < b {
      FlagSays(levels, from + 1, b);
    } else if from + 1 < BANDS {
      FlagSays(levels, from + 1, from + 1);
    }
  }

  /**
   * A frame is 24 silence flags, each against the model of its group of four
   * bands, and then its awake bands from the bottom up.
   */
  lemma ScriptSays(levels: seq<nat>)
    requires IsFrame(levels)
    ensures var cs, bands := Script(levels), AwakeBands(levels, 0);
      |cs| == 24 + |bands| &&
      (forall b :: 0 <= b < 24 ==> cs[b] == Coded(b / 4, if levels[b] == 0 then 1 else 0)) &&
      forall i :: 0 <= i < |bands| ==> Says(levels, bands, i, cs[24..][i])
  {
    AllFlagsSay(levels);
    StartsFresh(levels);
    hide *;
    AwakeSays(levels, [], GROUND, 0);
    AllSaid(levels, AwakeBands(levels, 0), Awake(levels, 0, GROUND));
    Joined(levels);
  }

  lemma StartsFresh(levels: seq<nat>)
    requires IsFrame(levels)
    ensures |levels| == BANDS == 24 && Reached(levels, [], GROUND)
  {
  }

  lemma AllFlagsSay(levels: seq<nat>)
    requires IsFrame(levels)
    ensures |Flags(levels, 0)| == 24
    ensures forall b :: 0 <= b < 24 ==> Flags(levels, 0)[b] == Coded(b / 4, if levels[b] == 0 then 1 else 0)
  {
    hide Flags;
    FlagSays(levels, 0, 0);
    forall b | 0 <= b < 24 ensures Flags(levels, 0)[b] == Coded(b / 4, if levels[b] == 0 then 1 else 0) {
      FlagSays(levels, 0, b);
    }
  }

  lemma AllSaid(levels: seq<nat>, bands: seq<nat>, cs: seq<Coded>)
    requires AllSay(levels, [], bands, cs)
    ensures |cs| == |bands| && forall j :: 0 <= j < |bands| ==> bands[j] < |levels|
    ensures forall i :: 0 <= i < |bands| ==> Says(levels, bands, i, cs[i])
  {
    hide Says;
    assert [] + bands == bands;
  }

  lemma Joined(levels: seq<nat>)
    requires IsFrame(levels) && |Flags(levels, 0)| == 24
    ensures Script(levels)[..24] == Flags(levels, 0) && Script(levels)[24..] == Awake(levels, 0, GROUND)
    ensures |Script(levels)| == 24 + |Awake(levels, 0, GROUND)|
    ensures forall b :: 0 <= b < 24 ==> Script(levels)[b] == Flags(levels, 0)[b]
  {
    hide Flags;
    hide Awake;
  }
}
