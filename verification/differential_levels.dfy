/** Band levels at a fixed rate: rounded to a quantum, and sent as differences modulo what that leaves. */
module DifferentialLevels {
  import opened Common
  import C = PvqCount
  import B = BitPacker

  const ENERGY_LEVELS := 192

  predicate IsQuantum(q: nat) {
    1 <= q <= 3
  }

  /** Scale steps per coded increment at a frame size both sides know. */
  function LevelQuantum(bytesPerFrame: nat): (q: nat)
    ensures IsQuantum(q)
  {
    if bytesPerFrame <= 44 then 3 else if bytesPerFrame <= 59 then 2 else 1
  }

  function CodedLevels(q: nat): (c: nat)
    requires IsQuantum(q)
    ensures c * q == ENERGY_LEVELS
  {
    (ENERGY_LEVELS + q - 1) / q
  }

  /** Bits in one coded level: the exponent of the next power of two. */
  function LevelBits(q: nat): (w: nat)
    requires IsQuantum(q)
    ensures w == if q == 1 then 8 else if q == 2 then 7 else 6
    ensures CodedLevels(q) <= C.Pow2(w) <= 256
  {
    assert C.Pow2(5) == 32 && C.Pow2(6) == 64 && C.Pow2(7) == 128 && C.Pow2(8) == 256;
    C.Width(CodedLevels(q))
  }

  /** The smallest frame that carries the band energies at the quantum this size implies. */
  function MinimumBytes(bytesPerFrame: nat): nat {
    (BANDS * LevelBits(LevelQuantum(bytesPerFrame)) + 7) / 8
  }

  /** Eighteen bytes, 21 from the first size with the middle quantum, 24 from the first with the finest. */
  lemma MinimumIs(bytesPerFrame: nat)
    ensures MinimumBytes(bytesPerFrame) == if bytesPerFrame <= 44 then 18 else if bytesPerFrame <= 59 then 21 else 24
    ensures LevelQuantum(bytesPerFrame) == if bytesPerFrame <= 44 then 3 else if bytesPerFrame <= 59 then 2 else 1
    ensures bytesPerFrame >= MinimumBytes(bytesPerFrame) <==> bytesPerFrame >= 18
  {
  }

  /** A level rounded to the quantum, and held to the top of the scale. */
  function Coarsen(level: nat, q: nat): (r: nat)
    requires IsQuantum(q)
    ensures Emittable(r, q)
    ensures level + q / 2 < 192 ==> r % q == 0 && 2 * level < 2 * r + q && 2 * r <= 2 * level + q
    ensures level + q / 2 >= 192 ==> r == 191
  {
    var rounded := (level + q / 2) / q * q;
    if rounded < ENERGY_LEVELS then rounded else ENERGY_LEVELS - 1
  }

  /** The levels an encoder can hold: multiples of the quantum, and the clamped top. */
  predicate Emittable(level: nat, q: nat)
    requires IsQuantum(q)
  {
    level < ENERGY_LEVELS && (level % q == 0 || level == ENERGY_LEVELS - 1)
  }

  /** What a decoder holds in place of `level`. */
  function Floor(level: nat, q: nat): (r: nat)
    requires IsQuantum(q)
    ensures r <= level
  {
    level / q * q
  }

  /** Only the clamped top level of a coarse scale is not itself on the scale. */
  lemma FloorExact(level: nat, q: nat)
    requires IsQuantum(q) && Emittable(level, q)
    ensures Floor(level, q) == level <==> q == 1 || level != ENERGY_LEVELS - 1
    ensures Emittable(Floor(level, q), q)
  {
  }

  /** Division that drops the fraction, whichever side of zero. */
  function Truncated(a: int, q: nat): int
    requires IsQuantum(q)
  {
    if a >= 0 then a / q else -(-a / q)
  }

  /** What the first frame writes, and what later frames write. */
  function Absolute(level: nat, q: nat): (code: nat)
    requires IsQuantum(q)
  {
    level / q
  }

  function Difference(level: nat, previous: nat, q: nat): (code: nat)
    requires IsQuantum(q)
  {
    Truncated(level - previous, q) % CodedLevels(q)
  }

  function Restored(previous: nat, code: nat, q: nat): (level: nat)
    requires IsQuantum(q)
    ensures level < ENERGY_LEVELS
  {
    (previous + code * q) % (CodedLevels(q) * q)
  }

  /**
   * One step of one band. The decoder stands on the scale below the encoder;
   * truncating toward zero keeps it exactly one floor below after every move.
   */
  lemma StepFollows(level: nat, previous: nat, q: nat)
    requires IsQuantum(q) && Emittable(level, q) && Emittable(previous, q)
    ensures Absolute(level, q) < CodedLevels(q) && Absolute(level, q) * q == Floor(level, q)
    ensures Difference(level, previous, q) < CodedLevels(q)
    ensures Restored(Floor(previous, q), Difference(level, previous, q), q) == Floor(level, q)
  {
    Steps(level, previous, q);
    DifferenceIs(level, previous, q);
    assert Floor(level, q) == level / q * q && Floor(previous, q) == previous / q * q;
    assert Absolute(level, q) == level / q;
    hide *;
    RingStep(level / q, previous / q, q);
  }

  /** A difference counts the steps of the scale between the two floors, a step below zero as one below the top. */
  lemma DifferenceCounts(level: nat, previous: nat, q: nat)
    requires IsQuantum(q) && Emittable(level, q) && Emittable(previous, q)
    ensures var steps: int := Floor(level, q) - Floor(previous, q);
      Difference(level, previous, q) * q == if steps >= 0 then steps else steps + 192
  {
    Steps(level, previous, q);
    DifferenceIs(level, previous, q);
    assert Floor(level, q) == level / q * q && Floor(previous, q) == previous / q * q;
    hide *;
    StepsAround(level / q, previous / q, q);
  }

  lemma StepsAround(a: nat, p: nat, q: nat)
    requires IsQuantum(q) && a < CodedLevels(q) && p < CodedLevels(q)
    ensures (a - p) % CodedLevels(q) * q == if a >= p then a * q - p * q else a * q - p * q + 192
    ensures a >= p <==> a * q - p * q >= 0
  {
    var c := CodedLevels(q);
    assert c * q == 192 && (c == 192 || c == 96 || c == 64);
    hide *;
    Ring(a, p, c);
    Multiples(a, p, (a - p) % c, c, q);
  }

  lemma Multiples(a: nat, p: nat, m: int, c: nat, q: nat)
    requires 1 <= q <= 3 && c * q == 192 && a < c && p < c && m == if a >= p then a - p else a - p + c
    ensures m * q == if a >= p then a * q - p * q else a * q - p * q + 192
    ensures a >= p <==> a * q - p * q >= 0
  {
  }

  lemma DifferenceIs(level: nat, previous: nat, q: nat)
    requires IsQuantum(q)
    ensures Difference(level, previous, q) == Truncated(level - previous, q) % CodedLevels(q) < CodedLevels(q)
  {
    hide Truncated;
    assert CodedLevels(q) > 0;
  }

  lemma RingStep(a: nat, p: nat, q: nat)
    requires IsQuantum(q) && a < CodedLevels(q) && p < CodedLevels(q)
    ensures Restored(p * q, (a - p) % CodedLevels(q), q) == a * q
  {
    hide Restored;
    if q == 1 {
      Ring(a, p, 192);
      RestoredIs(p, (a - p) % 192, 1);
    } else if q == 2 {
      Ring(a, p, 96);
      RestoredIs(p, (a - p) % 96, 2);
    } else {
      Ring(a, p, 64);
      RestoredIs(p, (a - p) % 64, 3);
    }
  }

  lemma RestoredIs(p: nat, code: nat, q: nat)
    requires IsQuantum(q) && p < CodedLevels(q) && code < CodedLevels(q)
    ensures Restored(p * q, code, q) == if p + code < CodedLevels(q) then (p + code) * q else (p + code - CodedLevels(q)) * q
  {
    hide Restored;
    var c := CodedLevels(q);
    RestoredOnRing(p * q, code, q);
    Wraps(p, code, c, q);
    hide *;
    Around((p + code) * q);
  }

  lemma RestoredOnRing(previous: nat, code: nat, q: nat)
    requires IsQuantum(q)
    ensures Restored(previous, code, q) == (previous + code * q) % ENERGY_LEVELS
  {
    assert CodedLevels(q) * q == ENERGY_LEVELS;
  }

  lemma Wraps(p: nat, code: nat, c: nat, q: nat)
    requires IsQuantum(q) && c * q == ENERGY_LEVELS && p < c && code < c
    ensures p * q + code * q == (p + code) * q < 2 * ENERGY_LEVELS
    ensures (p + code) * q < ENERGY_LEVELS <==> p + code < c
    ensures (p + code) * q - ENERGY_LEVELS == (p + code - c) * q
  {
  }

  lemma Around(x: nat)
    requires x < 2 * ENERGY_LEVELS
    ensures x % ENERGY_LEVELS == if x < ENERGY_LEVELS then x else x - ENERGY_LEVELS
  {
  }

  /** Truncation counts whole steps of the scale, the clamped top standing on the step below it. */
  lemma Steps(level: nat, previous: nat, q: nat)
    requires IsQuantum(q) && Emittable(level, q) && Emittable(previous, q)
    ensures level / q < CodedLevels(q) && previous / q < CodedLevels(q)
    ensures Truncated(level - previous, q) == level / q - previous / q
  {
    if q == 2 {
      Halving(level, previous);
    } else if q == 3 {
      Thirds(level, previous);
    }
  }

  lemma Halving(level: nat, previous: nat)
    requires Emittable(level, 2) && Emittable(previous, 2)
    ensures Truncated(level - previous, 2) == level / 2 - previous / 2
  {
  }

  lemma Thirds(level: nat, previous: nat)
    requires Emittable(level, 3) && Emittable(previous, 3)
    ensures Truncated(level - previous, 3) == level / 3 - previous / 3
  {
    var a, p := level / 3, previous / 3;
    var d := level - previous;
    assert d == 3 * (a - p) + (level % 3 - previous % 3);
  }

  /** A difference taken around the ring and put back. */
  lemma Ring(a: nat, p: nat, c: nat)
    requires c == 192 || c == 96 || c == 64
    requires a < c && p < c
    ensures (p + (a - p) % c) % c == a
    ensures (a - p) % c == if a >= p then a - p else a - p + c
  {
  }

  // --- a frame of levels ---

  /** What either side remembers: the last frame's levels, once there was one. */
  datatype Tracker = Tracker(previous: seq<nat>, started: bool)

  ghost predicate Levels(levels: seq<nat>, q: nat)
    requires IsQuantum(q)
  {
    |levels| == BANDS && forall b :: 0 <= b < BANDS ==> Emittable(levels[b], q)
  }

  ghost predicate Tracking(t: Tracker, q: nat)
    requires IsQuantum(q)
  {
    |t.previous| == BANDS && (t.started ==> Levels(t.previous, q))
  }

  function Floors(levels: seq<nat>, q: nat): (r: seq<nat>)
    requires IsQuantum(q)
    ensures |r| == |levels| && forall b :: 0 <= b < |r| ==> r[b] == Floor(levels[b], q)
  {
    seq(|levels|, b requires 0 <= b < |levels| => Floor(levels[b], q))
  }

  /** The decoder that has kept up with an encoder. */
  ghost predicate Follows(d: Tracker, e: Tracker, q: nat)
    requires IsQuantum(q)
  {
    |e.previous| == |d.previous| == BANDS && d.started == e.started &&
    (e.started ==> d.previous == Floors(e.previous, q))
  }

  function Start(): Tracker {
    Tracker(seq(BANDS, b => 0), false)
  }

  function Code(t: Tracker, level: nat, b: nat, q: nat): (code: nat)
    requires IsQuantum(q) && |t.previous| == BANDS && b < BANDS
  {
    if t.started then Difference(level, t.previous[b], q) else Absolute(level, q)
  }

  function Hear(t: Tracker, code: nat, b: nat, q: nat): (level: nat)
    requires IsQuantum(q) && |t.previous| == BANDS && b < BANDS
    ensures code < C.Pow2(LevelBits(q)) ==> level < 256
  {
    if t.started then Restored(t.previous[b], code, q) else code * q
  }

  lemma BandFollows(e: Tracker, d: Tracker, level: nat, b: nat, q: nat)
    requires IsQuantum(q) && Tracking(e, q) && Follows(d, e, q)
    requires b < BANDS && Emittable(level, q)
    ensures Code(e, level, b, q) < CodedLevels(q)
    ensures Hear(d, Code(e, level, b, q), b, q) == Floor(level, q)
  {
    StepFollows(level, if e.started then e.previous[b] else 0, q);
  }

  function LevelFields(t: Tracker, levels: seq<nat>, b: nat, q: nat): seq<B.Field>
    requires IsQuantum(q) && |t.previous| == BANDS && |levels| == BANDS && b <= BANDS
    decreases BANDS - b, levels
  {
    if b == BANDS then []
    else [B.Field(Code(t, levels[b], b, q), LevelBits(q))] + LevelFields(t, levels, b + 1, q)
  }

  /** The levels of the bands from `b` on, read from position `p`. */
  function LevelsAt(t: Tracker, bits: seq<bool>, p: nat, b: nat, q: nat): (levels: seq<nat>)
    requires IsQuantum(q) && |t.previous| == BANDS && b <= BANDS
    ensures |levels| == BANDS - b
    ensures forall i :: 0 <= i < |levels| ==> levels[i] < 256
    decreases BANDS - b, bits
  {
    if b == BANDS then []
    else
      B.ReadFits(bits, p, LevelBits(q));
      [Hear(t, B.Read(bits, p, LevelBits(q)), b, q)] + LevelsAt(t, bits, p + LevelBits(q), b + 1, q)
  }

  lemma {:induction false} LevelFieldsFit(t: Tracker, levels: seq<nat>, b: nat, q: nat)
    requires IsQuantum(q) && Tracking(t, q) && Levels(levels, q) && b <= BANDS
    ensures B.AllFit(LevelFields(t, levels, b, q))
    ensures B.Widths(LevelFields(t, levels, b, q)) == (BANDS - b) * LevelBits(q)
    decreases BANDS - b
  {
    hide LevelBits;
    if b < BANDS {
      BandFollows(t, Tracker(Floors(t.previous, q), t.started), levels[b], b, q);
      LevelFieldsFit(t, levels, b + 1, q);
      var rest := LevelFields(t, levels, b + 1, q);
      assert LevelFields(t, levels, b, q)[1..] == rest;
    }
  }

  /** A frame's levels arrive as their floors. */
  lemma {:induction false} LevelsArrive(e: Tracker, d: Tracker, levels: seq<nat>, bits: seq<bool>, p: nat, b: nat, q: nat)
    requires IsQuantum(q) && Tracking(e, q) && Follows(d, e, q) && Levels(levels, q) && b <= BANDS
    requires B.ReadsBack(bits, p, LevelFields(e, levels, b, q))
    ensures LevelsAt(d, bits, p, b, q) == Floors(levels, q)[b..]
    decreases BANDS - b
  {
    hide B.Read;
    hide LevelBits;
    hide Hear;
    hide Code;
    if b < BANDS {
      BandFollows(e, d, levels[b], b, q);
      assert LevelFields(e, levels, b, q)[1..] == LevelFields(e, levels, b + 1, q);
      LevelsArrive(e, d, levels, bits, p + LevelBits(q), b + 1, q);
    }
  }

  /**
   * A whole frame of levels arrives unchanged exactly when the scale is at its
   * finest or no band stands at the clamped top.
   */
  lemma ArrivesExactly(levels: seq<nat>, q: nat)
    requires IsQuantum(q) && Levels(levels, q)
    ensures Floors(levels, q) == levels <==> q == 1 || ENERGY_LEVELS - 1 !in levels
  {
    forall b | 0 <= b < BANDS
      ensures Floors(levels, q)[b] == levels[b] <==> q == 1 || levels[b] != ENERGY_LEVELS - 1
    {
      FloorExact(levels[b], q);
    }
  }

  /** Below 24 kbit/s the loudest level is heard one or two steps down. */
  lemma TopLevelDrops()
    ensures Coarsen(191, 2) == 191 && Floor(191, 2) == 190
    ensures Coarsen(191, 3) == 191 && Floor(191, 3) == 189
  {
  }

  // --- a run of frames ---

  ghost predicate AllLevels(frames: seq<seq<nat>>, q: nat)
    requires IsQuantum(q)
  {
    forall i :: 0 <= i < |frames| ==> Levels(frames[i], q)
  }

  /** The codes of every frame, the encoder remembering each in turn. */
  function Codes(t: Tracker, levels: seq<nat>, q: nat): (codes: seq<nat>)
    requires IsQuantum(q) && |t.previous| == BANDS && |levels| == BANDS
    ensures |codes| == BANDS
  {
    seq(BANDS, b requires 0 <= b < BANDS => Code(t, levels[b], b, q))
  }

  function Heard(t: Tracker, codes: seq<nat>, q: nat): (levels: seq<nat>)
    requires IsQuantum(q) && |t.previous| == BANDS && |codes| == BANDS
    ensures |levels| == BANDS
  {
    seq(BANDS, b requires 0 <= b < BANDS => Hear(t, codes[b], b, q))
  }

  function SendAll(t: Tracker, frames: seq<seq<nat>>, q: nat): (sent: seq<seq<nat>>)
    requires IsQuantum(q) && |t.previous| == BANDS
    requires forall i :: 0 <= i < |frames| ==> |frames[i]| == BANDS
    ensures |sent| == |frames| && forall i :: 0 <= i < |sent| ==> |sent[i]| == BANDS
    decreases |frames|
  {
    if frames == [] then []
    else [Codes(t, frames[0], q)] + SendAll(Tracker(frames[0], true), frames[1..], q)
  }

  function HearAll(t: Tracker, sent: seq<seq<nat>>, q: nat): (heard: seq<seq<nat>>)
    requires IsQuantum(q) && |t.previous| == BANDS
    requires forall i :: 0 <= i < |sent| ==> |sent[i]| == BANDS
    ensures |heard| == |sent|
    decreases |sent|
  {
    if sent == [] then []
    else
      var levels := Heard(t, sent[0], q);
      [levels] + HearAll(Tracker(levels, true), sent[1..], q)
  }

  /** Over any loss-free run, every level of every frame is heard as its floor. */
  lemma {:induction false} RunFollows(e: Tracker, d: Tracker, frames: seq<seq<nat>>, q: nat)
    requires IsQuantum(q) && Tracking(e, q) && Follows(d, e, q) && AllLevels(frames, q)
    ensures var heard := HearAll(d, SendAll(e, frames, q), q);
      |heard| == |frames| && forall i :: 0 <= i < |frames| ==> heard[i] == Floors(frames[i], q)
    decreases |frames|
  {
    if frames != [] {
      var levels := frames[0];
      var codes := Codes(e, levels, q);
      var heard := Heard(d, codes, q);
      forall b | 0 <= b < BANDS ensures heard[b] == Floors(levels, q)[b] {
        BandFollows(e, d, levels[b], b, q);
      }
      assert heard == Floors(levels, q);
      RunFollows(Tracker(levels, true), Tracker(heard, true), frames[1..], q);
      assert SendAll(e, frames, q)[1..] == SendAll(Tracker(levels, true), frames[1..], q);
    }
  }
}
