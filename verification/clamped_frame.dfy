/** A frame with one level at the clamped top, which the two sides split differently. */
module ClampedFrame {
  import opened Bytes
  import opened Common
  import opened BitPacker
  import opened DifferentialLevels
  import opened Shaping
  import opened Telyx
  import A = Bands
  import C = PvqCount
  import R = LevelRefinement

  const BYTES := 19

  /**
   * Gains spaced as decibels space them: the top level is louder than the one
   * two below it, less than twice as loud, and the lowest is the quietest. The
   * low bands weigh as much as any.
   */
  ghost predicate Spaced(s: R.Scale) {
    s.Valid() && A.SILENCE <= s.gain[0] < s.gain[189] < s.gain[191] < 2.0 * s.gain[189] &&
    forall b :: 0 <= b < BANDS ==> s.weight[b] <= 1.0 && (b < 3 ==> s.weight[b] == 1.0)
  }

  /** Two bands a step of the scale below the top, one clamped at it, and silence. */
  function Loud(): (levels: seq<nat>)
    ensures Levels(levels, 3)
  {
    seq(BANDS, b => if b < 2 then 189 else if b == 2 then 191 else 0)
  }

  function Lowered(): (levels: seq<nat>)
    ensures |levels| == BANDS && forall b :: 0 <= b < BANDS ==> levels[b] == if b < 3 then 189 else 0
  {
    seq(BANDS, b => if b < 3 then 189 else 0)
  }

  lemma LoudIsLowered()
    ensures Floors(Loud(), 3) == Lowered()
  {
  }

  lemma Products(z: real, g: real, h: real, w: real)
    requires 0.0 < z < g < h < 2.0 * g && 0.0 < w <= 1.0
    ensures w * z * z < g * g < h * h && 0.0 < g * g && h * h / 4.0 < g * g
  {
    assert z * z < g * g by { Squares(z, g); }
    assert g * g < h * h by { Squares(g, h); }
    assert h * h < (2.0 * g) * (2.0 * g) by { Squares(h, 2.0 * g); }
    assert (2.0 * g) * (2.0 * g) == 4.0 * (g * g);
    assert w * z * z == w * (z * z);
    A.Lighter(w, z * z);
  }

  lemma Squares(a: real, b: real)
    requires 0.0 < a < b
    ensures 0.0 < a * a < b * b
  {
    Larger(a, a, b);
    Larger(b, a, b);
    A.Positive(a, a);
  }

  lemma Larger(k: real, a: real, b: real)
    requires k > 0.0 && a < b
    ensures k * a < k * b && a * k < b * k
  {
  }

  /** What the next bit is worth to a band of weight `w` and energy `e`. */
  lemma ValueIs(s: A.Spectrum, b: nat)
    requires s.Valid() && b < BANDS && s.energies[b] >= A.SILENCE
    ensures A.Value(s, b, 0) == s.weight[b] * s.energies[b] * s.energies[b]
    ensures A.Value(s, b, 1) == s.weight[b] * s.energies[b] * s.energies[b] / 4.0
  {
    assert A.Quarter(0) == 1.0 && A.Quarter(1) == 1.0 / 4.0;
    A.QuarterOf(s.weight[b] * s.energies[b] * s.energies[b], 1.0);
  }

  /** Every band's values, at no bits and at one, for levels where band 2 stands at gain `top`. */
  lemma ValuesAre(s: R.Scale, levels: seq<nat>, b: nat)
    requires Spaced(s) && b < BANDS && (levels == Loud() || levels == Lowered())
    ensures var sp := R.Heard(s, levels);
      var g, h := s.gain[189], s.gain[levels[2]];
      sp.Valid() && 0.0 < g * g &&
      (b < 2 ==> A.Value(sp, b, 0) == g * g && A.Value(sp, b, 1) < g * g) &&
      (b == 2 ==> A.Value(sp, b, 0) == h * h && A.Value(sp, b, 1) < g * g) &&
      (b > 2 ==> A.Value(sp, b, 0) < g * g) &&
      (levels == Loud() ==> g * g < h * h)
  {
    hide A.Value;
    var sp := R.Heard(s, levels);
    var g, h := s.gain[189], s.gain[levels[2]];
    ValueIs(sp, b);
    Products(s.gain[0], g, s.gain[191], s.weight[b]);
    assert sp.energies[b] == s.gain[levels[b]];
    if b < 3 {
      assert sp.weight[b] == 1.0;
      var e := sp.energies[b];
      assert 1.0 * e * e == e * e;
    }
  }

  lemma NarrowBands()
    ensures A.Width(0) == 4 && A.Width(1) == 4 && A.Width(2) == 4
  {
  }

  /** With the clamped level heard, band 2 comes first and band 0 second. */
  lemma LoudOrder(s: R.Scale)
    requires Spaced(s)
    ensures var sp := R.Heard(s, Loud());
      A.Best(sp, A.NoPlan(), BANDS) == 2 && A.Best(sp, A.NoPlan()[2 := 1], BANDS) == 0
  {
    hide A.Value;
    hide R.Heard;
    var sp := R.Heard(s, Loud());
    var plan := A.NoPlan();
    ValuesAre(s, Loud(), 0);
    ValuesAre(s, Loud(), 2);
    forall c | 0 <= c < BANDS
      ensures c != 2 ==> A.Value(sp, c, plan[c]) < A.Value(sp, 2, plan[2])
      ensures A.Value(sp, c, plan[2 := 1][c]) <= A.Value(sp, 0, 0)
    {
      ValuesAre(s, Loud(), c);
    }
    A.FirstBest(sp, plan, 2);
    A.FirstBest(sp, plan[2 := 1], 0);
  }

  /** With it lowered, bands 0, 1 and 2 are worth the same and are taken in that order. */
  lemma LoweredOrder(s: R.Scale)
    requires Spaced(s)
    ensures var sp := R.Heard(s, Lowered());
      A.Best(sp, A.NoPlan(), BANDS) == 0 && A.Best(sp, A.NoPlan()[0 := 1], BANDS) == 1
  {
    hide A.Value;
    hide R.Heard;
    var sp := R.Heard(s, Lowered());
    var plan := A.NoPlan();
    ValuesAre(s, Lowered(), 0);
    ValuesAre(s, Lowered(), 1);
    forall c | 0 <= c < BANDS
      ensures A.Value(sp, c, plan[c]) <= A.Value(sp, 0, 0)
      ensures A.Value(sp, c, plan[0 := 1][c]) <= A.Value(sp, 1, 0)
      ensures c == 0 ==> A.Value(sp, c, plan[0 := 1][c]) < A.Value(sp, 1, 0)
    {
      ValuesAre(s, Lowered(), c);
    }
    A.FirstBest(sp, plan, 0);
    A.FirstBest(sp, plan[0 := 1], 1);
  }

  /** The encoder's eight bits go to bands 2 and 0, the decoder's to bands 0 and 1. */
  lemma SplitsApart(s: R.Scale)
    requires Spaced(s)
    ensures forall b :: 0 <= b < BANDS ==> R.Split(s, Loud(), 8)[b] == if b == 2 || b == 0 then 4 else 0
    ensures forall b :: 0 <= b < BANDS ==> R.Split(s, Lowered(), 8)[b] == if b == 0 || b == 1 then 4 else 0
  {
    hide A.Width;
    hide A.Best;
    hide A.Share;
    NarrowBands();
    LoudOrder(s);
    LoweredOrder(s);
    A.TwoFours(R.Heard(s, Loud()), 2, 0);
    A.TwoFours(R.Heard(s, Lowered()), 0, 1);
  }

  lemma FourBitsBuyOnePulse()
    ensures C.Pulses(4, 4) > 0 && C.Pulses(4, 0) == 0
  {
    EightVectors();
    hide C.Affordable;
    C.PulsesAtLeast(4, 4, 1);
    var k := C.Pulses(4, 0);
    if k > 0 {
      C.AffordableBelow(4, 1, k, 0);
    }
  }

  lemma EightVectors()
    ensures C.Affordable(4, 1, 4) && !C.Affordable(4, 1, 0)
  {
    assert C.V(4, 1) == 8;
    assert C.Pow2(0) == 1 && C.Pow2(4) == 16;
  }

  /**
   * Nineteen bytes leave eight bits for shapes. The encoder codes bands 2 and 0
   * with them and the decoder reads bands 0 and 1, so band 1 is heard as a shape
   * that was never sent and band 2 as none.
   */
  lemma ClampedLevelMisleads(s: Setting, e: Tracker, d: Tracker, sent: Sent, bits: seq<bool>)
    requires s.Valid() && s.bytes == BYTES && Spaced(s.scale) && sent.levels == Loud()
    requires Consistent(s, sent) && Tracking(e, 3) && Follows(d, e, 3) && ReadsBack(bits, 0, Fields(s, e, sent))
    ensures sent.shapes[1].Noise? && sent.shapes[2].Coded?
    ensures var heard := Understood(s, d, bits);
      |heard.shapes| == BANDS && heard.shapes[1].Coded? && heard.shapes[2].Noise?
  {
    EightBitsLeft(s, sent.filter);
    SplitsApart(s.scale);
    NarrowBands();
    FourBitsBuyOnePulse();
    LoudIsLowered();
    EncoderSide(s, sent);
    SideInformationArrives(s, e, d, sent, bits);
    DecoderSide(s, d, bits);
  }

  lemma EightBitsLeft(s: Setting, filter: Filter)
    requires s.bytes == BYTES
    ensures s.Quantum() == 3 && !Allowed(s.bytes) && Spent(s, filter) == 144 && Budget(s, 144) == 8
  {
  }

  lemma EncoderSide(s: Setting, sent: Sent)
    requires s.Valid() && s.bytes == BYTES && Consistent(s, sent) && sent.levels == Loud()
    requires Spent(s, sent.filter) == 144 && Budget(s, 144) == 8
    requires R.Split(s.scale, Loud(), 8)[1] == 0 && R.Split(s.scale, Loud(), 8)[2] == 4
    requires A.Width(1) == 4 && A.Width(2) == 4 && C.Pulses(4, 4) > 0 && C.Pulses(4, 0) == 0
    ensures |sent.shapes| == BANDS && sent.shapes[1].Noise? && sent.shapes[2].Coded?
  {
    hide A.Width;
    hide C.Pulses;
    hide R.Split;
    hide Spent;
    var bits := R.Split(s.scale, Loud(), 8);
    assert Pays(sent.shapes[1], A.Width(1), bits[1]);
    assert Pays(sent.shapes[2], A.Width(2), bits[2]);
  }

  lemma DecoderSide(s: Setting, d: Tracker, bits: seq<bool>)
    requires s.Valid() && |d.previous| == BANDS && LevelsHeard(s, d, bits) == Lowered()
    requires Spent(s, FilterHeard(s, bits)) == 144 && Budget(s, 144) == 8
    requires R.Split(s.scale, Lowered(), 8)[1] == 4 && R.Split(s.scale, Lowered(), 8)[2] == 0
    requires A.Width(1) == 4 && A.Width(2) == 4 && C.Pulses(4, 4) > 0 && C.Pulses(4, 0) == 0
    ensures var heard := Understood(s, d, bits);
      |heard.shapes| == BANDS && heard.shapes[1].Coded? && heard.shapes[2].Noise?
  {
    assert s.scale.Valid() && |Lowered()| == BANDS && forall b :: 0 <= b < BANDS ==> Lowered()[b] < 256;
    hide *;
    UnderstoodShapes(s, d, bits);
    SecondAndThird(R.Split(s.scale, Lowered(), 8), bits, 144);
    assert Understood(s, d, bits).shapes == ShapesAt(R.Split(s.scale, Lowered(), 8), bits, 144, 0);
  }

  lemma SecondAndThird(shares: seq<nat>, bits: seq<bool>, p: nat)
    requires |shares| == BANDS
    ensures |ShapesAt(shares, bits, p, 0)| == BANDS
    ensures ShapesAt(shares, bits, p, 0)[1].Coded? <==> C.Pulses(A.Width(1), shares[1]) > 0
    ensures ShapesAt(shares, bits, p, 0)[2].Noise? <==> C.Pulses(A.Width(2), shares[2]) == 0
  {
    hide A.Width;
    hide C.Pulses;
    hide ShapesAt;
    ShapeKind(shares, bits, p, 0, 1);
    ShapeKind(shares, bits, p, 0, 2);
  }

  lemma UnderstoodShapes(s: Setting, d: Tracker, bits: seq<bool>)
    requires s.Valid() && |d.previous| == BANDS
    ensures var spent := Spent(s, FilterHeard(s, bits));
      Understood(s, d, bits).shapes ==
      ShapesAt(R.Split(s.scale, LevelsHeard(s, d, bits), Budget(s, spent)), bits, spent, 0)
  {
    hide R.Split;
    hide Spent;
    hide Budget;
    hide LevelsHeard;
    hide FilterHeard;
    hide ShapesAt;
  }

  /** A reader finds a shape where a band's share pays for one, whatever the bits. */
  lemma {:induction false} ShapeKind(shares: seq<nat>, bits: seq<bool>, p: nat, b: nat, c: nat)
    requires |shares| == BANDS && b <= c < BANDS
    ensures ShapesAt(shares, bits, p, b)[c - b].Coded? <==> C.Pulses(A.Width(c), shares[c]) > 0
    decreases c - b
  {
    hide *;
    KindOfShape(A.Width(b), shares[b], bits, p);
    ShapesOpen(shares, bits, p, b);
    if b < c {
      ShapeKind(shares, bits, p + ShapeCost(A.Width(b), shares[b]), b + 1, c);
    }
  }

  lemma ShapesOpen(shares: seq<nat>, bits: seq<bool>, p: nat, b: nat)
    requires |shares| == BANDS && b < BANDS
    ensures var n := A.Width(b);
      ShapesAt(shares, bits, p, b) ==
      [ShapeAt(n, shares[b], bits, p)] + ShapesAt(shares, bits, p + ShapeCost(n, shares[b]), b + 1)
  {
    hide A.Width;
    hide ShapeCost;
    hide ShapeAt;
  }

  lemma KindOfShape(n: nat, share: nat, bits: seq<bool>, p: nat)
    ensures ShapeAt(n, share, bits, p).Coded? <==> C.Pulses(n, share) > 0
  {
    hide C.Pulses;
  }
}
