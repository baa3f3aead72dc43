/** What an encoder decides for a frame at a fixed rate, without saying how it comes to decide it. */
module TelyxChoice {
  import opened Common
  import opened DifferentialLevels
  import opened Shaping
  import opened Telyx
  import A = Bands
  import C = PvqCount
  import I = PvqIndex
  import Q = PvqSearch
  import R = LevelRefinement

  /** A band's coefficients in units of its gain; nothing when the gain is nothing. */
  ghost predicate UnitOf(t: seq<real>, bins: seq<real>, gain: real) {
    |t| == |bins| && forall i :: 0 <= i < |t| ==> if gain > 0.000000001 then t[i] * gain == bins[i] else t[i] == 0.0
  }

  /** What a band is sent as: the pulses it can pay for, searched out, or nothing. */
  ghost predicate ShapeFor(bins: seq<real>, gain: real, k: nat, shape: Shape) {
    if k == 0 then shape.Noise?
    else shape.Coded? && exists t :: UnitOf(t, bins, gain) && Q.Searched(t, k, shape.y)
  }

  /** What a band will be rebuilt from at the other end. */
  ghost predicate BandFor(s: Setting, bins: seq<real>, shape: Shape, band: R.Band) {
    band.bins == bins && band.coded == shape.Coded? &&
    (shape.Coded? ==>
       |band.shape| == |shape.y| &&
       forall i :: 0 <= i < |shape.y| ==> band.shape[i] == shape.y[i] as real * s.unit(|shape.y|, Q.Squares(shape.y)))
  }

  ghost predicate TaskFor(s: Setting, input: Input, shapes: seq<Shape>, budget: nat, task: R.Task)
    requires input.Valid()
  {
    task.scale == s.scale && task.q == s.Quantum() && task.budget == budget && |task.bands| == |shapes| == BANDS &&
    forall b :: 0 <= b < BANDS ==> BandFor(s, input.bins[b], shapes[b], task.bands[b])
  }

  /** Bits a frame has over, once the filter and the levels are paid for. */
  function Over(bytes: nat, taps: nat): nat {
    var filter := if bytes < 30 then 0 else if taps == 0 then 1 else 4 + 4 * taps;
    var levels := 24 * if bytes <= 44 then 6 else if bytes <= 59 then 7 else 8;
    if filter + levels <= 8 * bytes then 8 * bytes - (filter + levels) else 0
  }

  /**
   * The filter goes along from 30 bytes up. The bits over are split by the
   * rounded levels, every band that can pay for a pulse is searched for, and then
   * every coded band's level moves to the best in reach that leaves the split.
   */
  ghost predicate MadeFor(s: Setting, input: Input, sent: Sent)
    requires s.Valid() && input.Valid()
  {
    sent.filter == (if s.bytes >= 30 then input.filter else Filter([])) &&
    Levels(sent.levels, s.Quantum()) && |sent.shapes| == BANDS &&
    var rounded := Rounded(s, input);
    var budget := Over(s.bytes, |sent.filter.indices|);
    var bits := R.Split(s.scale, rounded, budget);
    (forall b :: 0 <= b < BANDS ==> rounded[b] == Coarsen(input.measured[b], s.Quantum())) &&
    (forall b :: 0 <= b < BANDS ==>
       ShapeFor(input.bins[b], s.scale.gain[rounded[b]], C.Pulses(|input.bins[b]|, bits[b]), sent.shapes[b])) &&
    exists task: R.Task :: task.Valid() && TaskFor(s, input, sent.shapes, budget, task) &&
      R.Settled(task, rounded, bits, sent.levels)
  }

  lemma UnitIs(bins: seq<real>, gain: real)
    ensures UnitOf(Normalised(bins, gain), bins, gain)
  {
    forall i | 0 <= i < |bins| && gain > 0.000000001 ensures Normalised(bins, gain)[i] * gain == bins[i] {
      Undivided(bins[i], gain);
    }
  }

  lemma Undivided(x: real, g: real)
    requires g > 0.0
    ensures x / g * g == x
  {
  }

  lemma ShapeIs(bins: seq<real>, gain: real, bits: nat)
    requires |bins| > 0
    ensures ShapeFor(bins, gain, C.Pulses(|bins|, bits), Quantised(bins, gain, bits))
    ensures Quantised(bins, gain, bits).Coded? ==> |Quantised(bins, gain, bits).y| == |bins|
  {
    hide C.Pulses;
    hide Q.Chosen;
    hide Q.Searched;
    hide Q.NoneShort;
    hide Normalised;
    hide UnitOf;
    var k := C.Pulses(|bins|, bits);
    UnitIs(bins, gain);
    if k > 0 {
      Q.ChosenIsSearched(Normalised(bins, gain), k);
    }
  }

  lemma BandIs(s: Setting, bins: seq<real>, shape: Shape)
    requires shape.Coded? ==> |shape.y| == |bins|
    ensures BandFor(s, bins, shape, Rebuilt(s, bins, shape))
  {
    if shape.Coded? {
      hide UnitShape;
      hide Q.Squares;
      hide Scaled;
      UnitShapeIs(s, shape.y);
      var unit := s.unit(|shape.y|, Q.Squares(shape.y));
      forall i | 0 <= i < |shape.y| ensures UnitShape(s, shape.y)[i] == shape.y[i] as real * unit {
        ScaledIs(shape.y[i], unit);
      }
    }
  }

  lemma ScaledIs(pulses: int, scale: real)
    ensures Scaled(pulses, scale) == pulses as real * scale
  {
  }

  lemma UnitShapeIs(s: Setting, y: seq<int>)
    ensures forall i :: 0 <= i < |y| ==> UnitShape(s, y)[i] == Scaled(y[i], s.unit(|y|, Q.Squares(y)))
  {
    hide Q.Squares;
    hide Scaled;
    var scale := if Q.Squares(y) == 0 then 0.0 else s.unit(|y|, Q.Squares(y));
    assert forall i :: 0 <= i < |y| ==> UnitShape(s, y)[i] == Scaled(y[i], scale);
    hide UnitShape;
    if Q.Squares(y) == 0 {
      NothingThere(y);
    }
    forall i | 0 <= i < |y| ensures UnitShape(s, y)[i] == Scaled(y[i], s.unit(|y|, Q.Squares(y))) {
      SameProduct(y[i], scale, s.unit(|y|, Q.Squares(y)));
    }
  }

  lemma SameProduct(q: int, scale: real, unit: real)
    requires q == 0 || scale == unit
    ensures Scaled(q, scale) == Scaled(q, unit)
  {
  }

  lemma {:induction false} NothingThere(y: seq<int>)
    requires Q.Squares(y) == 0
    ensures forall i :: 0 <= i < |y| ==> y[i] == 0
  {
    if y != [] {
      NothingThere(y[1..]);
    }
  }

  lemma BudgetIs(s: Setting, filter: Filter)
    requires !Allowed(s.bytes) ==> filter == Filter([])
    ensures Budget(s, Spent(s, filter)) == Over(s.bytes, |filter.indices|)
  {
    hide LevelBits;
    hide C.Pow2;
  }

  /** The encoder's choice for any frame is the one that rule makes. */
  lemma ChoiceIsMade(s: Setting, input: Input)
    requires s.Valid() && input.Valid()
    ensures MadeFor(s, input, Choose(s, input))
  {
    hide ShapeFor;
    hide BandFor;
    hide Quantised;
    hide Rebuilt;
    hide R.Split;
    hide R.Settled;
    hide R.Refined;
    hide Budget;
    hide Spent;
    hide Over;
    hide Coarsen;
    hide C.Pulses;
    hide AllPay;
    var sent := Choose(s, input);
    var rounded := Rounded(s, input);
    BudgetIs(s, sent.filter);
    var budget := Budget(s, Spent(s, sent.filter));
    var bits := Split(s, rounded, budget);
    ShapesPay(s, input, rounded, bits);
    forall b | 0 <= b < BANDS
      ensures sent.shapes[b].Coded? ==> |sent.shapes[b].y| == |input.bins[b]|
      ensures ShapeFor(input.bins[b], s.scale.gain[rounded[b]], C.Pulses(|input.bins[b]|, bits[b]), sent.shapes[b])
      ensures BandFor(s, input.bins[b], sent.shapes[b], Rebuilt(s, input.bins[b], sent.shapes[b]))
    {
      ShapeIs(input.bins[b], s.scale.gain[rounded[b]], bits[b]);
      BandIs(s, input.bins[b], sent.shapes[b]);
    }
    R.RefinedSettles(TaskOf(s, input, sent.shapes, budget), rounded, bits);
  }
}
