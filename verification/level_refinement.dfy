/** Moving a level towards the shape the decoder will hold, where the bit allocation does not follow. */
module LevelRefinement {
  import opened Common
  import opened DifferentialLevels
  import A = Bands

  const TINY := 0.000000000001

  /** What a rate fixes: the gain each level stands for, and how much each band matters. */
  datatype Scale = Scale(gain: seq<real>, weight: seq<real>) {
    ghost predicate Valid() {
      |gain| == 256 && |weight| == BANDS && forall b :: 0 <= b < BANDS ==> weight[b] > 0.0
    }
  }

  /** A band's coefficients, and the unit shape it will be rebuilt from, if it has one. */
  datatype Band = Band(bins: seq<real>, coded: bool, shape: seq<real>) {
    ghost predicate Valid() { |bins| == |shape| }
  }

  function SquaredError(bins: seq<real>, shape: seq<real>, gain: real): (e: real)
    requires |bins| == |shape|
    ensures e >= 0.0
  {
    if bins == [] then 0.0
    else Squared(bins[0] - gain * shape[0]) + SquaredError(bins[1..], shape[1..], gain)
  }

  function Squared(d: real): (r: real)
    ensures r >= 0.0
  {
    d * d
  }

  function Energy(shape: seq<real>): real {
    if shape == [] then 0.0 else Squared(shape[0]) + Energy(shape[1..])
  }

  /** The distance from the coefficients to the band rebuilt at `level`. */
  function ErrorAt(s: Scale, band: Band, level: nat): (e: real)
    requires s.Valid() && band.Valid() && level < 256
    ensures e >= 0.0
  {
    SquaredError(band.bins, band.shape, s.gain[level])
  }

  function Clamp(x: int, low: int, high: int): (r: int)
    requires low <= high
    ensures low <= r <= high
  {
    if x < low then low else if x > high then high else x
  }

  /** The level `step` quanta away, kept on the scale. */
  function Candidate(here: nat, step: int, q: nat): (level: nat)
    requires IsQuantum(q)
    ensures Emittable(level, q)
  {
    var whole := CodedLevels(q) * q;
    var ceiling := if whole < 256 then whole else 256;
    Coarsen(Clamp(here + step * q, 0, ceiling - 1), q)
  }

  const STEPS := 9

  /** The first of `here` and the first `n` candidates that is nearest. */
  function Nearest(s: Scale, band: Band, here: nat, q: nat, n: nat): (level: nat)
    requires s.Valid() && band.Valid() && IsQuantum(q) && Emittable(here, q)
    ensures Emittable(level, q)
  {
    if n == 0 then here
    else
      var best := Nearest(s, band, here, q, n - 1);
      var candidate := Candidate(here, n - 5, q);
      if candidate != here && ErrorAt(s, band, candidate) < ErrorAt(s, band, best) then candidate else best
  }

  /** No nearer level is among those considered, and a move is a strict gain. */
  lemma {:induction false} NearestIsNearest(s: Scale, band: Band, here: nat, q: nat, n: nat)
    requires s.Valid() && band.Valid() && IsQuantum(q) && Emittable(here, q)
    ensures var level := Nearest(s, band, here, q, n);
      (level == here || ErrorAt(s, band, level) < ErrorAt(s, band, here)) &&
      (forall step :: -4 <= step <= n - 5 ==> ErrorAt(s, band, level) <= ErrorAt(s, band, Candidate(here, step, q))) &&
      (level == here || exists step :: -4 <= step <= n - 5 && level == Candidate(here, step, q))
  {
    hide ErrorAt;
    hide Candidate;
    if n > 0 {
      NearestIsNearest(s, band, here, q, n - 1);
      var best := Nearest(s, band, here, q, n - 1);
      var candidate := Candidate(here, n - 5, q);
      assert ErrorAt(s, band, best) <= ErrorAt(s, band, here);
    }
  }

  /** A level the encoder can hold, four quanta away at most. */
  ghost predicate InReach(here: nat, level: nat, q: nat)
    requires IsQuantum(q)
  {
    Emittable(level, q) && here <= level + 4 * q && level <= here + 4 * q
  }

  lemma CandidateIs(here: nat, step: int, q: nat)
    requires IsQuantum(q)
    ensures Candidate(here, step, q) == Coarsen(Clamp(here + step * q, 0, 191), q)
  {
    hide Coarsen;
    hide Clamp;
    assert CodedLevels(q) * q == 192;
  }

  /** On the scale, a level is its own rounding, and the one below it too when the quantum is coarse. */
  lemma RoundsTo(x: nat, q: nat)
    requires IsQuantum(q) && x < 192 && x % q == 0
    ensures Coarsen(x, q) == x && (q > 1 && x > 0 ==> Coarsen(x - 1, q) == x)
    ensures Coarsen(191, q) == 191
  {
    hide Coarsen;
    if q == 1 {
    } else if q == 2 {
      ByTwos(x, Coarsen(x, 2));
      if x > 0 {
        ByTwos(x, Coarsen(x - 1, 2));
      }
    } else {
      ByThrees(x, Coarsen(x, 3));
      if x > 0 {
        ByThrees(x, Coarsen(x - 1, 3));
      }
    }
  }

  lemma ByTwos(x: nat, r: nat)
    requires x % 2 == 0 && r % 2 == 0 && x < r + 2 && r < x + 2
    ensures r == x
  {
  }

  lemma ByThrees(x: nat, r: nat)
    requires x % 3 == 0 && r % 3 == 0 && x < r + 3 && r < x + 3
    ensures r == x
  {
  }

  /** From one multiple to another. */
  lemma StepOnScale(h: nat, m: nat, q: nat)
    requires IsQuantum(q) && m * q < 192 && -4 <= m - h <= 4
    ensures Candidate(h * q, m - h, q) == m * q
  {
    hide *;
    Distance(h, m, q);
    StepTo(h * q, m - h, m * q, q);
  }

  lemma StepTo(here: nat, step: int, level: nat, q: nat)
    requires IsQuantum(q) && here + step * q == level < 192 && level % q == 0
    ensures Candidate(here, step, q) == level
  {
    hide *;
    CandidateIs(here, step, q);
    OnScale(here + step * q, level);
    RoundsTo(level, q);
  }

  lemma OnScale(x: int, y: nat)
    requires x == y < 192
    ensures Clamp(x, 0, 191) == y
  {
  }

  lemma Distance(h: nat, m: nat, q: nat)
    requires IsQuantum(q)
    ensures h * q + (m - h) * q == m * q && (m * q) % q == 0
    ensures m * q <= h * q + 4 * q ==> m - h <= 4
    ensures h * q <= m * q + 4 * q ==> h - m <= 4
  {
    if q == 1 {
    } else if q == 2 {
    } else {
    }
  }

  /** From a multiple up to the clamped top. */
  lemma StepToTop(h: nat, top: nat, q: nat)
    requires 2 <= q <= 3 && top * q == 192 && h < top
    ensures Candidate(h * q, top - h, q) == 191
    ensures 191 <= h * q + 4 * q ==> top - h <= 4
  {
    hide Candidate;
    hide Coarsen;
    CandidateIs(h * q, top - h, q);
    Distance(h, top, q);
    RoundsTo(0, q);
  }

  /** And from there down to a multiple. */
  lemma StepFromTop(m: nat, top: nat, q: nat)
    requires 2 <= q <= 3 && top * q == 192 && 0 < m < top
    ensures Candidate(191, m - top, q) == m * q
    ensures 191 <= m * q + 4 * q ==> top - m <= 4
  {
    hide Candidate;
    hide Coarsen;
    CandidateIs(191, m - top, q);
    Distance(top, m, q);
    Fewer(m, top, q);
    RoundsTo(m * q, q);
  }

  lemma Fewer(m: nat, top: nat, q: nat)
    requires 2 <= q <= 3 && top * q == 192 && 0 < m < top
    ensures 0 < m * q < 192 && 191 + (m - top) * q == m * q - 1
  {
    if q == 2 {
    } else {
    }
  }

  /** Every level in reach is a candidate. */
  lemma ReachedByStep(here: nat, level: nat, q: nat) returns (step: int)
    requires IsQuantum(q) && Emittable(here, q) && InReach(here, level, q)
    ensures -4 <= step <= 4
    ensures level == here || Candidate(here, step, q) == level
  {
    hide *;
    Within(here, level, q);
    var h, hereOn := Place(here, q);
    var m, levelOn := Place(level, q);
    var top := Top(q);
    step := 0;
    if level != here {
      if levelOn && hereOn {
        Distance(h, m, q);
        StepOnScale(h, m, q);
        step := m as int - h as int;
      } else if hereOn {
        Smaller(h, top, q);
        StepToTop(h, top, q);
        step := top as int - h as int;
      } else {
        Smaller(m, top, q);
        StepFromTop(m, top, q);
        step := m as int - top as int;
      }
    }
  }

  lemma Smaller(m: nat, top: nat, q: nat)
    requires 1 <= q <= 3 && m * q < 192 == top * q
    ensures m < top && (m * q > 0 ==> m > 0)
  {
  }

  lemma Top(q: nat) returns (top: nat)
    requires IsQuantum(q)
    ensures top * q == 192 && 1 <= q <= 3
  {
    top := 192 / q;
    if q == 1 {
    } else if q == 2 {
    } else {
    }
  }

  /** A level is a multiple of the quantum, or the top of a coarse scale. */
  lemma Place(level: nat, q: nat) returns (m: nat, onScale: bool)
    requires IsQuantum(q) && Emittable(level, q)
    ensures onScale ==> level == m * q < 192
    ensures !onScale ==> level == 191 && q > 1
  {
    onScale := level % q == 0;
    m := level / q;
  }

  lemma Within(here: nat, level: nat, q: nat)
    requires IsQuantum(q) && InReach(here, level, q)
    ensures Emittable(level, q) && here <= level + 4 * q && level <= here + 4 * q && q > 0
    ensures level > 0 || here <= 4 * q < 191
  {
  }

  /** And nothing else is. */
  lemma CandidateInReach(here: nat, q: nat, step: int)
    requires IsQuantum(q) && Emittable(here, q) && -4 <= step <= 4
    ensures InReach(here, Candidate(here, step, q), q)
  {
    hide Candidate;
    hide Clamp;
    hide Coarsen;
    CandidateIs(here, step, q);
    Nearby(here, step, q);
  }

  lemma Nearby(here: nat, step: int, q: nat)
    requires IsQuantum(q) && Emittable(here, q) && -4 <= step <= 4
    ensures var level := Coarsen(Clamp(here + step * q, 0, 191), q);
      Emittable(level, q) && here <= level + 4 * q && level <= here + 4 * q
  {
    hide Coarsen;
    if q == 1 {
    } else if q == 2 {
    } else {
    }
  }

  lemma CandidatesClimb(here: nat, a: int, b: int, q: nat)
    requires IsQuantum(q) && a <= b
    ensures Candidate(here, a, q) <= Candidate(here, b, q)
  {
    hide Candidate;
    CandidateIs(here, a, q);
    CandidateIs(here, b, q);
    assert here + a * q <= here + b * q;
    RoundingClimbs(Clamp(here + a * q, 0, 191), Clamp(here + b * q, 0, 191), q);
  }

  lemma RoundingClimbs(x: nat, y: nat, q: nat)
    requires IsQuantum(q) && x <= y
    ensures Coarsen(x, q) <= Coarsen(y, q)
  {
    var a, b := (x + q / 2) / q, (y + q / 2) / q;
    assert Coarsen(x, q) == if a * q < 192 then a * q else 191;
    assert Coarsen(y, q) == if b * q < 192 then b * q else 191;
    hide Coarsen;
    QuotientClimbs(x + q / 2, y + q / 2, q);
  }

  lemma QuotientClimbs(x: nat, y: nat, q: nat)
    requires IsQuantum(q) && x <= y
    ensures x / q * q <= y / q * q
  {
    if q == 1 {
    } else if q == 2 {
    } else {
    }
  }

  /**
   * The level in reach at which the shape is nearest to the coefficients: the
   * one the band stands at if none is strictly nearer, and otherwise the lowest
   * of the nearest.
   */
  ghost predicate BestInReach(s: Scale, band: Band, here: nat, q: nat, level: nat)
    requires s.Valid() && band.Valid() && IsQuantum(q) && Emittable(here, q)
  {
    InReach(here, level, q) &&
    (forall l: nat :: InReach(here, l, q) ==> ErrorAt(s, band, level) <= ErrorAt(s, band, l)) &&
    (level != here ==> forall l: nat :: InReach(here, l, q) && (l < level || l == here) ==> ErrorAt(s, band, level) < ErrorAt(s, band, l))
  }

  lemma BestOnce(s: Scale, band: Band, here: nat, q: nat, a: nat, b: nat)
    requires s.Valid() && band.Valid() && IsQuantum(q) && Emittable(here, q)
    requires BestInReach(s, band, here, q, a) && BestInReach(s, band, here, q, b)
    ensures a == b
  {
    hide ErrorAt;
    assert InReach(here, here, q);
  }

  /** A move is to the first candidate that is nearest. */
  lemma {:induction false} NearestIsFirst(s: Scale, band: Band, here: nat, q: nat, n: nat)
    requires s.Valid() && band.Valid() && IsQuantum(q) && Emittable(here, q)
    requires Nearest(s, band, here, q, n) != here
    ensures var level := Nearest(s, band, here, q, n);
      exists step :: -4 <= step <= n - 5 && level == Candidate(here, step, q) &&
        forall earlier :: -4 <= earlier < step ==> ErrorAt(s, band, level) < ErrorAt(s, band, Candidate(here, earlier, q))
  {
    hide ErrorAt;
    hide Candidate;
    var level := Nearest(s, band, here, q, n);
    if level == Nearest(s, band, here, q, n - 1) {
      NearestIsFirst(s, band, here, q, n - 1);
    } else {
      NearestIsNearest(s, band, here, q, n - 1);
      assert level == Candidate(here, n - 5, q);
    }
  }

  lemma NearestIsBest(s: Scale, band: Band, here: nat, q: nat)
    requires s.Valid() && band.Valid() && IsQuantum(q) && Emittable(here, q)
    ensures BestInReach(s, band, here, q, Nearest(s, band, here, q, STEPS))
  {
    hide ErrorAt;
    hide Candidate;
    hide Nearest;
    hide InReach;
    var level := Nearest(s, band, here, q, STEPS);
    NearestIsNearest(s, band, here, q, STEPS);
    StandsInReach(here, q);
    if level != here {
      NearestIsFirst(s, band, here, q, STEPS);
      var at :| -4 <= at <= 4 && level == Candidate(here, at, q) &&
        forall earlier :: -4 <= earlier < at ==> ErrorAt(s, band, level) < ErrorAt(s, band, Candidate(here, earlier, q));
      CandidateInReach(here, q, at);
      forall l: nat | InReach(here, l, q) && l < 256 && l < level && l != here ensures ErrorAt(s, band, level) < ErrorAt(s, band, l) {
        var step := ReachedByStep(here, l, q);
        if step >= at {
          CandidatesClimb(here, at, step, q);
        }
      }
    }
    forall l: nat | InReach(here, l, q) && l < 256 ensures ErrorAt(s, band, level) <= ErrorAt(s, band, l) {
      var step := ReachedByStep(here, l, q);
    }
    ReachIsLow(here, q);
  }

  lemma StandsInReach(here: nat, q: nat)
    requires IsQuantum(q) && Emittable(here, q)
    ensures InReach(here, here, q)
  {
  }

  lemma ReachIsLow(here: nat, q: nat)
    requires IsQuantum(q)
    ensures forall l: nat :: InReach(here, l, q) ==> l < 256
  {
  }

  // --- the allocation the levels imply ---

  function Heard(s: Scale, levels: seq<nat>): (sp: A.Spectrum)
    requires s.Valid() && |levels| == BANDS && forall b :: 0 <= b < BANDS ==> levels[b] < 256
    ensures sp.Valid()
  {
    A.Spectrum(seq(BANDS, b requires 0 <= b < BANDS => s.gain[levels[b]]), s.weight)
  }

  /** How a decoder holding `levels` splits `budget` bits across the bands. */
  function Split(s: Scale, levels: seq<nat>, budget: nat): (bits: seq<nat>)
    requires s.Valid() && |levels| == BANDS && forall b :: 0 <= b < BANDS ==> levels[b] < 256
    ensures |bits| == BANDS
  {
    A.Allocation(Heard(s, levels), budget)
  }

  /** A refinement under way. */
  datatype Task = Task(scale: Scale, bands: seq<Band>, q: nat, budget: nat) {
    ghost predicate Valid() {
      scale.Valid() && IsQuantum(q) && |bands| == BANDS && forall b :: 0 <= b < BANDS ==> bands[b].Valid()
    }
  }

  function Wanted(t: Task, b: nat, here: nat): (level: nat)
    requires t.Valid() && b < BANDS && Emittable(here, t.q)
    ensures Emittable(level, t.q)
  {
    var band := t.bands[b];
    if !band.coded || Energy(band.shape) <= TINY then here
    else Nearest(t.scale, band, here, t.q, STEPS)
  }

  function RefineBand(t: Task, levels: seq<nat>, allocation: seq<nat>, b: nat): (r: seq<nat>)
    requires t.Valid() && Levels(levels, t.q) && b < BANDS
    ensures Levels(r, t.q)
  {
    var wanted := Wanted(t, b, levels[b]);
    var trial := levels[b := wanted];
    if wanted != levels[b] && Split(t.scale, trial, t.budget) == allocation then trial else levels
  }

  function Refined(t: Task, levels: seq<nat>, allocation: seq<nat>, n: nat): (r: seq<nat>)
    requires t.Valid() && Levels(levels, t.q) && n <= BANDS
    ensures Levels(r, t.q)
    decreases n, levels
  {
    if n == 0 then levels else RefineBand(t, Refined(t, levels, allocation, n - 1), allocation, n - 1)
  }

  /** Bands from `n` on have not moved; below it each stands where it was or where it wanted to be. */
  lemma {:induction false} RefinedBelow(t: Task, levels: seq<nat>, allocation: seq<nat>, n: nat)
    requires t.Valid() && Levels(levels, t.q) && n <= BANDS
    ensures var r := Refined(t, levels, allocation, n);
      (forall b :: n <= b < BANDS ==> r[b] == levels[b]) &&
      forall b :: 0 <= b < n ==> r[b] == levels[b] || r[b] == Wanted(t, b, levels[b])
    decreases n
  {
    hide Wanted;
    hide Split;
    if n > 0 {
      RefinedBelow(t, levels, allocation, n - 1);
    }
  }

  /** A refinement that starts from the split it was given ends with the same split. */
  lemma {:induction false} RefinedKeepsSplit(t: Task, levels: seq<nat>, allocation: seq<nat>, n: nat)
    requires t.Valid() && Levels(levels, t.q) && n <= BANDS
    requires Split(t.scale, levels, t.budget) == allocation
    ensures Split(t.scale, Refined(t, levels, allocation, n), t.budget) == allocation
    decreases n
  {
    hide Wanted;
    hide Split;
    if n > 0 {
      RefinedKeepsSplit(t, levels, allocation, n - 1);
    }
  }

  /** No band ends further from its coefficients than it started, and one that moved is strictly nearer. */
  lemma NeverWorse(t: Task, levels: seq<nat>, allocation: seq<nat>, b: nat)
    requires t.Valid() && Levels(levels, t.q) && b < BANDS
    ensures var r := Refined(t, levels, allocation, BANDS)[b];
      var band := t.bands[b];
      (r != levels[b] ==> band.coded && ErrorAt(t.scale, band, r) < ErrorAt(t.scale, band, levels[b])) &&
      ErrorAt(t.scale, band, r) <= ErrorAt(t.scale, band, levels[b])
  {
    hide Nearest;
    hide ErrorAt;
    hide Refined;
    RefinedBelow(t, levels, allocation, BANDS);
    NearestIsNearest(t.scale, t.bands[b], levels[b], t.q, STEPS);
  }

  /** A band that stayed put although a nearer level was in reach would have changed the split. */
  lemma StaysForTheSplit(t: Task, levels: seq<nat>, allocation: seq<nat>, b: nat, step: int)
    requires t.Valid() && Levels(levels, t.q) && b < BANDS && -4 <= step <= 4
    requires t.bands[b].coded && Energy(t.bands[b].shape) > TINY
    ensures var r := Refined(t, levels, allocation, BANDS)[b];
      var before := Refined(t, levels, allocation, b);
      var band := t.bands[b];
      ErrorAt(t.scale, band, Candidate(levels[b], step, t.q)) < ErrorAt(t.scale, band, r) ==>
        Split(t.scale, before[b := Wanted(t, b, levels[b])], t.budget) != allocation
  {
    hide Nearest;
    hide ErrorAt;
    hide Split;
    hide Candidate;
    RefinedBelow(t, levels, allocation, b);
    RefinedStays(t, levels, allocation, b, BANDS);
    NearestIsNearest(t.scale, t.bands[b], levels[b], t.q, STEPS);
  }

  /** Once passed, a band is not touched again. */
  lemma {:induction false} RefinedStays(t: Task, levels: seq<nat>, allocation: seq<nat>, b: nat, n: nat)
    requires t.Valid() && Levels(levels, t.q) && b < n <= BANDS
    ensures Refined(t, levels, allocation, n)[b] ==
      RefineBand(t, Refined(t, levels, allocation, b), allocation, b)[b]
    decreases n
  {
    hide Wanted;
    hide Split;
    if b < n - 1 {
      RefinedStays(t, levels, allocation, b, n - 1);
    }
  }

  /** The levels as they stood when band `b` was reached, with the move it was offered. */
  function Moved(r: seq<nat>, levels: seq<nat>, b: nat, level: nat, q: nat): (moved: seq<nat>)
    requires IsQuantum(q) && Levels(r, q) && Levels(levels, q) && b < BANDS && Emittable(level, q)
    ensures Levels(moved, q)
  {
    r[..b] + [level] + levels[b + 1..]
  }

  /**
   * A band that was coded stands at the best level in reach if moving it there,
   * from the levels as they stood when it was reached, leaves the split as it
   * was; and where it was measured otherwise, as does a band that was not coded.
   */
  ghost predicate Settled(t: Task, levels: seq<nat>, allocation: seq<nat>, r: seq<nat>)
    requires t.Valid() && Levels(levels, t.q) && Levels(r, t.q)
  {
    forall b: nat, best: nat :: b < BANDS && BestInReach(t.scale, t.bands[b], levels[b], t.q, best) ==>
      r[b] == Placed(t, levels, allocation, r, b, best)
  }

  /** What a refinement comes to: every band where the loop's own rule puts it, and no other way. */
  lemma RefinedSettles(t: Task, levels: seq<nat>, allocation: seq<nat>)
    requires t.Valid() && Levels(levels, t.q)
    ensures Settled(t, levels, allocation, Refined(t, levels, allocation, BANDS))
  {
    hide ErrorAt;
    hide Refined;
    hide Energy;
    hide Split;
    hide Moved;
    var r := Refined(t, levels, allocation, BANDS);
    forall b: nat, best: nat | b < BANDS && BestInReach(t.scale, t.bands[b], levels[b], t.q, best)
      ensures r[b] == Placed(t, levels, allocation, r, b, best)
    {
      BandSettles(t, levels, allocation, b, best);
    }
  }

  function Placed(t: Task, levels: seq<nat>, allocation: seq<nat>, r: seq<nat>, b: nat, best: nat): nat
    requires t.Valid() && Levels(levels, t.q) && Levels(r, t.q) && b < BANDS && Emittable(best, t.q)
  {
    if t.bands[b].coded && Energy(t.bands[b].shape) > 0.000000000001 &&
       Split(t.scale, Moved(r, levels, b, best, t.q), t.budget) == allocation
    then best else levels[b]
  }

  lemma BandSettles(t: Task, levels: seq<nat>, allocation: seq<nat>, b: nat, best: nat)
    requires t.Valid() && Levels(levels, t.q) && b < BANDS && Emittable(best, t.q)
    requires BestInReach(t.scale, t.bands[b], levels[b], t.q, best)
    ensures var r := Refined(t, levels, allocation, BANDS);
      r[b] == Placed(t, levels, allocation, r, b, best)
  {
    hide BestInReach;
    hide Nearest;
    hide Refined;
    hide RefineBand;
    hide Placed;
    hide Moved;
    hide Emittable;
    NearestIsBest(t.scale, t.bands[b], levels[b], t.q);
    BestOnce(t.scale, t.bands[b], levels[b], t.q, best, Nearest(t.scale, t.bands[b], levels[b], t.q, STEPS));
    RefinedBelow(t, levels, allocation, b);
    RefinedStays(t, levels, allocation, b, BANDS);
    MovedFrom(t, levels, allocation, b, best);
    OneBand(t, levels, allocation, Refined(t, levels, allocation, b), Refined(t, levels, allocation, BANDS), b, best);
  }

  lemma OneBand(t: Task, levels: seq<nat>, allocation: seq<nat>, before: seq<nat>, r: seq<nat>, b: nat, best: nat)
    requires t.Valid() && Levels(levels, t.q) && Levels(before, t.q) && Levels(r, t.q) && b < BANDS && Emittable(best, t.q)
    requires before[b] == levels[b] && best == Nearest(t.scale, t.bands[b], levels[b], t.q, STEPS)
    requires before[b := best] == Moved(r, levels, b, best, t.q)
    ensures RefineBand(t, before, allocation, b)[b] == Placed(t, levels, allocation, r, b, best)
  {
    hide Nearest;
    hide Energy;
    hide Split;
    hide Moved;
  }

  lemma MovedFrom(t: Task, levels: seq<nat>, allocation: seq<nat>, b: nat, best: nat)
    requires t.Valid() && Levels(levels, t.q) && b < BANDS && Emittable(best, t.q)
    ensures Refined(t, levels, allocation, b)[b := best] == Moved(Refined(t, levels, allocation, BANDS), levels, b, best, t.q)
  {
    hide Refined;
    hide RefineBand;
    hide Wanted;
    hide Emittable;
    var before, r := Refined(t, levels, allocation, b), Refined(t, levels, allocation, BANDS);
    RefinedBelow(t, levels, allocation, b);
    forall c | 0 <= c < b ensures r[c] == before[c] {
      RefinedStays(t, levels, allocation, c, BANDS);
      RefinedStays(t, levels, allocation, c, b);
    }
  }

  // --- the loops ---

  method RefineLevels(t: Task, measured: seq<nat>, allocation: seq<nat>) returns (levels: seq<nat>)
    requires t.Valid() && Levels(measured, t.q)
    ensures levels == Refined(t, measured, allocation, BANDS)
    ensures Settled(t, measured, allocation, levels)
  {
    hide Settled;
    hide Nearest;
    hide ErrorAt;
    hide Candidate;
    hide Split;
    hide Energy;
    RefinedSettles(t, measured, allocation);
    levels := measured;
    for b := 0 to BANDS
      invariant levels == Refined(t, measured, allocation, b)
    {
      var band := t.bands[b];
      if band.coded && !(Energy(band.shape) <= TINY) {
        var bestAt := BestLevel(t, band, levels[b]);
        if bestAt != levels[b] {
          var trial := levels[b := bestAt];
          var split := A.Allocate(Heard(t.scale, trial), t.budget);
          SplitIs(t.scale, trial, t.budget);
          if split == allocation {
            levels := trial;
          }
        }
      }
    }
  }

  lemma SplitIs(s: Scale, levels: seq<nat>, budget: nat)
    requires s.Valid() && |levels| == BANDS && forall b :: 0 <= b < BANDS ==> levels[b] < 256
    ensures Split(s, levels, budget) == A.Allocation(Heard(s, levels), budget)
  {
  }

  method BestLevel(t: Task, band: Band, here: nat) returns (bestAt: nat)
    requires t.Valid() && band.Valid() && Emittable(here, t.q)
    ensures bestAt == Nearest(t.scale, band, here, t.q, STEPS)
    ensures Emittable(bestAt, t.q)
  {
    hide ErrorAt;
    hide Candidate;
    bestAt := here;
    var best := ErrorAt(t.scale, band, here);
    for step := -4 to 5
      invariant bestAt == Nearest(t.scale, band, here, t.q, step + 4)
      invariant best == ErrorAt(t.scale, band, bestAt)
    {
      var candidate := Candidate(here, step, t.q);
      if candidate != here {
        var e := ErrorAt(t.scale, band, candidate);
        if e < best {
          best := e;
          bestAt := candidate;
        }
      }
    }
  }
}
