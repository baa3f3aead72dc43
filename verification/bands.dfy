/** Splitting a bit budget across bands: an order that ignores the budget, and what of it fits. */
module Bands {
  import Bytes
  import opened Common

  const EDGES: seq<nat> := [0, 4, 8, 12, 16, 20, 24, 28, 32, 40, 48, 56, 68, 80, 96, 120, 152, 192, 240, 300, 380, 480, 600, 760, 960]
  const MAX_RATE := 12
  const SILENCE := 0.00001

  /** Bins in band `b`; a bit per coefficient costs this many bits. */
  function Width(b: nat): (w: nat)
    requires b < BANDS
    ensures 4 <= w <= 200
  {
    EDGES[b + 1] - EDGES[b]
  }

  /** The bands lie end to end over 960 bins, four of them wide at the bottom and 200 at the top. */
  lemma BandsTile(b: nat)
    requires b < BANDS
    ensures EDGES[0] == 0 && EDGES[24] == 960 && EDGES[b + 1] == EDGES[b] + Width(b)
    ensures Width(b) ==
      if b < 8 then 4 else if b < 11 then 8 else if b < 13 then 12 else if b < 17 then 8 * (b - 11)
      else if b == 17 then 48 else if b == 18 then 60 else if b < 22 then 20 * (b - 15) else 40 * (b - 18)
  {
  }

  /** A spectrum: what each band measures, and how much the ear cares. */
  datatype Spectrum = Spectrum(energies: seq<real>, weight: seq<real>) {
    ghost predicate Valid() {
      |energies| == BANDS && |weight| == BANDS && forall b :: 0 <= b < BANDS ==> weight[b] > 0.0
    }
  }

  function Awake(s: Spectrum, b: nat): bool
    requires s.Valid() && b < BANDS
  {
    s.energies[b] >= SILENCE
  }

  function Quarter(rate: nat): (q: real)
    ensures q > 0.0
  {
    if rate == 0 then 1.0 else Quarter(rate - 1) / 4.0
  }

  /** What the next bit per coefficient is worth in band `b`. */
  function Value(s: Spectrum, b: nat, rate: nat): (v: real)
    requires s.Valid() && b < BANDS
  {
    if s.energies[b] < SILENCE || rate >= MAX_RATE then 0.0
    else s.weight[b] * s.energies[b] * s.energies[b] * Quarter(rate)
  }

  lemma Positive(a: real, b: real)
    requires a > 0.0 && b > 0.0
    ensures a * b > 0.0
  {
  }

  /** An increment is worth something exactly while an awake band is below its ceiling. */
  lemma Worthwhile(s: Spectrum, b: nat, rate: nat)
    requires s.Valid() && b < BANDS
    ensures Value(s, b, rate) >= 0.0
    ensures Value(s, b, rate) > 0.0 <==> Awake(s, b) && rate < MAX_RATE
  {
    if Awake(s, b) && rate < MAX_RATE {
      var e := s.energies[b];
      Positive(s.weight[b], e);
      Positive(s.weight[b] * e, e);
      Positive(s.weight[b] * e * e, Quarter(rate));
    }
  }

  /** And worth no more the second time. */
  lemma Diminishing(s: Spectrum, b: nat, rate: nat)
    requires s.Valid() && b < BANDS
    ensures Value(s, b, rate + 1) <= Value(s, b, rate)
  {
    Worthwhile(s, b, rate);
    if Awake(s, b) && rate + 1 < MAX_RATE {
      var e := s.energies[b];
      var w := s.weight[b] * e * e;
      QuarterOf(w, Quarter(rate));
    }
  }

  /**
   * The distortion in a band falls as its weighted energy squared over four to
   * the bits a coefficient has: each increment buys a quarter of the one before,
   * up to the twelfth, and a band below the threshold buys nothing.
   */
  lemma ValueFalls(s: Spectrum, b: nat, rate: nat)
    requires s.Valid() && b < BANDS
    ensures s.energies[b] < 0.00001 || rate >= 12 ==> Value(s, b, rate) == 0.0
    ensures s.energies[b] >= 0.00001 ==> Value(s, b, 0) == Loudness(s, b)
    ensures s.energies[b] >= 0.00001 && rate < 11 ==> 4.0 * Value(s, b, rate + 1) == Value(s, b, rate)
  {
    var w := s.weight[b] * s.energies[b] * s.energies[b];
    QuarterOf(w, Quarter(rate));
    assert w * 1.0 == w;
  }

  /** A band's energy squared, as the ear weighs it. */
  function Loudness(s: Spectrum, b: nat): real
    requires s.Valid() && b < BANDS
  {
    s.weight[b] * s.energies[b] * s.energies[b]
  }

  function Four(n: nat): (p: nat)
    ensures p > 0
  {
    if n == 0 then 1 else 4 * Four(n - 1)
  }

  lemma {:induction false} ValueIsLoudness(s: Spectrum, b: nat, rate: nat)
    requires s.Valid() && b < BANDS && Awake(s, b) && rate < MAX_RATE
    ensures Four(rate) as real * Value(s, b, rate) == Loudness(s, b)
  {
    FourIs(rate);
    assert s.energies[b] >= 0.00001 && MAX_RATE == 12;
    hide *;
    ValueFalls(s, b, 0);
    if rate > 0 {
      ValueIsLoudness(s, b, rate - 1);
      ValueFalls(s, b, rate - 1);
      FourTimes(Four(rate - 1) as real, Value(s, b, rate), Value(s, b, rate - 1));
    }
  }

  lemma FourIs(n: nat)
    ensures if n == 0 then Four(n) == 1 else Four(n) as real == 4.0 * Four(n - 1) as real
  {
  }

  lemma FourTimes(p: real, v: real, u: real)
    requires 4.0 * v == u
    ensures (4.0 * p) * v == p * u
  {
  }

  lemma QuarterOf(w: real, q: real)
    ensures w * (q / 4.0) == w * q / 4.0
  {
  }

  // --- the order of increments ---

  ghost predicate IsPlan(plan: seq<nat>) {
    |plan| == BANDS && forall b :: 0 <= b < BANDS ==> plan[b] <= MAX_RATE
  }

  /** The first of the bands below `n` whose next increment is worth most, if any is worth anything. */
  function Best(s: Spectrum, plan: seq<nat>, n: nat): (best: int)
    requires s.Valid() && |plan| == BANDS && n <= BANDS
    ensures -1 <= best < n
  {
    if n == 0 then -1
    else
      var b := Best(s, plan, n - 1);
      var v := if b < 0 then 0.0 else Value(s, b, plan[b]);
      if Value(s, n - 1, plan[n - 1]) > v then n - 1 else b
  }

  lemma {:induction false} BestIsBest(s: Spectrum, plan: seq<nat>, n: nat)
    requires s.Valid() && |plan| == BANDS && n <= BANDS
    ensures var best := Best(s, plan, n);
      var top := if best < 0 then 0.0 else Value(s, best, plan[best]);
      (best >= 0 ==> top > 0.0) &&
      (forall b :: 0 <= b < n ==> Value(s, b, plan[b]) <= top) &&
      forall b :: 0 <= b < best ==> Value(s, b, plan[b]) < top
  {
    hide Value;
    if n > 0 {
      BestIsBest(s, plan, n - 1);
    }
  }

  function Room(plan: seq<nat>): nat {
    if plan == [] then 0
    else (if plan[0] < MAX_RATE then MAX_RATE - plan[0] else 0) + Room(plan[1..])
  }

  lemma {:induction false} RoomShrinks(plan: seq<nat>, b: nat)
    requires b < |plan| && plan[b] < MAX_RATE
    ensures Room(plan[b := plan[b] + 1]) == Room(plan) - 1
  {
    if b == 0 {
      assert plan[0 := plan[0] + 1][1..] == plan[1..];
    } else {
      RoomShrinks(plan[1..], b - 1);
      assert plan[b := plan[b] + 1][1..] == plan[1..][b - 1 := plan[b] + 1];
    }
  }

  lemma BestHasRoom(s: Spectrum, plan: seq<nat>)
    requires s.Valid() && |plan| == BANDS && Best(s, plan, BANDS) >= 0
    ensures var b := Best(s, plan, BANDS);
      Awake(s, b) && plan[b] < MAX_RATE && Room(plan[b := plan[b] + 1]) == Room(plan) - 1
  {
    var b := Best(s, plan, BANDS);
    BestIsBest(s, plan, BANDS);
    Worthwhile(s, b, plan[b]);
    RoomShrinks(plan, b);
  }

  ghost predicate AreBands(order: seq<nat>) {
    forall i :: 0 <= i < |order| ==> order[i] < BANDS
  }

  /** Every worthwhile increment from `plan` on, best first. */
  function Order(s: Spectrum, plan: seq<nat>): (order: seq<nat>)
    requires s.Valid() && |plan| == BANDS
    ensures AreBands(order)
    decreases Room(plan)
  {
    var b := Best(s, plan, BANDS);
    if b < 0 then []
    else
      BestHasRoom(s, plan);
      [b] + Order(s, plan[b := plan[b] + 1])
  }

  function Count(order: seq<nat>, b: nat): nat {
    if order == [] then 0 else (if order[0] == b then 1 else 0) + Count(order[1..], b)
  }

  /** The order holds every increment of every awake band, and nothing else. */
  lemma {:induction false} OrderComplete(s: Spectrum, plan: seq<nat>, b: nat)
    requires s.Valid() && IsPlan(plan) && b < BANDS
    ensures Count(Order(s, plan), b) == if Awake(s, b) then MAX_RATE - plan[b] else 0
    decreases Room(plan)
  {
    var best := Best(s, plan, BANDS);
    if best < 0 {
      BestIsBest(s, plan, BANDS);
      Worthwhile(s, b, plan[b]);
    } else {
      BestHasRoom(s, plan);
      var next := plan[best := plan[best] + 1];
      OrderComplete(s, next, b);
      assert Order(s, plan)[1..] == Order(s, next);
    }
  }

  /** Reverse water-filling: no increment is worth more than one taken before it. */
  lemma OrderDescends(s: Spectrum, plan: seq<nat>)
    requires s.Valid() && |plan| == BANDS && Best(s, plan, BANDS) >= 0
    ensures var b := Best(s, plan, BANDS);
      var next := plan[b := plan[b] + 1];
      var c := Best(s, next, BANDS);
      c >= 0 ==> Value(s, c, next[c]) <= Value(s, b, plan[b])
  {
    hide Value;
    var b := Best(s, plan, BANDS);
    BestIsBest(s, plan, BANDS);
    Diminishing(s, b, plan[b]);
  }

  /** One increment is worth more than another, or as much in a lower band. */
  ghost predicate Ahead(s: Spectrum, b: nat, r: nat, c: nat, q: nat)
    requires s.Valid() && b < BANDS && c < BANDS
  {
    var first, second := Loudness(s, b) * Four(q) as real, Loudness(s, c) * Four(r) as real;
    first > second || (first == second && b < c)
  }

  lemma AheadIsBetter(s: Spectrum, b: nat, r: nat, c: nat, q: nat)
    requires s.Valid() && b < BANDS && c < BANDS && Awake(s, b) && Awake(s, c) && r < MAX_RATE && q < MAX_RATE
    requires Ahead(s, b, r, c, q)
    ensures Value(s, b, r) > Value(s, c, q) || (Value(s, b, r) == Value(s, c, q) && b < c)
  {
    hide Value;
    hide Loudness;
    hide Four;
    ValueIsLoudness(s, b, r);
    ValueIsLoudness(s, c, q);
    Compare(Value(s, b, r), Value(s, c, q), Four(r) as real, Four(q) as real, Loudness(s, b), Loudness(s, c));
  }

  lemma Compare(v: real, u: real, p: real, q: real, first: real, second: real)
    requires p > 0.0 && q > 0.0 && p * v == first && q * u == second
    ensures first * q > second * p ==> v > u
    ensures first * q == second * p ==> v == u
  {
    var k := p * q;
    Positive(p, q);
    assert (p * v) * q == k * v && (q * u) * p == k * u;
    if v <= u {
      Scaled(k, v, u);
    }
    if v >= u {
      Scaled(k, u, v);
    }
  }

  lemma Scaled(k: real, v: real, u: real)
    requires k > 0.0 && v <= u
    ensures k * v <= k * u
    ensures v < u ==> k * v < k * u
  {
  }

  lemma {:induction false} NeverRises(s: Spectrum, b: nat, low: nat, high: nat)
    requires s.Valid() && b < BANDS && low <= high
    ensures Value(s, b, high) <= Value(s, b, low)
    decreases high - low
  {
    hide Value;
    if low < high {
      NeverRises(s, b, low, high - 1);
      Diminishing(s, b, high - 1);
    }
  }

  lemma PrefixCounts(s: Spectrum, plan: seq<nat>, b: nat, i: nat)
    requires s.Valid() && |plan| == BANDS && 0 < i <= |Order(s, plan)|
    ensures var best := Best(s, plan, BANDS);
      best >= 0 &&
      var next := plan[best := plan[best] + 1];
      |Order(s, plan)| == 1 + |Order(s, next)| &&
      Count(Order(s, plan)[..i], b) == (if best == b then 1 else 0) + Count(Order(s, next)[..i - 1], b)
  {
    hide Best;
    var best := Best(s, plan, BANDS);
    var next := plan[best := plan[best] + 1];
    assert Order(s, plan)[..i] == [best] + Order(s, next)[..i - 1];
    assert ([best] + Order(s, next)[..i - 1])[1..] == Order(s, next)[..i - 1];
  }

  /**
   * Increments come in the order of what they are worth, whatever the budget:
   * when a band has had its (q+1)-th, every band ahead of it there has had its own.
   */
  lemma {:induction false} OrderByWorth(s: Spectrum, plan: seq<nat>, b: nat, r: nat, c: nat, q: nat, i: nat)
    requires s.Valid() && IsPlan(plan) && b < BANDS && c < BANDS && Awake(s, b) && Awake(s, c) && r < MAX_RATE && q < MAX_RATE
    requires Ahead(s, b, r, c, q) && i <= |Order(s, plan)|
    requires plan[c] > q ==> plan[b] > r
    ensures plan[c] + Count(Order(s, plan)[..i], c) > q ==> plan[b] + Count(Order(s, plan)[..i], b) > r
    decreases i
  {
    hide Ahead;
    hide Value;
    hide Awake;
    hide Room;
    var best := Best(s, plan, BANDS);
    if i == 0 {
      assert Order(s, plan)[..0] == [];
    } else {
      BestHasRoom(s, plan);
      var next := plan[best := plan[best] + 1];
      PrefixCounts(s, plan, b, i);
      PrefixCounts(s, plan, c, i);
      hide Order;
      hide Count;
      hide Best;
      if best == c && plan[c] == q && next[b] <= r {
        AheadIsBetter(s, b, r, c, q);
        BestIsBest(s, plan, BANDS);
        NeverRises(s, b, plan[b], r);
        assert false;
      }
      OrderByWorth(s, next, b, r, c, q, i - 1);
    }
  }

  // --- what fits ---

  /** Walk the order and take what fits, passing over what does not. */
  function Taken(order: seq<nat>, left: nat): (t: seq<nat>)
    requires AreBands(order)
    ensures AreBands(t)
    decreases |order|
  {
    if order == [] then []
    else if Width(order[0]) <= left then [order[0]] + Taken(order[1..], left - Width(order[0]))
    else Taken(order[1..], left)
  }

  function Cost(taken: seq<nat>): nat
    requires AreBands(taken)
  {
    if taken == [] then 0 else Width(taken[0]) + Cost(taken[1..])
  }

  lemma {:induction false} NeverOver(order: seq<nat>, left: nat)
    requires AreBands(order)
    ensures Cost(Taken(order, left)) <= left
    decreases |order|
  {
    if order != [] {
      if Width(order[0]) <= left {
        NeverOver(order[1..], left - Width(order[0]));
        assert Taken(order, left)[1..] == Taken(order[1..], left - Width(order[0]));
      } else {
        NeverOver(order[1..], left);
      }
    }
  }

  /** An increment is taken exactly if it fits in what those before it have left. */
  lemma {:induction false} TakenIfItFits(order: seq<nat>, left: nat, i: nat)
    requires AreBands(order) && i < |order|
    ensures var before := Taken(order[..i], left);
      Taken(order[..i + 1], left) == before + (if Width(order[i]) <= left - Cost(before) then [order[i]] else [])
    decreases i
  {
    hide *;
    SplitFirst(order, i);
    TakenAlone(order[0], left);
    if i > 0 {
      var rest := order[1..];
      TakenFirst(order[0], rest[..i], left);
      TakenFirst(order[0], rest[..i - 1], left);
      var w := Width(order[0]);
      TakenIfItFits(rest, if w <= left then left - w else left, i - 1);
    }
  }

  lemma SplitFirst(order: seq<nat>, i: nat)
    requires AreBands(order) && i < |order|
    ensures order[0] < BANDS && AreBands([]) && AreBands(order[1..]) && AreBands(order[..i]) && AreBands(order[1..][..i])
    ensures order[i] < BANDS && (i == 0 ==> order[..i + 1] == [order[0]] && order[..i] == [])
    ensures i > 0 ==>
      order[..i + 1] == [order[0]] + order[1..][..i] && order[..i] == [order[0]] + order[1..][..i - 1] &&
      AreBands(order[1..][..i - 1]) && order[i] == order[1..][i - 1]
  {
  }

  lemma TakenAlone(b: nat, left: nat)
    requires b < BANDS
    ensures Taken([b], left) == (if Width(b) <= left then [b] else []) && Taken([], left) == [] && Cost([]) == 0
  {
    hide Width;
    assert [b][1..] == [];
  }

  lemma TakenFirst(b: nat, rest: seq<nat>, left: nat)
    requires b < BANDS && AreBands(rest)
    ensures AreBands([b] + rest)
    ensures Taken([b] + rest, left) ==
      if Width(b) <= left then [b] + Taken(rest, left - Width(b)) else Taken(rest, left)
    ensures Width(b) <= left ==> Cost(Taken([b] + rest, left)) == Width(b) + Cost(Taken(rest, left - Width(b)))
  {
    hide Width;
    assert ([b] + rest)[1..] == rest;
    if Width(b) <= left {
      assert ([b] + Taken(rest, left - Width(b)))[1..] == Taken(rest, left - Width(b));
    }
  }

  /** Whatever was passed over still does not fit in what is left at the end. */
  lemma {:induction false} NothingWasted(order: seq<nat>, left: nat, b: nat)
    requires AreBands(order) && b < BANDS
    ensures Count(Taken(order, left), b) <= Count(order, b)
    ensures Count(Taken(order, left), b) < Count(order, b) ==> Width(b) > left - Cost(Taken(order, left))
    decreases |order|
  {
    if order != [] {
      if Width(order[0]) <= left {
        NothingWasted(order[1..], left - Width(order[0]), b);
        assert Taken(order, left)[1..] == Taken(order[1..], left - Width(order[0]));
      } else {
        NothingWasted(order[1..], left, b);
      }
    }
  }

  lemma {:induction false} NothingFitsInNothing(order: seq<nat>)
    requires AreBands(order)
    ensures Taken(order, 0) == []
    decreases |order|
  {
    if order != [] {
      NothingFitsInNothing(order[1..]);
    }
  }

  /** One bit more changes nothing, or is spent to the last bit. */
  lemma {:induction false} OneMoreBit(order: seq<nat>, left: nat)
    requires AreBands(order)
    ensures Taken(order, left + 1) == Taken(order, left) || Cost(Taken(order, left + 1)) == left + 1
    decreases |order|
  {
    hide Width;
    if order != [] {
      var w := Width(order[0]);
      if w <= left {
        OneMoreBit(order[1..], left - w);
        assert Taken(order, left + 1)[1..] == Taken(order[1..], left + 1 - w);
      } else if w == left + 1 {
        NothingFitsInNothing(order[1..]);
        assert Taken(order, left + 1) == [order[0]];
        assert [order[0]][1..] == [];
      } else {
        OneMoreBit(order[1..], left);
      }
    }
  }

  /** A larger budget never buys fewer bits in all. */
  lemma {:induction false} TotalMonotone(order: seq<nat>, small: nat, large: nat)
    requires AreBands(order) && small <= large
    ensures Cost(Taken(order, small)) <= Cost(Taken(order, large))
    decreases large - small
  {
    hide Taken;
    hide Cost;
    if small < large {
      TotalMonotone(order, small, large - 1);
      OneMoreBit(order, large - 1);
      NeverOver(order, large - 1);
    }
  }

  // --- the allocation ---

  function NoPlan(): (plan: seq<nat>)
    ensures IsPlan(plan) && forall b :: 0 <= b < BANDS ==> plan[b] == 0
  {
    seq(BANDS, b => 0)
  }

  /** Bits per coefficient in band `b`. */
  function Rate(s: Spectrum, totalBits: nat, b: nat): nat
    requires s.Valid()
  {
    Count(Taken(Order(s, NoPlan()), totalBits), b)
  }

  function Allocation(s: Spectrum, totalBits: nat): (bits: seq<nat>)
    requires s.Valid()
    ensures |bits| == BANDS && forall b :: 0 <= b < BANDS ==> bits[b] == Share(s, totalBits, b)
  {
    seq(BANDS, b requires 0 <= b < BANDS => Share(s, totalBits, b))
  }

  function Share(s: Spectrum, totalBits: nat, b: nat): (bits: nat)
    requires s.Valid() && b < BANDS
  {
    Cells(Rate(s, totalBits, b), Width(b))
  }

  function Cells(rate: nat, width: nat): nat {
    rate * width
  }

  function Total(bits: seq<nat>, n: nat): nat
    requires n <= |bits|
  {
    if n == 0 then 0 else Total(bits, n - 1) + bits[n - 1]
  }

  /** Bits spent on bands below `n`. */
  function CostBelow(taken: seq<nat>, n: nat): nat
    requires AreBands(taken)
  {
    if taken == [] then 0 else (if taken[0] < n then Width(taken[0]) else 0) + CostBelow(taken[1..], n)
  }

  lemma {:induction false} CostBelowNext(taken: seq<nat>, n: nat)
    requires AreBands(taken) && n < BANDS
    ensures CostBelow(taken, n + 1) == CostBelow(taken, n) + Count(taken, n) * Width(n)
  {
    if taken != [] {
      CostBelowNext(taken[1..], n);
      assert (Count(taken[1..], n) + 1) * Width(n) == Count(taken[1..], n) * Width(n) + Width(n);
    } else {
      assert Count(taken, n) * Width(n) == 0;
    }
  }

  lemma {:induction false} CostBelowAll(taken: seq<nat>)
    requires AreBands(taken)
    ensures CostBelow(taken, 0) == 0 && CostBelow(taken, BANDS) == Cost(taken)
  {
    if taken != [] {
      CostBelowAll(taken[1..]);
    }
  }

  lemma {:induction false} TotalIsCost(s: Spectrum, totalBits: nat, n: nat)
    requires s.Valid() && n <= BANDS
    ensures var taken := Taken(Order(s, NoPlan()), totalBits);
      Total(Allocation(s, totalBits), n) == CostBelow(taken, n)
  {
    hide Order;
    hide Width;
    var taken := Taken(Order(s, NoPlan()), totalBits);
    if n == 0 {
      CostBelowAll(taken);
    } else {
      TotalIsCost(s, totalBits, n - 1);
      CostBelowNext(taken, n - 1);
    }
  }

  /**
   * What an allocation promises: the budget is never exceeded; a silent band
   * gets nothing; an awake band gets a whole number of bits per coefficient, at
   * most twelve; and a band below its ceiling is one whose next increment would
   * not fit in the bits left over.
   */
  lemma AllocationLaws(s: Spectrum, totalBits: nat, b: nat)
    requires s.Valid() && b < BANDS
    ensures var bits := Allocation(s, totalBits);
      var rate := Rate(s, totalBits, b);
      Total(bits, BANDS) <= totalBits &&
      bits[b] == rate * Width(b) && rate <= 12 &&
      (s.energies[b] < 0.00001 ==> rate == 0) &&
      (s.energies[b] >= 0.00001 && rate < 12 ==> Width(b) > totalBits - Total(bits, BANDS))
  {
    var order := Order(s, NoPlan());
    var taken := Taken(order, totalBits);
    OrderComplete(s, NoPlan(), b);
    NothingWasted(order, totalBits, b);
    NeverOver(order, totalBits);
    TotalIsCost(s, totalBits, BANDS);
    CostBelowAll(taken);
  }

  /** The total allocated never decreases as the budget grows. */
  lemma AllocationMonotone(s: Spectrum, small: nat, large: nat)
    requires s.Valid() && small <= large
    ensures Total(Allocation(s, small), BANDS) <= Total(Allocation(s, large), BANDS)
  {
    hide Taken;
    var order := Order(s, NoPlan());
    TotalMonotone(order, small, large);
    TotalIsCost(s, small, BANDS);
    TotalIsCost(s, large, BANDS);
    CostBelowAll(Taken(order, small));
    CostBelowAll(Taken(order, large));
  }

  // --- one band at a time ---

  /** No increment is narrower than one before it in the order. */
  ghost predicate Widening(order: seq<nat>)
    requires AreBands(order)
  {
    forall i, j :: 0 <= i < j < |order| ==> Width(order[i]) <= Width(order[j])
  }

  /** A larger budget takes nothing away from any band. */
  ghost predicate EveryBandKeeps(order: seq<nat>)
    requires AreBands(order)
  {
    forall small: nat, large: nat, b: nat :: small <= large && b < BANDS ==>
      Count(Taken(order, small), b) <= Count(Taken(order, large), b)
  }

  /** When no increment is wide enough to fit, nothing is taken. */
  lemma {:induction false} NoneFits(order: seq<nat>, left: nat)
    requires AreBands(order) && forall i :: 0 <= i < |order| ==> Width(order[i]) > left
    ensures Taken(order, left) == []
    decreases |order|
  {
    hide Width;
    if order != [] {
      NoneFits(order[1..], left);
    }
  }

  /** In a widening order the first misfit ends the walk, so a larger budget only goes further. */
  lemma {:induction false} WideningKeeps(order: seq<nat>, small: nat, large: nat, b: nat)
    requires AreBands(order) && Widening(order) && small <= large
    ensures Count(Taken(order, small), b) <= Count(Taken(order, large), b)
    decreases |order|
  {
    hide Width;
    if order != [] {
      var w, rest := Width(order[0]), order[1..];
      if w <= small {
        WideningKeeps(rest, small - w, large - w, b);
        CountFirst(order[0], Taken(rest, small - w), b);
        CountFirst(order[0], Taken(rest, large - w), b);
      } else {
        NoneFits(order, small);
      }
    }
  }

  lemma CountFirst(c: nat, taken: seq<nat>, b: nat)
    ensures Count([c] + taken, b) == Count(taken, b) + if b == c then 1 else 0
  {
    assert ([c] + taken)[1..] == taken;
  }

  /** A budget that covers the first increments takes them all, and goes on with what is left. */
  lemma NoPrefix(rest: seq<nat>, left: nat)
    requires AreBands(rest)
    ensures [] + rest == rest && [] + Taken(rest, left) == Taken(rest, left) && Cost([]) == 0
  {
  }

  lemma PrefixFirst(first: seq<nat>, rest: seq<nat>)
    requires first != [] && AreBands(first) && AreBands(rest)
    ensures first[0] < BANDS && AreBands(first[1..]) && AreBands(first[1..] + rest)
    ensures first == [first[0]] + first[1..] && Cost(first) == Width(first[0]) + Cost(first[1..])
  {
    hide Width;
  }

  lemma {:induction false} TakesPrefix(first: seq<nat>, rest: seq<nat>, left: nat)
    requires AreBands(first) && AreBands(rest) && Cost(first) <= left
    ensures AreBands(first + rest) && Taken(first + rest, left) == first + Taken(rest, left - Cost(first))
    decreases |first|
  {
    hide *;
    if first == [] {
      NoPrefix(rest, left);
    } else {
      var c, others := first[0], first[1..];
      PrefixFirst(first, rest);
      TakesPrefix(others, rest, left - Width(c));
      TakenFirst(c, others + rest, left);
      Bytes.Assoc([c], others, rest);
      Bytes.Assoc([c], others, Taken(rest, left - Cost(first)));
    }
  }

  lemma {:induction false} CountSum(a: seq<nat>, c: seq<nat>, b: nat)
    ensures Count(a + c, b) == Count(a, b) + Count(c, b)
  {
    if a == [] {
      assert [] + c == c;
    } else {
      CountSum(a[1..], c, b);
      assert (a + c)[1..] == a[1..] + c;
    }
  }

  /**
   * Where a narrower increment comes straight after a wider one, one bit more
   * than the budget that skips the wider pays for it and takes the narrower away.
   */
  lemma DescentLoses(order: seq<nat>, at: nat) returns (budget: nat)
    requires AreBands(order) && at + 1 < |order| && Width(order[at]) > Width(order[at + 1])
    ensures Count(Taken(order, budget + 1), order[at + 1]) < Count(Taken(order, budget), order[at + 1])
  {
    hide Width;
    hide Taken;
    hide Count;
    hide Cost;
    var first, tail := order[..at], order[at..];
    assert order == first + tail && tail[0] == order[at] && tail[1] == order[at + 1];
    assert AreBands(first) && AreBands(tail);
    TwoWays(tail);
    var width := Width(tail[0]);
    budget := Cost(first) + (width - 1);
    hide AreBands;
    Losing(first, tail, width, tail[1]);
  }

  /** If one bit more loses an increment of the tail, it loses it after any increments both budgets cover. */
  lemma Losing(first: seq<nat>, tail: seq<nat>, width: nat, b: nat)
    requires AreBands(first) && AreBands(tail) && width > 0
    requires Count(Taken(tail, width), b) < Count(Taken(tail, width - 1), b)
    ensures AreBands(first + tail)
    ensures Count(Taken(first + tail, Cost(first) + (width - 1) + 1), b) < Count(Taken(first + tail, Cost(first) + (width - 1)), b)
  {
    hide *;
    CountTaken(first, tail, Cost(first) + (width - 1), width - 1, b);
    CountTaken(first, tail, Cost(first) + (width - 1) + 1, width, b);
  }

  lemma CountTaken(first: seq<nat>, tail: seq<nat>, budget: nat, left: nat, b: nat)
    requires AreBands(first) && AreBands(tail) && budget == Cost(first) + left
    ensures AreBands(first + tail)
    ensures Count(Taken(first + tail, budget), b) == Count(first, b) + Count(Taken(tail, left), b)
  {
    hide Taken;
    hide Count;
    hide Cost;
    TakesPrefix(first, tail, budget);
    CountSum(first, Taken(tail, left), b);
  }

  lemma TwoWays(tail: seq<nat>)
    requires AreBands(tail) && |tail| >= 2 && Width(tail[0]) > Width(tail[1])
    ensures Count(Taken(tail, Width(tail[0])), tail[1]) < Count(Taken(tail, Width(tail[0]) - 1), tail[1])
  {
    hide Width;
    var wide, narrow, rest := tail[0], tail[1], tail[2..];
    assert tail[1..] == [narrow] + rest && ([narrow] + rest)[1..] == rest;
    NothingFitsInNothing(tail[1..]);
    assert Taken(tail, Width(wide)) == [wide] + [];
    CountFirst(wide, [], narrow);
    var left := Width(wide) - 1;
    assert Taken(tail, left) == Taken([narrow] + rest, left);
    CountFirst(narrow, Taken(rest, left - Width(narrow)), narrow);
  }

  /** An order that narrows anywhere narrows somewhere from one increment to the next. */
  lemma {:induction false} FirstDescent(order: seq<nat>, i: nat, j: nat) returns (at: nat)
    requires AreBands(order) && i < j < |order| && Width(order[i]) > Width(order[j])
    ensures at + 1 < |order| && Width(order[at]) > Width(order[at + 1])
    decreases j - i
  {
    hide Width;
    if Width(order[i]) > Width(order[i + 1]) {
      at := i;
    } else {
      at := FirstDescent(order, i + 1, j);
    }
  }

  /** No band ever loses bits to a larger budget, if and only if the order never narrows. */
  lemma KeepsExactlyWhenWidening(order: seq<nat>)
    requires AreBands(order)
    ensures EveryBandKeeps(order) <==> Widening(order)
  {
    hide Width;
    hide Taken;
    hide Count;
    if Widening(order) {
      forall small: nat, large: nat, b: nat | small <= large && b < BANDS
        ensures Count(Taken(order, small), b) <= Count(Taken(order, large), b)
      {
        WideningKeeps(order, small, large, b);
      }
    } else {
      var i, j :| 0 <= i < j < |order| && Width(order[i]) > Width(order[j]);
      var at := FirstDescent(order, i, j);
      var budget := DescentLoses(order, at);
      assert Count(Taken(order, budget + 1), order[at + 1]) < Count(Taken(order, budget), order[at + 1]);
    }
  }

  /** What any spectrum's bands have to look like for no budget to hurt any of them. */
  lemma BandsKeepExactly(s: Spectrum)
    requires s.Valid()
    ensures (forall small: nat, large: nat, b: nat :: small <= large && b < BANDS ==> Rate(s, small, b) <= Rate(s, large, b))
       <==> Widening(Order(s, NoPlan()))
  {
    hide Order;
    hide Taken;
    hide Count;
    hide Width;
    var order := Order(s, NoPlan());
    KeepsExactlyWhenWidening(order);
    if forall small: nat, large: nat, b: nat :: small <= large && b < BANDS ==> Rate(s, small, b) <= Rate(s, large, b) {
      forall small: nat, large: nat, b: nat | small <= large && b < BANDS
        ensures Count(Taken(order, small), b) <= Count(Taken(order, large), b)
      {
        assert Rate(s, small, b) <= Rate(s, large, b);
      }
    }
  }

  // --- a spectrum a codec can hold, and a band of it that loses ---

  const QUIETEST := 0.001
  const FULL_WEIGHT := 15

  /** One voice in band 8, every other band at the lowest level, and the low bands weighted alike. */
  ghost predicate OneVoice(s: Spectrum) {
    s.Valid() && (forall b :: 0 <= b < BANDS ==> s.energies[b] == if b == 8 then 1.0 else QUIETEST) &&
    forall b :: 0 <= b < BANDS ==> s.weight[b] <= 1.0 && (b < FULL_WEIGHT ==> s.weight[b] == 1.0)
  }

  /** Band 8 has had `r` increments, nothing else any. */
  ghost predicate OnlyVoice(plan: seq<nat>, r: nat) {
    |plan| == BANDS && r <= MAX_RATE && forall b :: 0 <= b < BANDS ==> plan[b] == if b == 8 then r else 0
  }

  lemma QuietValue(s: Spectrum, b: nat)
    requires OneVoice(s) && b < BANDS && b != 8
    ensures Value(s, b, 0) <= 0.000001 && (b == 0 ==> Value(s, b, 0) == 0.000001)
  {
    assert Quarter(0) == 1.0;
    assert s.energies[b] == QUIETEST;
    Lighter(s.weight[b], QUIETEST * QUIETEST);
    assert s.weight[b] * s.energies[b] * s.energies[b] == s.weight[b] * (QUIETEST * QUIETEST);
  }

  lemma Lighter(w: real, e: real)
    requires w <= 1.0 && e >= 0.0
    ensures w * e <= e
  {
  }

  /** The next increment is the voice's or band 0's. */
  lemma VoiceOrFirst(s: Spectrum, plan: seq<nat>, r: nat)
    requires OneVoice(s) && OnlyVoice(plan, r)
    ensures Best(s, plan, BANDS) == 8 || Best(s, plan, BANDS) == 0
    ensures Best(s, plan, BANDS) == 8 ==> r < MAX_RATE
    ensures r == 0 ==> Best(s, plan, BANDS) == 8
  {
    var best := Best(s, plan, BANDS);
    BestIsBest(s, plan, BANDS);
    QuietValue(s, 0);
    if best >= 0 && best != 8 {
      QuietValue(s, best);
    }
    VoiceValue(s);
    Worthwhile(s, 8, r);
    hide Value;
    assert Value(s, 0, plan[0]) == 0.000001;
    assert plan[8] == r;
  }

  lemma VoiceValue(s: Spectrum)
    requires OneVoice(s)
    ensures Value(s, 8, 0) == 1.0
  {
    assert Quarter(0) == 1.0;
  }

  lemma NarrowestFit()
    ensures Width(8) == 8 && Width(0) == 4
  {
  }

  /** Four bits never reach the voice: they go to band 0. */
  lemma {:induction false} FourGoToTheFirst(s: Spectrum, plan: seq<nat>, r: nat)
    requires OneVoice(s) && OnlyVoice(plan, r)
    ensures Taken(Order(s, plan), 4) == [0]
    decreases MAX_RATE - r
  {
    hide Width;
    hide Value;
    hide Best;
    hide Order;
    NarrowestFit();
    VoiceOrFirst(s, plan, r);
    var best := Best(s, plan, BANDS);
    OrderOpens(s, plan);
    var next := plan[best := plan[best] + 1];
    assert ([best as nat] + Order(s, next))[1..] == Order(s, next);
    if best == 8 {
      FourGoToTheFirst(s, next, r + 1);
    } else {
      NothingFitsInNothing(Order(s, next));
    }
  }

  lemma OrderOpens(s: Spectrum, plan: seq<nat>)
    requires s.Valid() && |plan| == BANDS && Best(s, plan, BANDS) >= 0
    ensures var b := Best(s, plan, BANDS);
      Order(s, plan) == [b as nat] + Order(s, plan[b := plan[b] + 1])
  {
    BestHasRoom(s, plan);
  }

  lemma EightGoToTheVoice(s: Spectrum)
    requires OneVoice(s)
    ensures Taken(Order(s, NoPlan()), 8) == [8]
  {
    hide Width;
    hide Value;
    hide Best;
    hide Order;
    var plan := NoPlan();
    NarrowestFit();
    VoiceOrFirst(s, plan, 0);
    OrderOpens(s, plan);
    var rest := Order(s, plan[8 := plan[8] + 1]);
    assert ([8] + rest)[1..] == rest;
    NothingFitsInNothing(rest);
  }

  /**
   * The total is monotone, the single band is not, on levels a codec can hold:
   * eight bits buy one increment of the voice, and take away the four that band 0
   * had from a budget of four.
   */
  lemma BandsAreNotMonotone(s: Spectrum)
    requires OneVoice(s)
    ensures Share(s, 4, 0) == 4 && Share(s, 8, 0) == 0
  {
    FourGoToTheFirst(s, NoPlan(), 0);
    EightGoToTheVoice(s);
    hide Order;
    hide Taken;
    NarrowestFit();
    CountFirst(0, [], 0);
    CountFirst(8, [], 0);
    assert [0] + [] == [0] && [8] + [] == [8];
    assert Count([], 0) == 0;
  }

  // --- a budget of two narrow increments ---

  /** The only band that is first among the best. */
  lemma FirstBest(s: Spectrum, plan: seq<nat>, b: nat)
    requires s.Valid() && |plan| == BANDS && b < BANDS && Value(s, b, plan[b]) > 0.0
    requires forall c :: 0 <= c < b ==> Value(s, c, plan[c]) < Value(s, b, plan[b])
    requires forall c :: b < c < BANDS ==> Value(s, c, plan[c]) <= Value(s, b, plan[b])
    ensures Best(s, plan, BANDS) == b
  {
    hide Value;
    BestIsBest(s, plan, BANDS);
  }

  /** Eight bits go to the first two increments when those are both of four. */
  lemma TwoFours(s: Spectrum, a: nat, b: nat)
    requires s.Valid() && a < BANDS && b < BANDS && a != b && Width(a) == 4 && Width(b) == 4
    requires Best(s, NoPlan(), BANDS) == a && Best(s, NoPlan()[a := 1], BANDS) == b
    ensures forall c :: 0 <= c < BANDS ==> Share(s, 8, c) == if c == a || c == b then 4 else 0
  {
    hide Width;
    hide Order;
    hide Best;
    var plan := NoPlan();
    assert plan[a := plan[a] + 1] == plan[a := 1];
    OrderOpens(s, plan);
    OrderOpens(s, plan[a := 1]);
    var rest := Order(s, plan[a := 1][b := plan[b] + 1]);
    var tail := [b] + rest;
    assert ([a] + tail)[1..] == tail && tail[1..] == rest;
    NothingFitsInNothing(rest);
    assert Taken(tail, 4) == [b] + [];
    assert Taken([a] + tail, 8) == [a] + ([b] + []);
    hide Taken;
    forall c | 0 <= c < BANDS ensures Share(s, 8, c) == if c == a || c == b then 4 else 0 {
      CountFirst(a, [b] + [], c);
      CountFirst(b, [], c);
    }
  }

  // --- the loops ---

  method BestBand(s: Spectrum, plan: seq<nat>) returns (best: int)
    requires s.Valid() && |plan| == BANDS
    ensures best == Best(s, plan, BANDS)
  {
    hide Value;
    best := -1;
    var bestValue := 0.0;
    for b := 0 to BANDS
      invariant best == Best(s, plan, b)
      invariant bestValue == if best < 0 then 0.0 else Value(s, best, plan[best])
    {
      var v := Value(s, b, plan[b]);
      if v > bestValue {
        bestValue := v;
        best := b;
      }
    }
  }

  ghost predicate Planning(s: Spectrum, order: seq<nat>, plan: seq<nat>) {
    s.Valid() && |plan| == BANDS && order + Order(s, plan) == Order(s, NoPlan())
  }

  lemma PlanningStarts(s: Spectrum)
    requires s.Valid()
    ensures Planning(s, [], NoPlan())
  {
    assert [] + Order(s, NoPlan()) == Order(s, NoPlan());
  }

  lemma PlanningStep(s: Spectrum, order: seq<nat>, plan: seq<nat>)
    requires Planning(s, order, plan)
    ensures var b := Best(s, plan, BANDS);
      if b < 0 then order == Order(s, NoPlan())
      else var next := plan[b := plan[b] + 1];
        Planning(s, order + [b], next) && Room(next) < Room(plan)
  {
    hide Best;
    hide Value;
    hide Room;
    var b := Best(s, plan, BANDS);
    if b < 0 {
      assert order + [] == order;
    } else {
      BestHasRoom(s, plan);
      var rest := Order(s, plan[b := plan[b] + 1]);
      assert order + ([b as nat] + rest) == (order + [b as nat]) + rest;
    }
  }

  method PlanOrder(s: Spectrum) returns (order: seq<nat>)
    requires s.Valid()
    ensures order == Order(s, NoPlan())
  {
    hide *;
    PlanningStarts(s);
    order := [];
    var planning := NoPlan();
    while true
      invariant |planning| == BANDS && Planning(s, order, planning)
      decreases Room(planning)
    {
      var b := BestBand(s, planning);
      PlanningStep(s, order, planning);
      if b < 0 {
        break;
      }
      planning := planning[b := planning[b] + 1];
      order := order + [b];
    }
  }

  /** Where the walk stands: what is taken, and what the rest of the order will add. */
  ghost predicate Walking(order: seq<nat>, totalBits: nat, i: nat, left: nat, taken: seq<nat>) {
    i <= |order| && AreBands(order) && AreBands(taken) &&
    taken + Taken(order[i..], left) == Taken(order, totalBits)
  }

  lemma WalkStep(order: seq<nat>, totalBits: nat, i: nat, left: nat, taken: seq<nat>)
    requires Walking(order, totalBits, i, left, taken) && i < |order|
    ensures order[i] < BANDS
    ensures if Width(order[i]) <= left
            then Walking(order, totalBits, i + 1, left - Width(order[i]), taken + [order[i]])
            else Walking(order, totalBits, i + 1, left, taken)
  {
    hide Width;
    var b := order[i];
    assert order[i..][0] == b && order[i..][1..] == order[i + 1..];
    if Width(b) <= left {
      var rest := Taken(order[i + 1..], left - Width(b));
      assert taken + ([b] + rest) == (taken + [b]) + rest;
    }
  }

  lemma WalkEnds(order: seq<nat>, totalBits: nat, left: nat, taken: seq<nat>)
    requires AreBands(order)
    ensures Walking(order, totalBits, 0, totalBits, [])
    ensures Walking(order, totalBits, |order|, left, taken) ==> taken == Taken(order, totalBits)
  {
    assert order[0..] == order;
  }

  method Allocate(s: Spectrum, totalBits: nat) returns (bits: seq<nat>)
    requires s.Valid()
    ensures bits == Allocation(s, totalBits)
  {
    hide Order;
    hide Taken;
    hide Width;
    hide Count;
    hide Walking;
    var order := PlanOrder(s);
    var rate := NoPlan();
    var left := totalBits;
    ghost var taken: seq<nat> := [];
    WalkEnds(order, totalBits, left, taken);
    CountNothing();
    for i := 0 to |order|
      invariant |rate| == BANDS && Walking(order, totalBits, i, left, taken)
      invariant forall b :: 0 <= b < BANDS ==> rate[b] == Count(taken, b)
    {
      WalkStep(order, totalBits, i, left, taken);
      var b := order[i];
      var cost := Width(b);
      if cost <= left {
        CountAppend(taken, b);
        taken := taken + [b];
        rate := rate[b := rate[b] + 1];
        left := left - cost;
      }
    }
    WalkEnds(order, totalBits, left, taken);
    bits := seq(BANDS, b requires 0 <= b < BANDS && |rate| == BANDS => rate[b] * Width(b));
  }

  lemma CountNothing()
    ensures forall b :: Count([], b) == 0
  {
  }

  lemma {:induction false} CountAppend(taken: seq<nat>, c: nat)
    ensures forall b :: Count(taken + [c], b) == Count(taken, b) + if b == c then 1 else 0
  {
    if taken == [] {
      assert [c][1..] == [];
    } else {
      CountAppend(taken[1..], c);
      assert (taken + [c])[1..] == taken[1..] + [c];
    }
  }
}
