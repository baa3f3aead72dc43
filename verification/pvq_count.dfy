/** How many pulse vectors there are: the exact numbers, and the table that saturates at 64 bits. */
module PvqCount {
  import opened Bytes

  const MAX_N := 256
  const MAX_K := 32
  const INDEX_LIMIT := 0x4000_0000_0000_0000

  /** V(n, k): leave the first position at zero, take a pulse from the budget, or both. */
  function V(n: nat, k: nat): nat
    decreases n, k
  {
    if k == 0 then 1
    else if n == 0 then 0
    else V(n - 1, k) + V(n, k - 1) + V(n - 1, k - 1)
  }

  /** The sum of V(n, j) over j < k. */
  function Sum(n: nat, k: nat): nat {
    if k == 0 then 0 else Sum(n, k - 1) + V(n, k - 1)
  }

  /** By the magnitude in the first position: zero once, anything else with either sign. */
  lemma {:induction false} ByFirstMagnitude(n: nat, k: nat)
    requires n > 0
    ensures V(n, k) == V(n - 1, k) + 2 * Sum(n - 1, k)
  {
    if k > 0 {
      ByFirstMagnitude(n, k - 1);
    }
  }

  lemma {:induction false} MoreRoom(n: nat, m: nat, k: nat)
    requires n <= m
    ensures V(n, k) <= V(m, k)
    decreases m - n
  {
    if n < m {
      MoreRoom(n, m - 1, k);
    }
  }

  lemma {:induction false} NeverEmpty(n: nat, k: nat)
    requires n > 0
    ensures V(n, k) > 0
  {
    if k > 0 {
      NeverEmpty(n, k - 1);
    }
  }

  lemma {:induction false} MorePulses(n: nat, j: nat, k: nat)
    requires n > 0 && j <= k
    ensures 0 < V(n, j) <= V(n, k)
    decreases k - j
  {
    if j < k {
      MorePulses(n, j, k - 1);
    } else {
      NeverEmpty(n, j);
    }
  }

  // --- the table ---

  /** What a lookup answers; zero outside the table. */
  function Count(n: nat, k: nat): (c: nat)
    ensures c <= U64_MAX
  {
    if n <= MAX_N && k <= MAX_K then Saturated(V(n, k)) else 0
  }

  lemma SaturatedSum(a: nat, b: nat, c: nat)
    ensures SaturatingAdd(SaturatingAdd(Saturated(a), Saturated(b)), Saturated(c)) == Saturated(a + b + c)
  {
  }

  /** Saturating at every addition is saturating once at the end. */
  lemma SaturatedStep(n: nat, k: nat)
    requires n > 0 && k > 0
    ensures SaturatingAdd(SaturatingAdd(Saturated(V(n - 1, k)), Saturated(V(n, k - 1))), Saturated(V(n - 1, k - 1)))
         == Saturated(V(n, k))
  {
    hide Saturated;
    hide SaturatingAdd;
    SaturatedSum(V(n - 1, k), V(n, k - 1), V(n - 1, k - 1));
  }

  method BuildTable() returns (v: array2<nat>)
    ensures v.Length0 == MAX_N + 1 && v.Length1 == MAX_K + 1
    ensures forall n, k :: 0 <= n <= MAX_N && 0 <= k <= MAX_K ==> v[n, k] == Count(n, k)
  {
    v := new nat[MAX_N + 1, MAX_K + 1]((n, k) => 0);
    for n := 0 to MAX_N + 1
      invariant forall i :: 0 <= i < n ==> v[i, 0] == 1
    {
      v[n, 0] := 1;
    }
    for k := 1 to MAX_K + 1
      invariant forall i :: 0 <= i <= MAX_N ==> v[i, 0] == 1
      invariant forall j :: 1 <= j < k ==> v[0, j] == 0
    {
      v[0, k] := 0;
    }
    for n := 1 to MAX_N + 1
      invariant forall i, j :: 0 <= i < n && 0 <= j <= MAX_K ==> v[i, j] == Saturated(V(i, j))
      invariant forall i :: n <= i <= MAX_N ==> v[i, 0] == 1
    {
      FillRow(v, n, n - 1);
    }
  }

  method FillRow(v: array2<nat>, n: nat, above: nat)
    requires v.Length0 == MAX_N + 1 && v.Length1 == MAX_K + 1 && n == above + 1 <= MAX_N && v[n, 0] == 1
    requires forall j :: 0 <= j <= MAX_K ==> v[above, j] == Saturated(V(above, j))
    modifies v
    ensures forall j :: 0 <= j <= MAX_K ==> v[n, j] == Saturated(V(n, j))
    ensures forall i, j :: 0 <= i <= MAX_N && 0 <= j <= MAX_K && i != n ==> v[i, j] == old(v[i, j])
  {
    hide Saturated;
    hide SaturatingAdd;
    FirstColumn(n);
    hide V;
    for k := 1 to MAX_K + 1
      invariant forall j :: 0 <= j < k ==> v[n, j] == Saturated(V(n, j))
      invariant forall i, j :: 0 <= i <= MAX_N && 0 <= j <= MAX_K && i != n ==> v[i, j] == old(v[i, j])
    {
      SaturatedStep(n, k);
      var a, b, c := v[above, k], v[n, k - 1], v[above, k - 1];
      v[n, k] := SaturatingAdd(SaturatingAdd(a, b), c);
    }
  }

  lemma FirstColumn(n: nat)
    ensures Saturated(V(n, 0)) == 1
  {
  }

  // --- affording pulses ---

  function Pow2(n: nat): (p: nat)
    ensures p > 0
  {
    if n == 0 then 1 else 2 * Pow2(n - 1)
  }

  lemma {:induction false} Pow2Monotone(a: nat, b: nat)
    requires a <= b
    ensures Pow2(a) <= Pow2(b)
    decreases b - a
  {
    if a < b {
      Pow2Monotone(a, b - 1);
    }
  }

  /** A codebook with vectors in it, small enough to index, and no more than `budget` bits wide. */
  predicate Affordable(n: nat, k: nat, budget: nat) {
    0 < Count(n, k) < INDEX_LIMIT && Count(n, k) <= Pow2(budget)
  }

  /** What k pulses cost, fewer cost no more: nothing affordable lies past the first failure. */
  lemma AffordableBelow(n: nat, j: nat, k: nat, budget: nat)
    requires 1 <= j <= k && Affordable(n, k, budget)
    ensures Affordable(n, j, budget)
  {
    if n > 0 {
      MorePulses(n, j, k);
    }
  }

  function PulsesUpTo(n: nat, budget: nat, k: nat): (best: nat)
    ensures best <= k
    ensures best > 0 ==> Affordable(n, best, budget)
    ensures forall j :: best < j <= k ==> !Affordable(n, j, budget)
  {
    if k == 0 || Affordable(n, k, budget) then k else PulsesUpTo(n, budget, k - 1)
  }

  /** The largest affordable pulse count. */
  function Pulses(n: nat, budget: nat): (k: nat)
    ensures k <= MAX_K
    ensures k > 0 ==> Affordable(n, k, budget)
  {
    PulsesUpTo(n, budget, MAX_K)
  }

  /** Whatever is affordable is no more than what is chosen. */
  lemma PulsesAtLeast(n: nat, budget: nat, k: nat)
    requires k <= MAX_K && Affordable(n, k, budget)
    ensures Pulses(n, budget) >= k
  {
    hide Affordable;
    var p := PulsesUpTo(n, budget, MAX_K);
    assert k <= p;
  }

  /** No other count is affordable with nothing affordable above it. */
  lemma PulsesUnique(n: nat, budget: nat, best: nat)
    requires best <= MAX_K && (best > 0 ==> Affordable(n, best, budget))
    requires forall k :: best < k <= MAX_K ==> !Affordable(n, k, budget)
    ensures best == Pulses(n, budget)
  {
    hide Affordable;
    var p := Pulses(n, budget);
    assert p == 0 || Affordable(n, p, budget);
    assert best == 0 || Affordable(n, best, budget);
  }

  /**
   * As many pulses as there are, up to 32, whose vectors of length `n` can be
   * told apart in `budget` bits, and in 62.
   */
  ghost predicate MostAfforded(n: nat, budget: nat, k: nat) {
    k <= 32 &&
    (k > 0 ==> 1 <= n <= 256 && V(n, k) <= Pow2(budget) && V(n, k) < 0x4000_0000_0000_0000) &&
    (k < 32 && 1 <= n <= 256 ==> V(n, k + 1) > Pow2(budget) || V(n, k + 1) >= 0x4000_0000_0000_0000)
  }

  lemma PulsesAreMost(n: nat, budget: nat)
    ensures MostAfforded(n, budget, Pulses(n, budget))
  {
    hide Pow2;
    var k := Pulses(n, budget);
    assert V(0, k) == if k == 0 then 1 else 0;
    if k < MAX_K && 1 <= n <= MAX_N && V(n, k + 1) < INDEX_LIMIT {
      SomeVectors(n, k + 1);
      hide V;
      assert Count(n, k + 1) == V(n, k + 1);
      if V(n, k + 1) <= Pow2(budget) {
        PulsesAtLeast(n, budget, k + 1);
      }
    }
  }

  lemma {:induction false} SomeVectors(n: nat, k: nat)
    requires n > 0
    ensures V(n, k) > 0
  {
    if k > 0 {
      SomeVectors(n, k - 1);
    }
  }

  /** The search finds it, though it stops at its first failure. */
  method PulsesFor(n: nat, budget: nat) returns (best: nat)
    ensures best == Pulses(n, budget) && MostAfforded(n, budget, best)
    ensures forall k :: best < k <= MAX_K ==> !Affordable(n, k, budget)
  {
    hide MostAfforded;
    PulsesAreMost(n, budget);
    if n == 0 {
      assert forall k :: 0 < k ==> V(0, k) == 0;
      PulsesUnique(n, budget, 0);
      return 0;
    }
    best := 0;
    for k := 1 to MAX_K + 1
      invariant best == k - 1
      invariant best > 0 ==> Affordable(n, best, budget)
    {
      if Count(n, k) == 0 || !Affordable(n, k, budget) {
        forall j | k <= j <= MAX_K ensures !Affordable(n, j, budget) {
          if Affordable(n, j, budget) {
            AffordableBelow(n, k, j, budget);
          }
        }
        PulsesUnique(n, budget, best);
        return;
      }
      best := k;
    }
    PulsesUnique(n, budget, best);
  }

  /** The least number of bits an index into `c` vectors fits in. */
  function Width(c: nat): (w: nat)
    ensures c <= Pow2(w)
    ensures forall v :: 0 <= v < w ==> Pow2(v) < c
  {
    WidthFrom(c, 0)
  }

  function WidthFrom(c: nat, from: nat): (w: nat)
    requires forall v :: 0 <= v < from ==> Pow2(v) < c
    ensures from <= w && c <= Pow2(w)
    ensures forall v :: 0 <= v < w ==> Pow2(v) < c
    decreases if c > Pow2(from) then c - Pow2(from) else 0
  {
    if c <= Pow2(from) then from else WidthFrom(c, from + 1)
  }

  /** What `PulsesFor` chose can be addressed within the budget and within 62 bits. */
  lemma AffordableWidth(n: nat, k: nat, budget: nat)
    requires Affordable(n, k, budget)
    ensures Width(Count(n, k)) <= budget && Width(Count(n, k)) <= 62
    ensures V(n, k) == Count(n, k)
  {
    IndexBits();
  }

  lemma {:induction false} Pow2Sum(a: nat, b: nat)
    ensures Pow2(a + b) == Pow2(a) * Pow2(b)
  {
    if a > 0 {
      Pow2Sum(a - 1, b);
      Doubled(Pow2(a - 1), Pow2(b));
    }
  }

  lemma Doubled(p: nat, q: nat)
    ensures 2 * (p * q) == (2 * p) * q
  {
  }

  lemma IndexBits()
    ensures Pow2(32) == 0x1_0000_0000 && Pow2(62) == INDEX_LIMIT
  {
    assert Pow2(2) == 4;
    Pow2Sum(2, 2);
    Pow2Sum(4, 4);
    Pow2Sum(8, 8);
    Pow2Sum(16, 16);
    Pow2Sum(8, 4);
    Pow2Sum(12, 2);
    Pow2Sum(16, 14);
    Pow2Sum(32, 30);
  }
}
