/** Choosing a codebook vector for a target over exact reals: project, then place the rest one by one. */
module PvqSearch {
  import opened PvqIndex

  function AbsR(x: real): (r: real)
    ensures r >= 0.0
  {
    if x >= 0.0 then x else -x
  }

  function Sign(x: real): (s: int)
    ensures s == 1 || s == -1
  {
    if x >= 0.0 then 1 else -1
  }

  function Norm(t: seq<real>): (r: real)
    ensures r >= 0.0
  {
    if t == [] then 0.0 else AbsR(t[0]) + Norm(t[1..])
  }

  function Dot(t: seq<real>, y: seq<int>): real
    requires |t| == |y|
  {
    if t == [] then 0.0 else Term(t[0], y[0]) + Dot(t[1..], y[1..])
  }

  function Term(x: real, q: int): real {
    x * (q as real)
  }

  function Squares(y: seq<int>): (r: nat) {
    if y == [] then 0 else Square(y[0]) + Squares(y[1..])
  }

  function Square(x: int): (r: nat)
    ensures x != 0 ==> r > 0
  {
    x * x
  }

  /** No entry points away from its target. */
  ghost predicate Agrees(t: seq<real>, y: seq<int>) {
    |t| == |y| && forall i :: 0 <= i < |y| ==> y[i] == 0 || (y[i] > 0) == (t[i] >= 0.0)
  }

  // --- projection ---

  function ProjectOne(x: real, scale: real): int {
    var whole := (AbsR(x) * scale).Floor;
    if x >= 0.0 then whole else -whole
  }

  function Project(t: seq<real>, scale: real): (y: seq<int>)
    ensures |y| == |t|
    ensures forall i :: 0 <= i < |y| ==> y[i] == ProjectOne(t[i], scale)
  {
    seq(|t|, i requires 0 <= i < |t| => ProjectOne(t[i], scale))
  }

  lemma ProductNonNegative(a: real, b: real)
    requires a >= 0.0 && b >= 0.0
    ensures a * b >= 0.0
  {
  }

  lemma ProjectOneBounds(x: real, scale: real)
    requires scale >= 0.0
    ensures Abs(ProjectOne(x, scale)) as real <= AbsR(x) * scale
    ensures ProjectOne(x, scale) == 0 || (ProjectOne(x, scale) > 0) == (x >= 0.0)
  {
    ProductNonNegative(AbsR(x), scale);
    var f := (AbsR(x) * scale).Floor;
    assert f >= 0;
  }

  /** The projection uses at most its share of the norm. */
  lemma {:induction false} ProjectNorm(t: seq<real>, scale: real)
    requires scale >= 0.0
    ensures L1(Project(t, scale)) as real <= Norm(t) * scale
  {
    hide ProjectOne;
    hide AbsR;
    if t != [] {
      ProjectNorm(t[1..], scale);
      ProjectOneBounds(t[0], scale);
      var y := Project(t, scale);
      assert y[1..] == Project(t[1..], scale);
      Distribute(AbsR(t[0]), Norm(t[1..]), scale);
      assert L1(y) == Abs(y[0]) + L1(y[1..]);
    }
  }

  lemma Distribute(a: real, b: real, c: real)
    ensures (a + b) * c == a * c + b * c
  {
  }

  lemma ProjectAgrees(t: seq<real>, scale: real)
    requires scale >= 0.0
    ensures Agrees(t, Project(t, scale))
  {
    forall i | 0 <= i < |t| ensures var p := Project(t, scale)[i]; p == 0 || (p > 0) == (t[i] >= 0.0) {
      ProjectOneBounds(t[i], scale);
    }
  }

  const NEGLIGIBLE := 0.000000001

  function Scale(t: seq<real>, k: nat): real
    requires Norm(t) > NEGLIGIBLE
  {
    (k as real - 0.5) / Norm(t)
  }

  /** Where the greedy stage starts from. */
  function Projected(t: seq<real>, k: nat): (y: seq<int>)
    ensures |y| == |t|
  {
    if Norm(t) > NEGLIGIBLE then Project(t, Scale(t, k)) else Zeros(|t|)
  }

  function Zeros(n: nat): (y: seq<int>)
    ensures |y| == n && forall i :: 0 <= i < n ==> y[i] == 0
  {
    seq(n, i => 0)
  }

  lemma {:induction false} ZerosL1(n: nat)
    ensures L1(Zeros(n)) == 0
  {
    if n > 0 {
      ZerosL1(n - 1);
      assert Zeros(n)[1..] == Zeros(n - 1);
    }
  }

  /** Projection deliberately under-shoots: at least one pulse is left to place. */
  lemma ProjectedUndershoots(t: seq<real>, k: nat)
    requires k > 0
    ensures Agrees(t, Projected(t, k))
    ensures L1(Projected(t, k)) <= k - 1
  {
    hide Norm;
    hide L1;
    hide Agrees;
    if Norm(t) > NEGLIGIBLE {
      DivideBack(k as real - 0.5, Norm(t));
      ProjectNorm(t, Scale(t, k));
      ProjectAgrees(t, Scale(t, k));
    } else {
      ZerosAgree(t);
      ZerosL1(|t|);
    }
  }

  lemma ZerosAgree(t: seq<real>)
    ensures Agrees(t, Zeros(|t|))
  {
  }

  lemma DivideBack(a: real, b: real)
    requires a >= 0.0 && b > 0.0
    ensures b * (a / b) == a && a / b >= 0.0
  {
  }

  /** `count` is the whole pulses in an entry's share, `pulses` being shared out over the whole norm. */
  ghost predicate IsShare(x: real, pulses: real, norm: real, count: int) {
    count as real * norm <= AbsR(x) * pulses < (count + 1) as real * norm
  }

  /** Every entry starts with its share of k - 1/2, on its target's side; with none for a target of nothing. */
  ghost predicate Started(t: seq<real>, k: nat, start: seq<int>) {
    Agrees(t, start) &&
    forall i :: 0 <= i < |t| ==>
      if Norm(t) > 0.000000001 then IsShare(t[i], k as real - 0.5, Norm(t), Abs(start[i])) else start[i] == 0
  }

  lemma ProjectedStarts(t: seq<real>, k: nat)
    requires k > 0
    ensures Started(t, k, Projected(t, k))
  {
    hide IsShare;
    hide Norm;
    hide ProjectOne;
    hide L1;
    ProjectedUndershoots(t, k);
    forall i | 0 <= i < |t| && Norm(t) > 0.000000001
      ensures IsShare(t[i], k as real - 0.5, Norm(t), Abs(Projected(t, k)[i]))
    {
      ProjectOneIs(t[i], k as real - 0.5, Norm(t), Scale(t, k));
    }
  }

  lemma ProjectOneIs(x: real, pulses: real, norm: real, scale: real)
    requires norm > 0.0 && pulses >= 0.0 && scale == pulses / norm
    ensures IsShare(x, pulses, norm, Abs(ProjectOne(x, scale)))
  {
    hide AbsR;
    DivideBack(pulses, norm);
    var whole := AbsR(x) * scale;
    ProductNonNegative(AbsR(x), scale);
    var count := Abs(ProjectOne(x, scale)) as real;
    assert count <= whole < count + 1.0;
    Larger(norm, count, whole);
    Larger(norm, whole, count + 1.0);
    assert whole * norm == AbsR(x) * pulses by { Regroup(AbsR(x), scale, norm); }
  }

  lemma Larger(k: real, a: real, b: real)
    requires k > 0.0
    ensures a <= b ==> a * k <= b * k
    ensures a < b <==> a * k < b * k
  {
  }

  lemma Regroup(a: real, b: real, c: real)
    ensures (a * b) * c == a * (c * b)
  {
  }

  // --- one more pulse ---

  function AddPulse(t: seq<real>, y: seq<int>, i: nat): (r: seq<int>)
    requires |t| == |y| && i < |y|
    ensures r == y[i := y[i] + if t[i] >= 0.0 then 1 else -1]
  {
    y[i := y[i] + Sign(t[i])]
  }

  /** The two running sums after one more pulse toward `x`, where the entry so far is `q`. */
  function NewXY(xy: real, x: real): real {
    xy + Toward(x)
  }

  /** What one pulse the right way adds to the inner product. */
  function Toward(x: real): real {
    Sign(x) as real * x
  }

  function NewYY(yy: int, q: int, x: real): int {
    yy + Wider(q, x)
  }

  /** And to the squared norm, where the entry so far is `q`. */
  function Wider(q: int, x: real): int {
    2 * (q * Sign(x)) + 1
  }

  lemma OneMore(x: real, q: int)
    ensures Term(x, q + Sign(x)) == Term(x, q) + Toward(x)
    ensures Square(q + Sign(x)) == Square(q) + Wider(q, x)
  {
    Distribute(q as real, Sign(x) as real, x);
    var s := Sign(x);
    assert (q + s) * (q + s) == q * q + 2 * (q * s) + s * s;
  }

  lemma {:induction false} PulseSums(t: seq<real>, y: seq<int>, i: nat)
    requires |t| == |y| && i < |y|
    ensures Dot(t, AddPulse(t, y, i)) == NewXY(Dot(t, y), t[i])
    ensures Squares(AddPulse(t, y, i)) == NewYY(Squares(y), y[i], t[i])
  {
    hide Term;
    hide Square;
    hide Toward;
    hide Wider;
    hide Sign;
    var r := AddPulse(t, y, i);
    if i == 0 {
      assert r[1..] == y[1..];
      OneMore(t[0], y[0]);
    } else {
      PulseSums(t[1..], y[1..], i - 1);
      assert r[1..] == AddPulse(t[1..], y[1..], i - 1);
    }
  }

  lemma {:induction false} PulseL1(t: seq<real>, y: seq<int>, i: nat)
    requires Agrees(t, y) && i < |y|
    ensures Agrees(t, AddPulse(t, y, i))
    ensures L1(AddPulse(t, y, i)) == L1(y) + 1
    ensures Squares(AddPulse(t, y, i)) > 0
  {
    var r := AddPulse(t, y, i);
    if i == 0 {
      assert r[1..] == y[1..];
    } else {
      assert Agrees(t[1..], y[1..]) by {
        forall j | 0 <= j < |y| - 1 ensures y[1..][j] == 0 || (y[1..][j] > 0) == (t[1..][j] >= 0.0) {
          assert y[1..][j] == y[j + 1] && t[1..][j] == t[j + 1];
        }
      }
      PulseL1(t[1..], y[1..], i - 1);
      assert r[1..] == AddPulse(t[1..], y[1..], i - 1);
    }
  }

  function SignedSquareOver(x: real, q: int): real {
    if q > 0 then x * AbsR(x) / q as real else 0.0
  }

  /** The squared cosine between target and vector, with the cosine's sign, scaled by the target's norm. */
  function Cosine(t: seq<real>, y: seq<int>): real
    requires |t| == |y|
  {
    SignedSquareOver(Dot(t, y), Squares(y))
  }

  function Score(t: seq<real>, y: seq<int>, i: nat): real
    requires |t| == |y| && i < |y|
  {
    Cosine(t, AddPulse(t, y, i))
  }

  /** The first place where one more pulse makes the cosine largest, among the first `n`. */
  ghost predicate IsBest(t: seq<real>, y: seq<int>, n: nat, best: nat)
    requires |t| == |y| && n <= |y|
  {
    best < n &&
    (forall j :: 0 <= j < n ==> Score(t, y, j) <= Score(t, y, best)) &&
    forall j :: 0 <= j < best ==> Score(t, y, j) < Score(t, y, best)
  }

  function Best(t: seq<real>, y: seq<int>, n: nat): (best: nat)
    requires |t| == |y| && 1 <= n <= |y|
    ensures best < n
  {
    if n == 1 then 0
    else
      var b := Best(t, y, n - 1);
      if Score(t, y, n - 1) > Score(t, y, b) then n - 1 else b
  }

  lemma {:induction false} BestIsBest(t: seq<real>, y: seq<int>, n: nat)
    requires |t| == |y| && 1 <= n <= |y|
    ensures IsBest(t, y, n, Best(t, y, n))
  {
    hide Score;
    if n > 1 {
      BestIsBest(t, y, n - 1);
    }
  }

  /** `left` more pulses, each where it is worth most given the ones before. */
  function Greedy(t: seq<real>, y: seq<int>, left: nat): (r: seq<int>)
    requires |t| == |y| && |t| > 0
    ensures |r| == |t|
    decreases left
  {
    if left == 0 then y else Greedy(t, AddPulse(t, y, Best(t, y, |t|)), left - 1)
  }

  lemma {:induction false} GreedyL1(t: seq<real>, y: seq<int>, left: nat)
    requires Agrees(t, y) && |t| > 0
    ensures L1(Greedy(t, y, left)) == L1(y) + left && Agrees(t, Greedy(t, y, left))
    decreases left
  {
    hide Agrees;
    hide Best;
    AgreesLength(t, y);
    if left > 0 {
      var next := AddPulse(t, y, Best(t, y, |t|));
      PulseL1(t, y, Best(t, y, |t|));
      GreedyL1(t, next, left - 1);
    }
  }

  // --- what the greedy stage does, by inner products and norms alone ---

  lemma {:induction false} DotNonNegative(t: seq<real>, y: seq<int>)
    requires Agrees(t, y)
    ensures Dot(t, y) >= 0.0
  {
    if t != [] {
      TailAgrees(t, y);
      DotNonNegative(t[1..], y[1..]);
      if y[0] > 0 {
        ProductNonNegative(t[0], y[0] as real);
      } else if y[0] < 0 {
        ProductNonNegative(-t[0], -y[0] as real);
        Negated(t[0], y[0] as real);
      }
    }
  }

  lemma Negated(x: real, q: real)
    ensures -x * -q == x * q
  {
  }

  lemma TailAgrees(t: seq<real>, y: seq<int>)
    requires Agrees(t, y) && t != []
    ensures |y| == |t| && Agrees(t[1..], y[1..])
  {
    forall j | 0 <= j < |y| - 1 ensures y[1..][j] == 0 || (y[1..][j] > 0) == (t[1..][j] >= 0.0) {
      assert y[1..][j] == y[j + 1] && t[1..][j] == t[j + 1];
    }
  }

  /** An inner product squared, by the other vector's norm squared. */
  function Cross(x: real, q: int): real {
    x * x * q as real
  }

  /** Of two vectors on their target's side, the one at the smaller angle scores higher. */
  lemma ScoreOrder(x: real, p: int, u: real, q: int)
    requires x >= 0.0 && u >= 0.0 && p > 0 && q > 0
    ensures SignedSquareOver(x, p) <= SignedSquareOver(u, q) <==> Cross(x, q) <= Cross(u, p)
  {
    var a, b := x * x / p as real, u * u / q as real;
    DivideBack(x * x, p as real) by { ProductNonNegative(x, x); }
    DivideBack(u * u, q as real) by { ProductNonNegative(u, u); }
    var pq := p as real * q as real;
    assert x * x * q as real == pq * a by { Thrice(p as real, a, q as real); }
    assert u * u * p as real == pq * b by { Thrice(q as real, b, p as real); }
    Ordered(pq, a, b) by { Positive(p as real, q as real); }
  }

  lemma Thrice(p: real, a: real, q: real)
    ensures (p * a) * q == (p * q) * a && (p * a) * q == (q * p) * a
  {
  }

  lemma Positive(p: real, q: real)
    requires p > 0.0 && q > 0.0
    ensures p * q > 0.0
  {
  }

  lemma Ordered(k: real, a: real, b: real)
    requires k > 0.0
    ensures a <= b <==> k * a <= k * b
  {
  }

  /**
   * The first place where one more pulse brings the vector nearest in angle to
   * the target: no other place has a larger inner product squared for its norm
   * squared, and none before it as large a one.
   */
  ghost predicate Nearest(t: seq<real>, y: seq<int>, best: nat)
    requires |t| == |y|
  {
    best < |t| &&
    forall j :: 0 <= j < |t| ==>
      var a, b := AddPulse(t, y, j), AddPulse(t, y, best);
      var second, first := Cross(Dot(t, a), Squares(b)), Cross(Dot(t, b), Squares(a));
      second <= first && (j < best ==> second < first)
  }

  lemma BestIsNearest(t: seq<real>, y: seq<int>)
    requires Agrees(t, y) && |t| > 0
    ensures |y| == |t| && Nearest(t, y, Best(t, y, |t|))
  {
    AgreesLength(t, y);
    var best := Best(t, y, |t|);
    BestIsBest(t, y, |t|);
    hide Dot;
    hide Squares;
    hide Agrees;
    hide Best;
    hide Score;
    hide Cross;
    forall j | 0 <= j < |t|
      ensures var a, b := AddPulse(t, y, j), AddPulse(t, y, best);
        var second, first := Cross(Dot(t, a), Squares(b)), Cross(Dot(t, b), Squares(a));
        second <= first && (j < best ==> second < first)
    {
      PairOrder(t, y, j, best);
    }
  }

  lemma PairOrder(t: seq<real>, y: seq<int>, j: nat, best: nat)
    requires Agrees(t, y) && j < |t| && best < |t|
    ensures |y| == |t|
    ensures var a, b := AddPulse(t, y, j), AddPulse(t, y, best);
      var second, first := Cross(Dot(t, a), Squares(b)), Cross(Dot(t, b), Squares(a));
      (Score(t, y, j) <= Score(t, y, best) <==> second <= first) &&
      (Score(t, y, best) <= Score(t, y, j) <==> first <= second)
  {
    AgreesLength(t, y);
    hide Dot;
    hide Squares;
    hide Agrees;
    hide L1;
    hide SignedSquareOver;
    hide Cross;
    PulseL1(t, y, j);
    PulseL1(t, y, best);
    var a, b := AddPulse(t, y, j), AddPulse(t, y, best);
    DotNonNegative(t, a);
    DotNonNegative(t, b);
    ScoreOrder(Dot(t, a), Squares(a), Dot(t, b), Squares(b));
    ScoreOrder(Dot(t, b), Squares(b), Dot(t, a), Squares(a));
  }

  /** `left` pulses later, each where it brought the vector nearest. */
  ghost predicate PlacedFrom(t: seq<real>, start: seq<int>, y: seq<int>, left: nat)
    decreases left
  {
    |start| == |t| &&
    if left == 0 then y == start
    else exists i :: 0 <= i < |t| && Nearest(t, start, i) && PlacedFrom(t, AddPulse(t, start, i), y, left - 1)
  }

  lemma {:induction false} GreedyPlaces(t: seq<real>, y: seq<int>, left: nat)
    requires Agrees(t, y) && |t| > 0
    ensures |y| == |t| && PlacedFrom(t, y, Greedy(t, y, left), left)
    ensures forall i :: 0 <= i < |t| ==> Abs(Greedy(t, y, left)[i]) >= Abs(y[i])
    decreases left
  {
    hide Agrees;
    hide Nearest;
    hide Best;
    hide AddPulse;
    hide L1;
    hide Squares;
    AgreesLength(t, y);
    if left > 0 {
      var best := Best(t, y, |t|);
      var next := AddPulse(t, y, best);
      BestIsNearest(t, y);
      PulseL1(t, y, best);
      PulseWidens(t, y, best);
      GreedyPlaces(t, next, left - 1);
    }
  }

  lemma PulseWidens(t: seq<real>, y: seq<int>, i: nat)
    requires Agrees(t, y) && i < |t|
    ensures |y| == |t| && forall j :: 0 <= j < |t| ==> Abs(AddPulse(t, y, i)[j]) >= Abs(y[j])
  {
    hide L1;
  }

  /** What a search comes to: the projection, and every pulse still missing placed where it helps most. */
  ghost predicate Searched(t: seq<real>, k: nat, y: seq<int>) {
    exists start :: Started(t, k, start) && L1(start) < k && PlacedFrom(t, start, y, k - L1(start))
  }

  /** No entry is a whole pulse short of its share. */
  ghost predicate NoneShort(t: seq<real>, k: nat, y: seq<int>) {
    |y| == |t| &&
    (Norm(t) > 0.000000001 ==> forall i :: 0 <= i < |t| ==> Reaches(t[i], k as real - 0.5, Norm(t), Abs(y[i])))
  }

  ghost predicate Reaches(x: real, pulses: real, norm: real, count: int) {
    (count + 1) as real * norm > AbsR(x) * pulses
  }

  lemma MoreReaches(x: real, pulses: real, norm: real, count: int, more: int)
    requires norm > 0.0 && IsShare(x, pulses, norm, count) && count <= more
    ensures Reaches(x, pulses, norm, more)
  {
    Larger(norm, (count + 1) as real, (more + 1) as real);
  }

  lemma StaysAbove(t: seq<real>, k: nat, start: seq<int>, y: seq<int>)
    requires Started(t, k, start) && |start| == |y| == |t|
    requires forall i :: 0 <= i < |t| ==> Abs(y[i]) >= Abs(start[i])
    ensures NoneShort(t, k, y)
  {
    hide IsShare;
    hide Reaches;
    hide Norm;
    hide Agrees;
    forall i | 0 <= i < |t| && Norm(t) > 0.000000001 ensures Reaches(t[i], k as real - 0.5, Norm(t), Abs(y[i])) {
      MoreReaches(t[i], k as real - 0.5, Norm(t), Abs(start[i]), Abs(y[i]));
    }
  }

  lemma ChosenIsSearched(t: seq<real>, k: nat)
    requires |t| > 0 && k > 0
    ensures Searched(t, k, Chosen(t, k)) && NoneShort(t, k, Chosen(t, k))
  {
    hide Agrees;
    hide Norm;
    hide L1;
    hide Greedy;
    hide PlacedFrom;
    hide Started;
    hide NoneShort;
    hide Projected;
    var start := Projected(t, k);
    ProjectedUndershoots(t, k);
    ProjectedStarts(t, k);
    GreedyPlaces(t, start, k - L1(start));
    StaysAbove(t, k, start, Chosen(t, k));
  }

  lemma StartedOnce(t: seq<real>, k: nat, a: seq<int>, b: seq<int>)
    requires Started(t, k, a) && Started(t, k, b)
    ensures a == b
  {
    hide Norm;
    hide IsShare;
    forall i | 0 <= i < |t| ensures a[i] == b[i] {
      if Norm(t) > 0.000000001 {
        assert IsShare(t[i], k as real - 0.5, Norm(t), Abs(a[i])) && IsShare(t[i], k as real - 0.5, Norm(t), Abs(b[i]));
        ShareOnce(t[i], k as real - 0.5, Norm(t), Abs(a[i]), Abs(b[i]));
      }
    }
  }

  lemma ShareOnce(x: real, pulses: real, norm: real, a: int, b: int)
    requires norm > 0.0 && IsShare(x, pulses, norm, a) && IsShare(x, pulses, norm, b)
    ensures a == b
  {
    hide AbsR;
    Crossed(norm, a, b + 1, AbsR(x) * pulses);
    Crossed(norm, b, a + 1, AbsR(x) * pulses);
  }

  lemma Crossed(norm: real, a: int, b: int, due: real)
    requires norm > 0.0 && a as real * norm <= due < b as real * norm
    ensures a < b
  {
    Larger(norm, a as real, b as real);
  }

  lemma {:induction false} PlacedOnce(t: seq<real>, start: seq<int>, left: nat, y: seq<int>, z: seq<int>)
    requires PlacedFrom(t, start, y, left) && PlacedFrom(t, start, z, left)
    ensures y == z
    decreases left
  {
    hide *;
    if left > 0 {
      var i := FirstPulse(t, start, y, left);
      var j := FirstPulse(t, start, z, left);
      NearestOnce(t, start, i, j);
      PlacedOnce(t, AddPulse(t, start, i), left - 1, y, z);
    } else {
      NonePlaced(t, start, y);
      NonePlaced(t, start, z);
    }
  }

  lemma NonePlaced(t: seq<real>, start: seq<int>, y: seq<int>)
    requires PlacedFrom(t, start, y, 0)
    ensures y == start
  {
  }

  lemma FirstPulse(t: seq<real>, start: seq<int>, y: seq<int>, left: nat) returns (i: nat)
    requires PlacedFrom(t, start, y, left) && left > 0
    ensures |t| == |start| && i < |t| && Nearest(t, start, i) && PlacedFrom(t, AddPulse(t, start, i), y, left - 1)
  {
    hide Nearest;
    hide AddPulse;
    i :| 0 <= i < |t| && Nearest(t, start, i) && PlacedFrom(t, AddPulse(t, start, i), y, left - 1);
  }

  lemma NearestOnce(t: seq<real>, y: seq<int>, i: nat, j: nat)
    requires |t| == |y| && Nearest(t, y, i) && Nearest(t, y, j)
    ensures i == j
  {
    hide Dot;
    hide Squares;
    hide Cross;
    var a, b := AddPulse(t, y, i), AddPulse(t, y, j);
    hide AddPulse;
    assert Cross(Dot(t, a), Squares(b)) <= Cross(Dot(t, b), Squares(a)) <= Cross(Dot(t, a), Squares(b));
  }

  /** And there is only one such vector. */
  lemma SearchedOnce(t: seq<real>, k: nat, y: seq<int>, z: seq<int>)
    requires Searched(t, k, y) && Searched(t, k, z)
    ensures y == z
  {
    hide Started;
    hide PlacedFrom;
    hide L1;
    var a :| Started(t, k, a) && L1(a) < k && PlacedFrom(t, a, y, k - L1(a));
    var b :| Started(t, k, b) && L1(b) < k && PlacedFrom(t, b, z, k - L1(b));
    StartedOnce(t, k, a, b);
    PlacedOnce(t, a, k - L1(a), y, z);
  }

  lemma AgreesLength(t: seq<real>, y: seq<int>)
    requires Agrees(t, y)
    ensures |t| == |y|
  {
  }

  /** What a search settles on. */
  function Chosen(t: seq<real>, k: nat): (y: seq<int>)
    ensures |y| == |t|
  {
    if |t| == 0 || k == 0 then Zeros(|t|)
    else
      ProjectedUndershoots(t, k);
      Greedy(t, Projected(t, k), k - L1(Projected(t, k)))
  }

  /** It has exactly its pulses, and none against its target's sign. */
  lemma ChosenInBook(t: seq<real>, k: nat)
    requires |t| > 0
    ensures InBook(Chosen(t, k), |t|, k) && Agrees(t, Chosen(t, k))
  {
    if k == 0 {
      ZerosL1(|t|);
    } else {
      ProjectedUndershoots(t, k);
      GreedyL1(t, Projected(t, k), k - L1(Projected(t, k)));
    }
  }

  // --- the loops ---

  /** A score from running sums is the score from scratch. */
  lemma RunningScore(t: seq<real>, y: seq<int>, i: nat, xy: real, yy: int)
    requires Agrees(t, y) && i < |y| && xy == Dot(t, y) && yy == Squares(y)
    ensures var newXY, newYY := NewXY(xy, t[i]), NewYY(yy, y[i], t[i]);
      newYY > 0 && Score(t, y, i) == SignedSquareOver(newXY, newYY)
  {
    hide SignedSquareOver;
    hide Dot;
    hide Squares;
    hide L1;
    hide Sign;
    hide NewXY;
    hide NewYY;
    PulseSums(t, y, i);
    PulseL1(t, y, i);
  }

  lemma BestStep(t: seq<real>, y: seq<int>, i: nat)
    requires |t| == |y| && i < |y|
    ensures i == 0 ==> Best(t, y, 1) == 0
    ensures i > 0 ==> Best(t, y, i + 1) == if Score(t, y, i) > Score(t, y, Best(t, y, i)) then i else Best(t, y, i)
  {
  }

  method BestPlace(t: seq<real>, y: seq<int>, xy: real, yy: int) returns (best: nat)
    requires Agrees(t, y) && |t| > 0 && xy == Dot(t, y) && yy == Squares(y)
    ensures best == Best(t, y, |t|) && best < |t|
  {
    AgreesLength(t, y);
    hide *;
    best := 0;
    var bestScore := 0.0;
    for i := 0 to |t|
      invariant i > 0 ==> best == Best(t, y, i) && bestScore == Score(t, y, best)
    {
      RunningScore(t, y, i, xy, yy);
      var newXY, newYY := NewXY(xy, t[i]), NewYY(yy, y[i], t[i]);
      var score := SignedSquareOver(newXY, newYY);
      BestStep(t, y, i);
      if i == 0 || score > bestScore {
        bestScore := score;
        best := i;
      }
    }
  }

  method Sums(t: seq<real>, y: seq<int>) returns (xy: real, yy: nat, placed: nat)
    requires |t| == |y|
    ensures xy == Dot(t, y) && yy == Squares(y) && placed == L1(y)
  {
    if t == [] {
      xy, yy, placed := 0.0, 0, 0;
    } else {
      xy, yy, placed := Sums(t[1..], y[1..]);
      xy, yy, placed := Term(t[0], y[0]) + xy, Square(y[0]) + yy, Abs(y[0]) + placed;
    }
  }

  /**
   * The `k`-pulse vector for a target: exactly `k` pulses, none against its
   * target's sign, and each greedy pulse where the cosine gains most.
   */
  method Search(t: seq<real>, k: nat) returns (y: seq<int>)
    ensures |y| == |t|
    ensures |t| == 0 || k == 0 ==> y == Zeros(|t|)
    ensures |t| > 0 ==> InBook(y, |t|, k) && Agrees(t, y)
    ensures |t| > 0 && k > 0 ==> Searched(t, k, y) && NoneShort(t, k, y)
    ensures y == Chosen(t, k)
  {
    y := Zeros(|t|);
    if |t| == 0 || k == 0 {
      ZerosL1(|t|);
      return;
    }
    hide L1;
    hide Agrees;
    hide Searched;
    hide NoneShort;
    hide Projected;
    ProjectedUndershoots(t, k);
    ChosenInBook(t, k);
    ChosenIsSearched(t, k);
    y := ProjectOnto(t, k);
    var xy, yy, placed := Sums(t, y);
    y := PlaceRest(t, y, xy, yy, placed, k);
  }

  /** Most of the pulses into roughly the right places at once, and deliberately too few. */
  method ProjectOnto(t: seq<real>, k: nat) returns (y: seq<int>)
    ensures y == Projected(t, k)
  {
    hide Norm;
    hide ProjectOne;
    hide AbsR;
    var norm := NormOf(t);
    y := Zeros(|t|);
    if norm > NEGLIGIBLE {
      var scale := (k as real - 0.5) / norm;
      for i := 0 to |t|
        invariant |y| == |t|
        invariant forall j :: 0 <= j < i ==> y[j] == ProjectOne(t[j], scale)
      {
        y := y[i := ProjectOne(t[i], scale)];
      }
      assert y == Project(t, scale);
    }
  }

  method NormOf(t: seq<real>) returns (norm: real)
    ensures norm == Norm(t)
  {
    norm := 0.0;
    for i := |t| downto 0
      invariant norm == Norm(t[i..])
    {
      assert t[i..][1..] == t[i + 1..];
      norm := AbsR(t[i]) + norm;
    }
    assert t[0..] == t;
  }

  /** The greedy loop, on running sums. */
  method PlaceRest(t: seq<real>, start: seq<int>, startXY: real, startYY: int, already: nat, k: nat) returns (y: seq<int>)
    requires |t| > 0 && Agrees(t, start) && already == L1(start) <= k
    requires startXY == Dot(t, start) && startYY == Squares(start)
    ensures |start| == |t| && y == Greedy(t, start, k - already)
  {
    AgreesLength(t, start);
    hide *;
    y := start;
    var xy, yy, placed := startXY, startYY, already;
    PlacingStarts(t, start, startXY, startYY, already, k);
    while placed < k
      invariant Placing(t, start, k - already, y, xy, yy, k - placed)
    {
      PlacingLength(t, start, k - already, y, xy, yy, k - placed);
      var best := BestPlace(t, y, xy, yy);
      PlacingStep(t, start, k - already, y, xy, yy, k - placed, best);
      xy, yy := NewXY(xy, t[best]), NewYY(yy, y[best], t[best]);
      y := AddPulse(t, y, best);
      placed := placed + 1;
    }
    PlacingEnds(t, start, k - already, y, xy, yy, k - placed);
  }

  /** Where the greedy loop stands, with `left` pulses to go: its sums are right, and the rest is the rest of it. */
  ghost predicate Placing(t: seq<real>, start: seq<int>, whole: nat, y: seq<int>, xy: real, yy: int, left: int) {
    left >= 0 && |t| > 0 && |start| == |t| && Agrees(t, y) && xy == Dot(t, y) && yy == Squares(y) &&
    Greedy(t, y, left) == Greedy(t, start, whole)
  }

  lemma PlacingStarts(t: seq<real>, start: seq<int>, xy: real, yy: int, already: nat, k: nat)
    requires |t| > 0 && Agrees(t, start) && already <= k && xy == Dot(t, start) && yy == Squares(start)
    ensures Placing(t, start, k - already, start, xy, yy, k - already)
  {
  }

  lemma PlacingLength(t: seq<real>, start: seq<int>, whole: nat, y: seq<int>, xy: real, yy: int, left: int)
    requires Placing(t, start, whole, y, xy, yy, left)
    ensures |t| > 0 && |y| == |t| && Agrees(t, y) && xy == Dot(t, y) && yy == Squares(y)
  {
  }

  lemma PlacingStep(t: seq<real>, start: seq<int>, whole: nat, y: seq<int>, xy: real, yy: int, left: int, best: nat)
    requires Placing(t, start, whole, y, xy, yy, left) && left > 0 && best == Best(t, y, |t|)
    ensures best < |y| == |t|
    ensures Placing(t, start, whole, AddPulse(t, y, best), NewXY(xy, t[best]), NewYY(yy, y[best], t[best]), left - 1)
  {
    AgreesLength(t, y);
    PulseSums(t, y, best);
    PulseL1(t, y, best);
    hide Agrees;
    hide Best;
    hide AddPulse;
    hide Dot;
    hide Squares;
    hide L1;
    hide NewXY;
    hide NewYY;
  }

  lemma PlacingEnds(t: seq<real>, start: seq<int>, whole: nat, y: seq<int>, xy: real, yy: int, left: int)
    requires Placing(t, start, whole, y, xy, yy, left) && left <= 0
    ensures |start| == |t| > 0 && y == Greedy(t, start, whole)
  {
    hide Agrees;
  }
}
