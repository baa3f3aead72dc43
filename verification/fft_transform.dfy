/**
 * Decimation in time computes the Fourier transform, and the transform can be
 * undone: butterflies over bit-reversed samples against the sum that defines a
 * bin, and the sum against its inverse.
 */
module FftTransform {
  import opened FftMath

  predicate IsPow2(n: nat) {
    n == 1 || (n >= 2 && n % 2 == 0 && IsPow2(n / 2))
  }

  /**
   * What the twiddle factors e^(2 pi i / len) satisfy: squaring the root for one
   * length gives the root for half of it, and the root for two is -1.
   */
  ghost predicate Roots<T>(R: Ring<T>, root: nat -> T, n: nat)
    requires IsPow2(n)
  {
    n == 1 || (if n == 2 then root(2) == R.minusOne else Mul(R, root(n), root(n)) == root(n / 2) && Roots(R, root, n / 2))
  }

  lemma {:induction false} HalfTurn<T(!new)>(R: Ring<T>, root: nat -> T, n: nat)
    requires Laws(R)
    requires IsPow2(n) && n >= 2 && Roots(R, root, n)
    ensures Pow(R, root(n), n / 2) == R.minusOne
    decreases n
  {
    hide Mul;
    if n == 2 {
      PowOf(R, root(2));
    } else {
      HalfTurn(R, root, n / 2);
      PowProduct(R, root(n), 2, n / 4);
      PowOf(R, root(n));
    }
  }

  lemma FullTurn<T(!new)>(R: Ring<T>, root: nat -> T, n: nat)
    requires Laws(R)
    requires IsPow2(n) && n >= 2 && Roots(R, root, n)
    ensures Pow(R, root(n), n) == R.one
  {
    hide Pow;
    HalfTurn(R, root, n);
    PowSum(R, root(n), n / 2, n / 2);
    hide Mul;
    assert n / 2 + n / 2 == n;
    MinusOneSquared(R);
  }

  /** -1 squared takes nothing away from what -1 cancels. */
  lemma MinusOneSquared<T(!new)>(R: Ring<T>)
    requires Laws(R)
    ensures Mul(R, R.minusOne, R.minusOne) == R.one
  {
    hide Add;
    hide Mul;
    hide Laws;
    var m := R.minusOne;
    var square := Mul(R, m, m);
    MulOne(R, m);
    Cancels(R, R.one);
    Cancels(R, m);
    AddAssoc(R, R.one, m, square);
    AddZero(R, R.one);
    AddZero(R, square);
  }

  // --- decimation in time ---

  /** The samples in bit-reversed order. */
  function Reversed<T>(x: seq<T>): (r: seq<T>)
    requires IsPow2(|x|)
    ensures |r| == |x|
    decreases |x|
  {
    if |x| == 1 then x else Reversed(Evens(x)) + Reversed(Odds(x))
  }

  /** Entry `k` of one pass of butterflies over two half-length transforms. */
  function Butterfly<T>(R: Ring<T>, e: seq<T>, o: seq<T>, w: T, k: nat): T
    requires |e| == |o| && k < 2 * |e|
  {
    if k < |e| then Add(R, e[k], Mul(R, o[k], Pow(R, w, k)))
    else Sub(R, e[k - |e|], Mul(R, o[k - |e|], Pow(R, w, k - |e|)))
  }

  function Combine<T>(R: Ring<T>, e: seq<T>, o: seq<T>, w: T): (r: seq<T>)
    requires |e| == |o|
    ensures |r| == 2 * |e|
    ensures forall k :: 0 <= k < |r| ==> r[k] == Butterfly(R, e, o, w, k)
  {
    seq(2 * |e|, k requires 0 <= k < 2 * |e| => Butterfly(R, e, o, w, k))
  }

  /** All the passes, on samples already in bit-reversed order. */
  function Butterflies<T>(R: Ring<T>, s: seq<T>, root: nat -> T): (r: seq<T>)
    requires IsPow2(|s|)
    ensures |r| == |s|
    decreases |s|
  {
    if |s| == 1 then s
    else
      var h := |s| / 2;
      Combine(R, Butterflies(R, s[..h], root), Butterflies(R, s[h..], root), root(|s|))
  }

  lemma BinOfOne<T(!new)>(R: Ring<T>, x: seq<T>, w: T)
    requires Laws(R)
    requires |x| == 1
    ensures Bin(R, x, w, 0) == x[0]
  {
    assert Term(R, x, w, 0)(0) == Mul(R, x[0], Pow(R, w, 0 * 0));
    MulOne(R, x[0]);
    assert Sum(R, Term(R, x, w, 0), 0) == R.zero;
    AddZero(R, x[0]);
  }

  /** Half a turn further is the same product, subtracted. */
  lemma NegatedProduct<T(!new)>(R: Ring<T>, p: T, e: T, o: T)
    requires Laws(R)
    ensures Add(R, e, Mul(R, Mul(R, p, R.minusOne), o)) == Sub(R, e, Mul(R, o, p))
    ensures Add(R, e, Mul(R, p, o)) == Add(R, e, Mul(R, o, p))
  {
    SubIsAddNegated(R, e, Mul(R, o, p));
    MulComm(R, p, R.minusOne);
    MulAssoc(R, R.minusOne, p, o);
    MulComm(R, p, o);
  }

  lemma HalfLengthTurn<T(!new)>(R: Ring<T>, root: nat -> T, n: nat)
    requires Laws(R)
    requires IsPow2(n) && n >= 2 && Roots(R, root, n)
    ensures Pow(R, Mul(R, root(n), root(n)), n / 2) == R.one
  {
    hide Mul;
    FullTurn(R, root, n);
    PowProduct(R, root(n), 2, n / 2);
    PowOf(R, root(n));
  }

  /** One butterfly makes the two bins half a turn apart. */
  lemma ButterflyBins<T(!new)>(R: Ring<T>, x: seq<T>, root: nat -> T, k: nat)
    requires Laws(R)
    requires IsPow2(|x|) && |x| >= 2 && Roots(R, root, |x|) && k < |x| / 2
    ensures var w := root(|x|);
      var e, o := Bin(R, Evens(x), Mul(R, w, w), k), Bin(R, Odds(x), Mul(R, w, w), k);
      Bin(R, x, w, k) == Add(R, e, Mul(R, o, Pow(R, w, k))) &&
      Bin(R, x, w, |x| / 2 + k) == Sub(R, e, Mul(R, o, Pow(R, w, k)))
  {
    hide Mul;
    hide Add;
    hide Sub;
    hide Bin;
    hide Pow;
    var h, w := |x| / 2, root(|x|);
    var e, o := Bin(R, Evens(x), Mul(R, w, w), k), Bin(R, Odds(x), Mul(R, w, w), k);
    NegatedProduct(R, Pow(R, w, k), e, o);
    BinSplits(R, x, w, k);
    BinSplits(R, x, w, k + h);
    PowSum(R, w, k, h);
    HalfTurn(R, root, |x|);
    HalfLengthTurn(R, root, |x|);
    BinPeriodic(R, Evens(x), Mul(R, w, w), k, h);
    BinPeriodic(R, Odds(x), Mul(R, w, w), k, h);
  }

  /** The whole transform, bin by bin. */
  function Fourier<T>(R: Ring<T>, x: seq<T>, w: T): (r: seq<T>)
    ensures |r| == |x| && forall k :: 0 <= k < |x| ==> r[k] == Bin(R, x, w, k)
  {
    seq(|x|, k requires 0 <= k < |x| => Bin(R, x, w, k))
  }

  lemma ReversedHalves<T>(x: seq<T>)
    requires IsPow2(|x|) && |x| >= 2
    ensures Reversed(x)[..|x| / 2] == Reversed(Evens(x)) && Reversed(x)[|x| / 2..] == Reversed(Odds(x))
  {
  }

  /** Butterflies over bit-reversed samples compute the Fourier transform. */
  lemma {:induction false} ButterfliesTransform<T(!new)>(R: Ring<T>, x: seq<T>, root: nat -> T)
    requires Laws(R)
    requires IsPow2(|x|) && Roots(R, root, |x|)
    ensures Butterflies(R, Reversed(x), root) == Fourier(R, x, root(|x|))
    decreases |x|
  {
    hide Mul;
    hide Add;
    hide Sub;
    hide Bin;
    hide Pow;
    if |x| == 1 {
      BinOfOne(R, x, root(1));
    } else {
      ReversedHalves(x);
      HalfTransforms(R, x, root);
      CombineBins(R, x, root);
    }
  }

  /** Half-length transforms, combined, are the whole transform. */
  lemma CombineBins<T(!new)>(R: Ring<T>, x: seq<T>, root: nat -> T)
    requires Laws(R)
    requires IsPow2(|x|) && |x| >= 2 && Roots(R, root, |x|)
    ensures var w := root(|x|);
      Combine(R, Fourier(R, Evens(x), Mul(R, w, w)), Fourier(R, Odds(x), Mul(R, w, w)), w) == Fourier(R, x, w)
  {
    hide Mul;
    hide Bin;
    hide Butterfly;
    var w := root(|x|);
    var r := Combine(R, Fourier(R, Evens(x), Mul(R, w, w)), Fourier(R, Odds(x), Mul(R, w, w)), w);
    forall k | 0 <= k < |x| ensures r[k] == Bin(R, x, w, k) {
      CombinedBin(R, x, root, k);
    }
  }

  lemma CombinedBin<T(!new)>(R: Ring<T>, x: seq<T>, root: nat -> T, k: nat)
    requires Laws(R)
    requires IsPow2(|x|) && |x| >= 2 && Roots(R, root, |x|) && k < |x|
    ensures var w := root(|x|);
      Butterfly(R, Fourier(R, Evens(x), Mul(R, w, w)), Fourier(R, Odds(x), Mul(R, w, w)), w, k) == Bin(R, x, w, k)
  {
    hide Mul;
    hide Add;
    hide Sub;
    hide Bin;
    hide Pow;
    var h := |x| / 2;
    ButterflyBins(R, x, root, if k < h then k else k - h);
  }

  lemma {:induction false} HalfTransforms<T(!new)>(R: Ring<T>, x: seq<T>, root: nat -> T)
    requires Laws(R)
    requires IsPow2(|x|) && |x| >= 2 && Roots(R, root, |x|)
    ensures var w := root(|x|);
      Butterflies(R, Reversed(Evens(x)), root) == Fourier(R, Evens(x), Mul(R, w, w)) &&
      Butterflies(R, Reversed(Odds(x)), root) == Fourier(R, Odds(x), Mul(R, w, w))
    decreases |x|, 0
  {
    hide Mul;
    hide Bin;
    var w := root(|x|);
    if |x| == 2 {
      BinOfOne(R, Evens(x), Mul(R, w, w));
      BinOfOne(R, Odds(x), Mul(R, w, w));
    } else {
      ButterfliesTransform(R, Evens(x), root);
      ButterfliesTransform(R, Odds(x), root);
    }
  }

  // --- the way back ---

  function Powers<T>(R: Ring<T>, u: T): nat -> T {
    (k: nat) => Pow(R, u, k)
  }

  lemma GeometricHalves<T(!new)>(R: Ring<T>, u: T, h: nat)
    requires Laws(R)
    ensures Sum(R, Powers(R, u), 2 * h) == Add(R, Sum(R, Powers(R, Mul(R, u, u)), h), Mul(R, u, Sum(R, Powers(R, Mul(R, u, u)), h)))
  {
    hide Mul;
    hide Add;
    hide Pow;
    var square := Powers(R, Mul(R, u, u));
    var turned := (i: nat) => Mul(R, u, square(i));
    forall i: nat | i < h ensures square(i) == Powers(R, u)(2 * i) && turned(i) == Powers(R, u)(2 * i + 1) {
      PowProduct(R, u, 2, i);
      PowOf(R, u);
      PowSum(R, u, 1, 2 * i);
    }
    SumByParity(R, Powers(R, u), square, turned, h);
    SumScales(R, u, square, turned, h);
  }

  /** A full turn makes no difference. */
  lemma LessATurn<T(!new)>(R: Ring<T>, w: T, n: nat, d: nat)
    requires Laws(R) && Pow(R, w, n) == R.one
    ensures d >= n ==> Pow(R, w, d) == Pow(R, w, d - n)
  {
    hide Mul;
    hide Pow;
    hide Laws;
    if d >= n {
      PowSum(R, w, n, d - n);
      MulOne(R, Pow(R, w, d - n));
    }
  }

  /** The powers of any root other than one sum to nothing over a full turn. */
  lemma {:induction false} RootsCancel<T(!new)>(R: Ring<T>, root: nat -> T, n: nat, d: nat)
    requires Laws(R)
    requires IsPow2(n) && Roots(R, root, n) && 0 < d < n
    ensures Sum(R, Powers(R, Pow(R, root(n), d)), n) == R.zero
    decreases n
  {
    hide Mul;
    hide Add;
    hide Pow;
    hide Sum;
    hide Laws;
    var h, w := n / 2, root(n);
    var u := Pow(R, w, d);
    GeometricHalves(R, u, h);
    var g := Sum(R, Powers(R, Mul(R, u, u)), h);
    if d == h {
      HalfTurn(R, root, n);
      Cancels(R, g);
    } else {
      PowMul(R, w, w, d);
      HalfLengthTurn(R, root, n);
      var rest: nat := if d < h then d else d - h;
      LessATurn(R, Mul(R, w, w), h, d);
      RootsCancel(R, root, h, rest);
      MulOne(R, u);
      AddZero(R, R.zero);
    }
  }

  lemma {:induction false} SumSingle<T(!new)>(R: Ring<T>, g: nat -> T, n: nat, l: nat)
    requires Laws(R)
    requires l < n && forall j: nat :: j < n && j != l ==> g(j) == R.zero
    ensures Sum(R, g, n) == g(l)
  {
    hide Add;
    if l == n - 1 {
      SumZero(R, g, n - 1);
    } else {
      SumSingle(R, g, n - 1, l);
    }
    AddZero(R, g(l));
  }

  /** What `n` ones add up to. */
  function Times<T>(R: Ring<T>, n: nat): T {
    if n == 0 then R.zero else Add(R, Times(R, n - 1), R.one)
  }

  lemma {:induction false} SumOfOnes<T>(R: Ring<T>, f: nat -> T, n: nat)
    requires forall k: nat :: k < n ==> f(k) == R.one
    ensures Sum(R, f, n) == Times(R, n)
  {
    hide Add;
    if n > 0 {
      SumOfOnes(R, f, n - 1);
    }
  }

  /** w^j v^l, where v undoes w: the root that bin `l` of the way back turns sample `j` by. */
  function Turn<T>(R: Ring<T>, w: T, v: T, j: nat, l: nat): T {
    Mul(R, Pow(R, w, j), Pow(R, v, l))
  }

  lemma InversePower<T(!new)>(R: Ring<T>, w: T, v: T, l: nat)
    requires Laws(R)
    requires Mul(R, w, v) == R.one
    ensures Mul(R, Pow(R, w, l), Pow(R, v, l)) == R.one
  {
    PowMul(R, w, v, l);
    PowOne(R, l);
  }

  /** Unless j is l, that root is a power of w other than one. */
  lemma TurnIsPower<T(!new)>(R: Ring<T>, w: T, v: T, n: nat, j: nat, l: nat)
    requires Laws(R)
    requires Mul(R, w, v) == R.one && Pow(R, w, n) == R.one && j < n && l < n
    ensures Turn(R, w, v, j, l) == Pow(R, w, if j >= l then j - l else n + j - l)
  {
    hide Mul;
    hide Pow;
    InversePower(R, w, v, l);
    var d := if j >= l then j - l else n + j - l;
    if j >= l {
      PowSum(R, w, d, l);
    } else {
      PowSum(R, w, d, l);
      PowSum(R, w, n, j);
      MulOne(R, Pow(R, w, j));
    }
    MulAssoc(R, Pow(R, w, d), Pow(R, w, l), Pow(R, v, l));
    MulOne(R, Pow(R, w, d));
  }

  lemma TurnSums<T(!new)>(R: Ring<T>, root: nat -> T, v: T, n: nat, j: nat, l: nat)
    requires Laws(R)
    requires IsPow2(n) && n >= 2 && Roots(R, root, n) && Mul(R, root(n), v) == R.one && j < n && l < n
    ensures Sum(R, Powers(R, Turn(R, root(n), v, j, l)), n) == if j == l then Times(R, n) else R.zero
  {
    hide Mul;
    hide Turn;
    FullTurn(R, root, n);
    TurnIsPower(R, root(n), v, n, j, l);
    if j == l {
      var u := Pow(R, root(n), 0);
      assert u == R.one;
      forall k: nat | k < n ensures Powers(R, u)(k) == R.one {
        PowOne(R, k);
      }
      hide Pow;
      SumOfOnes(R, Powers(R, u), n);
    } else {
      RootsCancel(R, root, n, if j >= l then j - l else n + j - l);
    }
  }

  /** The product summed over samples `j` and bins `k` when bin `l` of the way back is taken. */
  function Product<T>(R: Ring<T>, x: seq<T>, w: T, v: T, l: nat): (nat, nat) -> T {
    (k: nat, j: nat) => Mul(R, Mul(R, At(R, x, j), Pow(R, w, j * k)), Pow(R, v, k * l))
  }

  lemma ProductByBin<T(!new)>(R: Ring<T>, x: seq<T>, w: T, v: T, l: nat, k: nat)
    requires Laws(R)
    requires k < |x|
    ensures RowSums(R, Product(R, x, w, v, l), |x|)(k) == Term(R, Fourier(R, x, w), v, l)(k)
  {
    hide Mul;
    hide Pow;
    var f, c := Product(R, x, w, v, l), Pow(R, v, k * l);
    forall j: nat | j < |x| ensures Row(f, k)(j) == Mul(R, c, Term(R, x, w, k)(j)) {
      MulComm(R, Term(R, x, w, k)(j), c);
    }
    SumScales(R, c, Term(R, x, w, k), Row(f, k), |x|);
    MulComm(R, Bin(R, x, w, k), c);
  }

  lemma ProductBySample<T(!new)>(R: Ring<T>, x: seq<T>, w: T, v: T, l: nat, j: nat)
    requires Laws(R)
    requires j < |x|
    ensures ColumnSums(R, Product(R, x, w, v, l), |x|)(j) == Mul(R, x[j], Sum(R, Powers(R, Turn(R, w, v, j, l)), |x|))
  {
    hide Mul;
    hide Pow;
    var f, u := Product(R, x, w, v, l), Turn(R, w, v, j, l);
    forall k: nat | k < |x| ensures Column(f, j)(k) == Mul(R, x[j], Powers(R, u)(k)) {
      PowMul(R, Pow(R, w, j), Pow(R, v, l), k);
      PowProduct(R, w, j, k);
      PowProduct(R, v, l, k);
      assert l * k == k * l;
      MulAssoc(R, x[j], Pow(R, w, j * k), Pow(R, v, k * l));
    }
    SumScales(R, x[j], Powers(R, u), Column(f, j), |x|);
  }

  /** Transforming with the inverse root brings every sample back, n times over. */
  lemma FourierInverts<T(!new)>(R: Ring<T>, x: seq<T>, root: nat -> T, v: T, l: nat)
    requires Laws(R)
    requires IsPow2(|x|) && |x| >= 2 && Roots(R, root, |x|) && Mul(R, root(|x|), v) == R.one && l < |x|
    ensures Bin(R, Fourier(R, x, root(|x|)), v, l) == Mul(R, x[l], Times(R, |x|))
  {
    hide Mul;
    hide Pow;
    hide Product;
    hide Turn;
    hide Sum;
    var n, w := |x|, root(|x|);
    var f := Product(R, x, w, v, l);
    forall k: nat | k < n ensures RowSums(R, f, n)(k) == Term(R, Fourier(R, x, w), v, l)(k) {
      ProductByBin(R, x, w, v, l, k);
    }
    SumSame(R, RowSums(R, f, n), Term(R, Fourier(R, x, w), v, l), n);
    SumExchange(R, f, n, n);
    forall j: nat | j < n && j != l ensures ColumnSums(R, f, n)(j) == R.zero {
      ProductBySample(R, x, w, v, l, j);
      TurnSums(R, root, v, n, j, l);
      MulOne(R, x[j]);
    }
    SumSingle(R, ColumnSums(R, f, n), n, l);
    ProductBySample(R, x, w, v, l, l);
    TurnSums(R, root, v, n, l, l);
  }

  function ScaleAll<T>(R: Ring<T>, x: seq<T>, share: T): (r: seq<T>)
    ensures |r| == |x| && forall i :: 0 <= i < |x| ==> r[i] == Mul(R, x[i], share)
  {
    seq(|x|, i requires 0 <= i < |x| => Mul(R, x[i], share))
  }

  /** The element that undoes adding something to itself `n` times. */
  ghost predicate IsShare<T>(R: Ring<T>, share: T, n: nat) {
    Mul(R, Times(R, n), share) == R.one
  }

  lemma ScaleBack<T(!new)>(R: Ring<T>, a: T, n: nat, share: T)
    requires Laws(R) && IsShare(R, share, n)
    ensures Mul(R, Mul(R, a, Times(R, n)), share) == a
  {
    hide Mul;
    hide Laws;
    MulAssoc(R, a, Times(R, n), share);
    MulOne(R, a);
  }

  /** What the forward transform does to a buffer, and what the inverse does. */
  function Forward<T>(R: Ring<T>, x: seq<T>, root: nat -> T): seq<T>
    requires IsPow2(|x|)
  {
    Butterflies(R, Reversed(x), root)
  }

  function Backward<T>(R: Ring<T>, x: seq<T>, root: nat -> T, share: T): seq<T>
    requires IsPow2(|x|)
  {
    ScaleAll(R, Butterflies(R, Reversed(x), root), share)
  }

  /** The inverse transform after the forward one is the identity. */
  lemma TransformRoundTrip<T(!new)>(R: Ring<T>, x: seq<T>, root: nat -> T, back: nat -> T, share: T)
    requires Laws(R) && IsPow2(|x|) && Roots(R, root, |x|) && Roots(R, back, |x|) && IsShare(R, share, |x|)
    requires |x| >= 2 ==> Mul(R, root(|x|), back(|x|)) == R.one
    ensures |Forward(R, x, root)| == |x| && Backward(R, Forward(R, x, root), back, share) == x
  {
    var n := |x|;
    ButterfliesTransform(R, x, root);
    var y := Forward(R, x, root);
    ButterfliesTransform(R, y, back);
    var z := Backward(R, y, back, share);
    hide *;
    ScaledFourier(R, y, back, share, z);
    forall l | 0 <= l < n ensures z[l] == x[l] {
      SampleReturns(R, x, root, back, share, l);
    }
  }

  lemma ScaledFourier<T>(R: Ring<T>, y: seq<T>, back: nat -> T, share: T, z: seq<T>)
    requires IsPow2(|y|) && Butterflies(R, Reversed(y), back) == Fourier(R, y, back(|y|)) && z == Backward(R, y, back, share)
    ensures |z| == |y| && forall l :: 0 <= l < |y| ==> z[l] == Mul(R, Bin(R, y, back(|y|), l), share)
  {
  }

  /** One sample, there and back. */
  lemma SampleReturns<T(!new)>(R: Ring<T>, x: seq<T>, root: nat -> T, back: nat -> T, share: T, l: nat)
    requires Laws(R) && IsPow2(|x|) && Roots(R, root, |x|) && IsShare(R, share, |x|) && l < |x|
    requires |x| >= 2 ==> Mul(R, root(|x|), back(|x|)) == R.one
    ensures Mul(R, Bin(R, Fourier(R, x, root(|x|)), back(|x|), l), share) == x[l]
  {
    hide Mul;
    hide Laws;
    hide Bin;
    hide Roots;
    hide IsShare;
    hide Times;
    var n := |x|;
    if n == 1 {
      BinOfOne(R, x, root(1));
      BinOfOne(R, Fourier(R, x, root(1)), back(1));
      ShareOfOne(R, x[0], share);
    } else {
      FourierInverts(R, x, root, back(n), l);
      ScaleBack(R, x[l], n, share);
    }
  }

  lemma ShareOfOne<T(!new)>(R: Ring<T>, a: T, share: T)
    requires Laws(R) && IsShare(R, share, 1)
    ensures Mul(R, a, share) == a
  {
    hide Laws;
    hide Mul;
    AddZero(R, R.one);
    OneOfThem(R);
    ScaleBack(R, a, 1, share);
    MulOne(R, a);
  }

  lemma OneOfThem<T>(R: Ring<T>)
    ensures Times(R, 1) == Add(R, R.zero, R.one)
  {
    assert Times(R, 0) == R.zero;
  }
}
