/**
 * The arithmetic a transform is made of: a commutative ring, finite sums in it,
 * and the discrete Fourier transform as a sum. The laws of the ring are stated
 * one by one, so that the proofs about sums and transforms need nothing else and
 * the verifier never looks inside a product; which ring it is makes no
 * difference to any of them, and the instances are kept apart from all of
 * this.
 */
module FftMath {
  /** What a transform computes with: two operations, a way to subtract, and the constants it needs. */
  datatype Ring<!T> = Ring(zero: T, one: T, minusOne: T, add: (T, T) -> T, sub: (T, T) -> T, mul: (T, T) -> T)

  /** A commutative ring. */
  ghost predicate Laws<T(!new)>(R: Ring<T>) {
    (forall a, b, c :: R.add(R.add(a, b), c) == R.add(a, R.add(b, c))) &&
    (forall a, b :: R.add(a, b) == R.add(b, a)) &&
    (forall a :: R.add(a, R.zero) == a) &&
    (forall a, b, c :: R.mul(R.mul(a, b), c) == R.mul(a, R.mul(b, c))) &&
    (forall a, b :: R.mul(a, b) == R.mul(b, a)) &&
    (forall a :: R.mul(a, R.one) == a) &&
    (forall a, b, c :: R.mul(a, R.add(b, c)) == R.add(R.mul(a, b), R.mul(a, c))) &&
    (forall a, b :: R.sub(a, b) == R.add(a, R.mul(R.minusOne, b))) &&
    (forall a :: R.add(a, R.mul(R.minusOne, a)) == R.zero)
  }

  function Add<T>(R: Ring<T>, a: T, b: T): T {
    R.add(a, b)
  }

  function Sub<T>(R: Ring<T>, a: T, b: T): T {
    R.sub(a, b)
  }

  function Mul<T>(R: Ring<T>, a: T, b: T): T {
    R.mul(a, b)
  }

  // --- the ring laws, so that nothing below has to look inside them ---

  lemma AddAssoc<T(!new)>(R: Ring<T>, a: T, b: T, c: T)
    requires Laws(R)
    ensures Add(R, Add(R, a, b), c) == Add(R, a, Add(R, b, c))
  {
  }

  lemma AddComm<T(!new)>(R: Ring<T>, a: T, b: T)
    requires Laws(R)
    ensures Add(R, a, b) == Add(R, b, a)
  {
  }

  lemma AddZero<T(!new)>(R: Ring<T>, a: T)
    requires Laws(R)
    ensures Add(R, a, R.zero) == a && Add(R, R.zero, a) == a
  {
    AddComm(R, a, R.zero);
  }

  lemma MulComm<T(!new)>(R: Ring<T>, a: T, b: T)
    requires Laws(R)
    ensures Mul(R, a, b) == Mul(R, b, a)
  {
  }

  lemma MulAssoc<T(!new)>(R: Ring<T>, a: T, b: T, c: T)
    requires Laws(R)
    ensures Mul(R, Mul(R, a, b), c) == Mul(R, a, Mul(R, b, c))
  {
  }

  lemma Distributes<T(!new)>(R: Ring<T>, a: T, b: T, c: T)
    requires Laws(R)
    ensures Mul(R, a, Add(R, b, c)) == Add(R, Mul(R, a, b), Mul(R, a, c))
  {
  }

  lemma TimesOne<T(!new)>(R: Ring<T>, a: T)
    requires Laws(R)
    ensures Mul(R, a, R.one) == a
  {
  }

  /** Subtracting is adding the product with -1. */
  lemma SubIsAddNegated<T(!new)>(R: Ring<T>, a: T, b: T)
    requires Laws(R)
    ensures Sub(R, a, b) == Add(R, a, Mul(R, R.minusOne, b))
  {
  }

  lemma Cancels<T(!new)>(R: Ring<T>, a: T)
    requires Laws(R)
    ensures Add(R, a, Mul(R, R.minusOne, a)) == R.zero
  {
  }

  // --- and what follows from them ---

  lemma AddSwap<T(!new)>(R: Ring<T>, a: T, b: T, c: T, d: T)
    requires Laws(R)
    ensures Add(R, Add(R, a, b), Add(R, c, d)) == Add(R, Add(R, a, c), Add(R, b, d))
  {
    hide Add;
    hide Laws;
    AddAssoc(R, a, b, Add(R, c, d));
    AddAssoc(R, b, c, d);
    AddComm(R, b, c);
    AddAssoc(R, c, b, d);
    AddAssoc(R, a, c, Add(R, b, d));
  }

  /** Nothing times zero is anything but zero, because only zero is its own double. */
  lemma ZeroProduct<T(!new)>(R: Ring<T>, a: T)
    requires Laws(R)
    ensures Mul(R, a, R.zero) == R.zero
  {
    hide Add;
    hide Mul;
    hide Laws;
    var z := Mul(R, a, R.zero);
    var m := Mul(R, R.minusOne, z);
    AddZero(R, R.zero);
    Distributes(R, a, R.zero, R.zero);
    Cancels(R, z);
    AddAssoc(R, z, z, m);
    AddZero(R, z);
  }

  lemma MulOne<T(!new)>(R: Ring<T>, a: T)
    requires Laws(R)
    ensures Mul(R, a, R.one) == a && Mul(R, R.one, a) == a
    ensures Mul(R, a, R.zero) == R.zero && Mul(R, R.zero, a) == R.zero
  {
    hide Add;
    hide Mul;
    hide Laws;
    TimesOne(R, a);
    MulComm(R, R.one, a);
    ZeroProduct(R, a);
    MulComm(R, R.zero, a);
  }

  lemma MulSwap<T(!new)>(R: Ring<T>, a: T, b: T, c: T, d: T)
    requires Laws(R)
    ensures Mul(R, Mul(R, a, b), Mul(R, c, d)) == Mul(R, Mul(R, a, c), Mul(R, b, d))
  {
    hide Mul;
    MulAssoc(R, a, b, Mul(R, c, d));
    MulAssoc(R, b, c, d);
    MulComm(R, b, c);
    MulAssoc(R, c, b, d);
    MulAssoc(R, a, c, Mul(R, b, d));
  }

  // --- powers ---

  function Pow<T>(R: Ring<T>, w: T, n: nat): T {
    if n == 0 then R.one else Mul(R, Pow(R, w, n - 1), w)
  }

  lemma {:induction false} PowSum<T(!new)>(R: Ring<T>, w: T, a: nat, b: nat)
    requires Laws(R)
    ensures Pow(R, w, a + b) == Mul(R, Pow(R, w, a), Pow(R, w, b))
  {
    hide Mul;
    if b == 0 {
      MulOne(R, Pow(R, w, a));
    } else {
      PowSum(R, w, a, b - 1);
      MulAssoc(R, Pow(R, w, a), Pow(R, w, b - 1), w);
    }
  }

  lemma {:induction false} PowProduct<T(!new)>(R: Ring<T>, w: T, a: nat, b: nat)
    requires Laws(R)
    ensures Pow(R, w, a * b) == Pow(R, Pow(R, w, a), b)
  {
    hide Mul;
    if b > 0 {
      PowProduct(R, w, a, b - 1);
      PowSum(R, w, a * (b - 1), a);
      assert a * b == a * (b - 1) + a;
    } else {
      assert a * b == 0;
    }
  }

  lemma PowOf<T(!new)>(R: Ring<T>, w: T)
    requires Laws(R)
    ensures Pow(R, w, 1) == w && Pow(R, w, 2) == Mul(R, w, w)
  {
    hide Mul;
    assert Pow(R, w, 0) == R.one;
    MulOne(R, w);
    assert Pow(R, w, 1) == w;
  }

  lemma {:induction false} PowOne<T(!new)>(R: Ring<T>, n: nat)
    requires Laws(R)
    ensures Pow(R, R.one, n) == R.one
  {
    hide Mul;
    if n > 0 {
      PowOne(R, n - 1);
      MulOne(R, R.one);
    }
  }

  lemma {:induction false} PowMul<T(!new)>(R: Ring<T>, a: T, b: T, n: nat)
    requires Laws(R)
    ensures Pow(R, Mul(R, a, b), n) == Mul(R, Pow(R, a, n), Pow(R, b, n))
  {
    hide Mul;
    if n == 0 {
      MulOne(R, R.one);
    } else {
      PowMul(R, a, b, n - 1);
      MulSwap(R, Pow(R, a, n - 1), Pow(R, b, n - 1), a, b);
    }
  }

  // --- sums ---

  function Sum<T>(R: Ring<T>, f: nat -> T, n: nat): T {
    if n == 0 then R.zero else Add(R, Sum(R, f, n - 1), f(n - 1))
  }

  lemma {:induction false} SumSame<T>(R: Ring<T>, f: nat -> T, g: nat -> T, n: nat)
    requires forall i: nat :: i < n ==> f(i) == g(i)
    ensures Sum(R, f, n) == Sum(R, g, n)
  {
    hide Add;
    if n > 0 {
      SumSame(R, f, g, n - 1);
    }
  }

  lemma {:induction false} SumAdds<T(!new)>(R: Ring<T>, f: nat -> T, g: nat -> T, h: nat -> T, n: nat)
    requires Laws(R)
    requires forall i: nat :: i < n ==> h(i) == Add(R, f(i), g(i))
    ensures Sum(R, h, n) == Add(R, Sum(R, f, n), Sum(R, g, n))
  {
    hide Add;
    if n == 0 {
      AddZero(R, R.zero);
    } else {
      SumAdds(R, f, g, h, n - 1);
      AddSwap(R, Sum(R, f, n - 1), Sum(R, g, n - 1), f(n - 1), g(n - 1));
    }
  }

  lemma {:induction false} SumScales<T(!new)>(R: Ring<T>, c: T, f: nat -> T, g: nat -> T, n: nat)
    requires Laws(R)
    requires forall i: nat :: i < n ==> g(i) == Mul(R, c, f(i))
    ensures Sum(R, g, n) == Mul(R, c, Sum(R, f, n))
  {
    hide Add;
    hide Mul;
    if n == 0 {
      MulOne(R, c);
    } else {
      SumScales(R, c, f, g, n - 1);
      Distributes(R, c, Sum(R, f, n - 1), f(n - 1));
    }
  }

  /** Even terms and odd terms apart. */
  lemma {:induction false} SumByParity<T(!new)>(R: Ring<T>, f: nat -> T, even: nat -> T, odd: nat -> T, h: nat)
    requires Laws(R)
    requires forall i: nat :: i < h ==> even(i) == f(2 * i) && odd(i) == f(2 * i + 1)
    ensures Sum(R, f, 2 * h) == Add(R, Sum(R, even, h), Sum(R, odd, h))
  {
    hide Add;
    if h == 0 {
      AddZero(R, R.zero);
    } else {
      SumByParity(R, f, even, odd, h - 1);
      var a, b := Sum(R, even, h - 1), Sum(R, odd, h - 1);
      assert Sum(R, f, 2 * h) == Add(R, Add(R, Sum(R, f, 2 * h - 2), f(2 * h - 2)), f(2 * h - 1));
      assert even(h - 1) == f(2 * h - 2) && odd(h - 1) == f(2 * h - 1);
      AddAssoc(R, Add(R, a, b), even(h - 1), odd(h - 1));
      AddSwap(R, a, b, even(h - 1), odd(h - 1));
    }
  }

  function Row<T>(f: (nat, nat) -> T, i: nat): nat -> T {
    (j: nat) => f(i, j)
  }

  function Column<T>(f: (nat, nat) -> T, j: nat): nat -> T {
    (i: nat) => f(i, j)
  }

  function RowSums<T>(R: Ring<T>, f: (nat, nat) -> T, columns: nat): nat -> T {
    (i: nat) => Sum(R, Row(f, i), columns)
  }

  function ColumnSums<T>(R: Ring<T>, f: (nat, nat) -> T, rows: nat): nat -> T {
    (j: nat) => Sum(R, Column(f, j), rows)
  }

  /** A double sum may be taken in either order. */
  lemma {:induction false} SumExchange<T(!new)>(R: Ring<T>, f: (nat, nat) -> T, rows: nat, columns: nat)
    requires Laws(R)
    ensures Sum(R, RowSums(R, f, columns), rows) == Sum(R, ColumnSums(R, f, rows), columns)
  {
    hide Add;
    if rows == 0 {
      SumZero(R, ColumnSums(R, f, 0), columns);
    } else {
      var r := rows - 1;
      SumExchange(R, f, r, columns);
      SumAdds(R, ColumnSums(R, f, r), Row(f, r), ColumnSums(R, f, rows), columns);
    }
  }

  lemma {:induction false} SumZero<T(!new)>(R: Ring<T>, f: nat -> T, n: nat)
    requires Laws(R)
    requires forall i: nat :: i < n ==> f(i) == R.zero
    ensures Sum(R, f, n) == R.zero
  {
    hide Add;
    if n > 0 {
      SumZero(R, f, n - 1);
      AddZero(R, R.zero);
    }
  }

  // --- the transform ---

  /** A sample, or zero past the end. */
  function At<T>(R: Ring<T>, x: seq<T>, i: nat): T {
    if i < |x| then x[i] else R.zero
  }

  function Term<T>(R: Ring<T>, x: seq<T>, w: T, k: nat): nat -> T {
    (j: nat) => Mul(R, At(R, x, j), Pow(R, w, j * k))
  }

  /** Bin `k` of the discrete Fourier transform of `x` with root `w`. */
  function Bin<T>(R: Ring<T>, x: seq<T>, w: T, k: nat): T {
    Sum(R, Term(R, x, w, k), |x|)
  }

  function Evens<T>(x: seq<T>): (r: seq<T>)
    ensures |r| == |x| / 2
    ensures forall i :: 0 <= i < |r| ==> r[i] == x[2 * i]
  {
    seq(|x| / 2, i requires 0 <= i < |x| / 2 => x[2 * i])
  }

  function Odds<T>(x: seq<T>): (r: seq<T>)
    ensures |r| == |x| / 2
    ensures forall i :: 0 <= i < |r| ==> r[i] == x[2 * i + 1]
  {
    seq(|x| / 2, i requires 0 <= i < |x| / 2 => x[2 * i + 1])
  }

  lemma EvenTerm<T(!new)>(R: Ring<T>, x: seq<T>, w: T, k: nat, i: nat)
    requires Laws(R)
    requires i < |x| / 2
    ensures Term(R, x, w, k)(2 * i) == Term(R, Evens(x), Mul(R, w, w), k)(i)
  {
    hide Mul;
    PowProduct(R, w, 2, i * k);
    PowOf(R, w);
    assert 2 * i * k == 2 * (i * k);
  }

  lemma OddExponent(i: nat, k: nat)
    ensures (2 * i + 1) * k == k + 2 * (i * k)
  {
  }

  lemma OddTerm<T(!new)>(R: Ring<T>, x: seq<T>, w: T, k: nat, i: nat)
    requires Laws(R)
    requires i < |x| / 2
    ensures Term(R, x, w, k)(2 * i + 1) == Mul(R, Pow(R, w, k), Term(R, Odds(x), Mul(R, w, w), k)(i))
  {
    hide Mul;
    hide Pow;
    hide Term;
    var j: nat, m: nat := 2 * i + 1, i * k;
    TermAt(R, x, w, k, j);
    TermAt(R, Odds(x), Mul(R, w, w), k, i);
    OddExponent(i, k);
    assert j * k == k + 2 * m;
    OddPower(R, w, k, m);
    var v, p, q := x[j], Pow(R, w, k), Pow(R, Mul(R, w, w), m);
    assert Odds(x)[i] == v;
    MulAssoc(R, v, p, q);
    MulComm(R, v, p);
    MulAssoc(R, p, v, q);
  }

  lemma TermAt<T>(R: Ring<T>, x: seq<T>, w: T, k: nat, j: nat)
    ensures Term(R, x, w, k)(j) == Mul(R, At(R, x, j), Pow(R, w, j * k))
  {
  }

  lemma OddPower<T(!new)>(R: Ring<T>, w: T, k: nat, m: nat)
    requires Laws(R)
    ensures Pow(R, w, k + 2 * m) == Mul(R, Pow(R, w, k), Pow(R, Mul(R, w, w), m))
  {
    hide Mul;
    hide Pow;
    PowSum(R, w, k, 2 * m);
    PowProduct(R, w, 2, m);
    PowOf(R, w);
  }

  /** One bin from the half-length transforms of the even and the odd samples. */
  lemma BinSplits<T(!new)>(R: Ring<T>, x: seq<T>, w: T, k: nat)
    requires Laws(R)
    requires |x| % 2 == 0
    ensures Bin(R, x, w, k) == Add(R, Bin(R, Evens(x), Mul(R, w, w), k), Mul(R, Pow(R, w, k), Bin(R, Odds(x), Mul(R, w, w), k)))
  {
    hide Mul;
    hide Add;
    hide Term;
    var h := |x| / 2;
    var f := Term(R, x, w, k);
    var even, odd := Term(R, Evens(x), Mul(R, w, w), k), Term(R, Odds(x), Mul(R, w, w), k);
    var turned := (i: nat) => Mul(R, Pow(R, w, k), odd(i));
    forall i: nat | i < h ensures even(i) == f(2 * i) && turned(i) == f(2 * i + 1) {
      EvenTerm(R, x, w, k, i);
      OddTerm(R, x, w, k, i);
    }
    SumByParity(R, f, even, turned, h);
    SumScales(R, Pow(R, w, k), odd, turned, h);
  }

  /** Bins repeat with the period of the root. */
  lemma BinPeriodic<T(!new)>(R: Ring<T>, x: seq<T>, w: T, k: nat, period: nat)
    requires Laws(R)
    requires Pow(R, w, period) == R.one
    ensures Bin(R, x, w, k + period) == Bin(R, x, w, k)
  {
    hide Mul;
    hide Add;
    var f, g := Term(R, x, w, k + period), Term(R, x, w, k);
    forall j: nat | j < |x| ensures f(j) == g(j) {
      assert j * (k + period) == j * k + period * j;
      PowSum(R, w, j * k, period * j);
      PowProduct(R, w, period, j);
      PowOne(R, j);
      MulOne(R, Pow(R, w, j * k));
    }
    SumSame(R, f, g, |x|);
  }
}
