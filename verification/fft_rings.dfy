/**
 * Two rings the transform runs in: pairs of exact reals, which is what the
 * source's complex numbers round, and the integers modulo 7681, where the roots
 * of unity for 512 samples can be written down.
 */
module FftRings {
  import opened FftMath
  import opened FftTransform
  import opened FftInPlace

  // --- exact complex numbers ---

  datatype C = C(re: real, im: real)

  function AddC(a: C, b: C): C {
    C(a.re + b.re, a.im + b.im)
  }

  function SubC(a: C, b: C): C {
    C(a.re - b.re, a.im - b.im)
  }

  function MulC(a: C, b: C): C {
    C(Times2(a.re, b.re) - Times2(a.im, b.im), Times2(a.re, b.im) + Times2(a.im, b.re))
  }

  /** A product of reals, by name, so that it can be kept out of sight. */
  function Times2(x: real, y: real): real {
    x * y
  }

  function ScaleC(a: C, k: real): C {
    C(a.re * k, a.im * k)
  }

  function Complex(): Ring<C> {
    Ring(C(0.0, 0.0), C(1.0, 0.0), C(-1.0, 0.0), AddC, SubC, MulC)
  }

  lemma Triple(x: real, y: real, z: real)
    ensures Times2(Times2(x, y), z) == Times2(x, Times2(y, z))
  {
  }

  lemma Spread(x: real, y: real, z: real)
    ensures Times2(x - y, z) == Times2(x, z) - Times2(y, z) && Times2(z, x - y) == Times2(z, x) - Times2(z, y)
    ensures Times2(x + y, z) == Times2(x, z) + Times2(y, z) && Times2(z, x + y) == Times2(z, x) + Times2(z, y)
  {
  }

  lemma ProductsAssociate(a: C, b: C, c: C)
    ensures MulC(MulC(a, b), c) == MulC(a, MulC(b, c))
  {
    hide Times2;
    Triple(a.re, b.re, c.re);
    Triple(a.re, b.re, c.im);
    Triple(a.re, b.im, c.re);
    Triple(a.re, b.im, c.im);
    Triple(a.im, b.re, c.re);
    Triple(a.im, b.re, c.im);
    Triple(a.im, b.im, c.re);
    Triple(a.im, b.im, c.im);
    Spread(Times2(a.re, b.re), Times2(a.im, b.im), c.re);
    Spread(Times2(a.re, b.re), Times2(a.im, b.im), c.im);
    Spread(Times2(a.re, b.im), Times2(a.im, b.re), c.re);
    Spread(Times2(a.re, b.im), Times2(a.im, b.re), c.im);
    Spread(Times2(b.re, c.re), Times2(b.im, c.im), a.re);
    Spread(Times2(b.re, c.re), Times2(b.im, c.im), a.im);
    Spread(Times2(b.re, c.im), Times2(b.im, c.re), a.re);
    Spread(Times2(b.re, c.im), Times2(b.im, c.re), a.im);
  }

  lemma ProductsDistribute(a: C, b: C, c: C)
    ensures MulC(a, AddC(b, c)) == AddC(MulC(a, b), MulC(a, c))
  {
    hide Times2;
    Spread(b.re, c.re, a.re);
    Spread(b.re, c.re, a.im);
    Spread(b.im, c.im, a.re);
    Spread(b.im, c.im, a.im);
  }

  lemma ComplexLaws()
    ensures Laws(Complex())
  {
    forall a, b, c ensures MulC(MulC(a, b), c) == MulC(a, MulC(b, c)) {
      ProductsAssociate(a, b, c);
    }
    forall a, b, c ensures MulC(a, AddC(b, c)) == AddC(MulC(a, b), MulC(a, c)) {
      ProductsDistribute(a, b, c);
    }
  }

  lemma {:induction false} ComplexTimes(n: nat)
    ensures Times(Complex(), n) == C(n as real, 0.0)
  {
    if n > 0 {
      ComplexTimes(n - 1);
    }
  }

  /** The source's scaling by 1/n is the product with the share of n. */
  lemma ComplexShare(a: C, n: nat)
    requires n > 0
    ensures IsShare(Complex(), C(1.0 / n as real, 0.0), n)
    ensures Mul(Complex(), a, C(1.0 / n as real, 0.0)) == ScaleC(a, 1.0 / n as real)
  {
    ComplexTimes(n);
    Undo(n as real);
  }

  lemma Undo(n: real)
    requires n > 0.0
    ensures n * (1.0 / n) == 1.0
  {
  }

  // --- integers modulo a prime with a 512th root of unity ---

  const PRIME := 7681

  type Residue = x: int | 0 <= x < PRIME

  function Reduced(x: int): Residue {
    x % PRIME
  }

  function AddR(a: Residue, b: Residue): Residue {
    Reduced((a as int) + b)
  }

  function SubR(a: Residue, b: Residue): Residue {
    Reduced((a as int) - b)
  }

  function MulR(a: Residue, b: Residue): Residue {
    Reduced((a as int) * b)
  }

  function Residues(): Ring<Residue> {
    Ring(0, 1, 7680, AddR, SubR, MulR)
  }

  lemma WholeTurns(k: int, x: int)
    ensures Reduced(PRIME * k + x) == Reduced(x)
  {
  }

  lemma ReducedProduct(x: int, y: int)
    ensures Reduced(Reduced(x) * y) == Reduced(x * y) && Reduced(y * Reduced(x)) == Reduced(x * y)
  {
    var q: int, r: int := x / PRIME, Reduced(x);
    assert x == PRIME * q + r;
    assert (PRIME * q + r) * y == PRIME * (q * y) + r * y;
    WholeTurns(q * y, r * y);
    assert y * r == r * y;
  }

  lemma ReducedSum(x: int, y: int)
    ensures Reduced(Reduced(x) + y) == Reduced(x + y) && Reduced(y + Reduced(x)) == Reduced(x + y)
  {
  }

  lemma ResidueProductsAssociate(a: Residue, b: Residue, c: Residue)
    ensures MulR(MulR(a, b), c) == MulR(a, MulR(b, c))
  {
    var x: int, y: int, z: int := a, b, c;
    ReducedProduct(x * y, z);
    ReducedProduct(y * z, x);
    assert x * y * z == x * (y * z);
  }

  lemma ResidueProductsDistribute(a: Residue, b: Residue, c: Residue)
    ensures MulR(a, AddR(b, c)) == AddR(MulR(a, b), MulR(a, c))
  {
    hide Reduced;
    var x: int, y: int, z: int := a, b, c;
    ReducedProduct(y + z, x);
    assert x * (y + z) == x * y + x * z;
    ReducedSum(x * y, Reduced(x * z));
    ReducedSum(x * z, x * y);
  }

  lemma ResidueProductsCommute(a: Residue, b: Residue)
    ensures MulR(a, b) == MulR(b, a)
  {
    var x: int, y: int := a, b;
    assert x * y == y * x;
  }

  lemma ResidueSums(a: Residue, b: Residue, c: Residue)
    ensures AddR(AddR(a, b), c) == AddR(a, AddR(b, c)) && AddR(a, b) == AddR(b, a)
  {
    hide Reduced;
    var x: int, y: int, z: int := a, b, c;
    ReducedSum(x + y, z);
    ReducedSum(y + z, x);
  }

  lemma ResidueUnits(a: Residue)
    ensures AddR(a, 0) == a && MulR(a, 1) == a && AddR(a, MulR(7680, a)) == 0
  {
  }

  lemma ResidueNegation(a: Residue, b: Residue)
    ensures SubR(a, b) == AddR(a, MulR(7680, b))
  {
    hide Reduced;
    var x: int, y: int := a, b;
    ReducedSum(7680 * y, x);
    WholeTurns(y, x - y);
    assert PRIME * y + (x - y) == x + 7680 * y;
  }

  lemma ResidueLaws()
    ensures Laws(Residues())
  {
    hide AddR;
    hide SubR;
    hide MulR;
    forall a: Residue, b: Residue, c: Residue
      ensures MulR(MulR(a, b), c) == MulR(a, MulR(b, c))
      ensures MulR(a, AddR(b, c)) == AddR(MulR(a, b), MulR(a, c))
      ensures AddR(AddR(a, b), c) == AddR(a, AddR(b, c))
    {
      ResidueProductsAssociate(a, b, c);
      ResidueProductsDistribute(a, b, c);
      ResidueSums(a, b, c);
    }
    forall a: Residue, b: Residue
      ensures MulR(a, b) == MulR(b, a) && AddR(a, b) == AddR(b, a) && SubR(a, b) == AddR(a, MulR(7680, b))
    {
      ResidueProductsCommute(a, b);
      ResidueSums(a, b, a);
      ResidueNegation(a, b);
    }
    forall a: Residue ensures AddR(a, 0) == a && MulR(a, 1) == a && AddR(a, MulR(7680, a)) == 0 {
      ResidueUnits(a);
    }
  }

  /** The root for `len` samples, `g` being the one for 512. */
  function RootFor(g: Residue, len: nat): Residue
    decreases 512 - len
  {
    if len == 0 || len >= 512 then g else MulR(RootFor(g, 2 * len), RootFor(g, 2 * len))
  }

  lemma {:induction false} RootsFrom(g: Residue, n: nat)
    requires IsPow2(n) && n <= 512 && RootFor(g, 2) == 7680
    ensures Roots(Residues(), Twiddles(g), n)
    decreases n
  {
    if n > 2 {
      RootsFrom(g, n / 2);
      assert 2 * (n / 2) == n;
      assert n / 2 < 512;
    }
  }

  /** 62 and its inverse 1115 are roots of unity for 512 samples, and 7666 is the share of 512. */
  lemma SixtyTwo()
    ensures RootFor(62, 2) == 7680
  {
    assert RootFor(62, 512) == 62;
    assert RootFor(62, 256) == 3844;
    assert RootFor(62, 128) == 5773;
    assert RootFor(62, 64) == 7351;
    assert RootFor(62, 32) == 1366;
    assert RootFor(62, 16) == 7154;
    assert RootFor(62, 8) == 1213;
    assert RootFor(62, 4) == 4298;
  }

  lemma ElevenFifteen()
    ensures RootFor(1115, 2) == 7680
  {
    assert RootFor(1115, 512) == 1115;
    assert RootFor(1115, 256) == 6584;
    assert RootFor(1115, 128) == 5173;
    assert RootFor(1115, 64) == 7006;
    assert RootFor(1115, 32) == 2446;
    assert RootFor(1115, 16) == 7098;
    assert RootFor(1115, 8) == 1925;
    assert RootFor(1115, 4) == 3383;
  }

  lemma {:induction false} ResidueTimes(n: nat)
    ensures Times(Residues(), n) == Reduced(n)
  {
    hide Reduced;
    if n > 0 {
      ResidueTimes(n - 1);
      ReducedSum(n - 1, 1);
    } else {
      WholeTurns(0, 0);
      ReducedZero();
    }
  }

  lemma ReducedZero()
    ensures Reduced(0) == 0
  {
  }

  function Twiddles(g: Residue): nat -> Residue {
    (len: nat) => RootFor(g, len)
  }

  /** At 512 samples everything a transform and its inverse ask for is there. */
  lemma RootsAt512()
    ensures Laws(Residues()) && IsPow2(512)
    ensures Roots(Residues(), Twiddles(62), 512) && Roots(Residues(), Twiddles(1115), 512)
    ensures Mul(Residues(), Twiddles(62)(512), Twiddles(1115)(512)) == Residues().one
    ensures IsShare(Residues(), 7666, 512)
  {
    ResidueLaws();
    FiveTwelve();
    SixtyTwo();
    ElevenFifteen();
    RootsFrom(62, 512);
    RootsFrom(1115, 512);
    UnitsAt512();
  }

  lemma UnitsAt512()
    ensures Mul(Residues(), Twiddles(62)(512), Twiddles(1115)(512)) == Residues().one
    ensures IsShare(Residues(), 7666, 512)
  {
    hide Times;
    ResidueTimes(512);
  }

  lemma FiveTwelve()
    ensures IsPow2(512)
  {
    assert IsPow2(2) && IsPow2(4) && IsPow2(8) && IsPow2(16) && IsPow2(32) && IsPow2(64) && IsPow2(128) && IsPow2(256);
  }

  /** The length the audio path uses, there and back, with nothing left to assume. */
  method RoundTripAt512(buf: array<Residue>)
    requires buf.Length == 512
    modifies buf
    ensures buf[..] == old(buf[..])
  {
    RootsAt512();
    hide Laws;
    hide Roots;
    hide IsShare;
    hide Residues;
    hide Twiddles;
    ThereAndBack(Residues(), buf, Twiddles(62), Twiddles(1115), 7666);
  }
}
