/**
 * The transform as it is run: bit reversal by a counter that is advanced from
 * the top, and butterflies over one buffer. Each stage turns the transforms of
 * short stretches into those of stretches twice as long.
 */
module FftInPlace {
  import opened FftMath
  import opened FftTransform

  // --- bit reversal ---

  /** `i` with its bits, as many as `n` has places, in the opposite order. */
  function Rev(i: nat, n: nat): (j: nat)
    requires IsPow2(n)
    ensures j < n
    decreases n
  {
    if n == 1 then 0 else (if i % 2 == 1 then n / 2 else 0) + Rev(i / 2, n / 2)
  }

  /** Read from the other end: the top bit of `i` is the bottom bit of its reversal. */
  lemma {:induction false} RevTop(i: nat, n: nat)
    requires IsPow2(n) && n >= 2 && i < n
    ensures Rev(i, n) == if i < n / 2 then 2 * Rev(i, n / 2) else 2 * Rev(i - n / 2, n / 2) + 1
    decreases n
  {
    hide Rev;
    RevUnfold(i, n);
    if n == 2 {
      RevOne(i / 2);
    } else {
      var h: nat, q: nat, low := n / 2, n / 4, if i < n / 2 then i else i - n / 2;
      HalfOf(i, h);
      RevUnfold(low, h);
      RevTop(i / 2, h);
    }
  }

  lemma RevOne(i: nat)
    ensures Rev(i, 1) == 0
  {
  }

  lemma RevUnfold(i: nat, n: nat)
    requires IsPow2(n) && n >= 2
    ensures IsPow2(n / 2) && n == 2 * (n / 2)
    ensures Rev(i, n) == (if i % 2 == 1 then n / 2 else 0) + Rev(i / 2, n / 2)
  {
  }

  lemma HalfOf(i: nat, h: nat)
    requires h % 2 == 0
    ensures i < h ==> i / 2 < h / 2
    ensures i >= h ==> i / 2 >= h / 2 && (i - h) / 2 == i / 2 - h / 2 && (i - h) % 2 == i % 2
  {
  }

  lemma {:induction false} RevInvolution(i: nat, n: nat)
    requires IsPow2(n) && i < n
    ensures Rev(Rev(i, n), n) == i
    decreases n
  {
    if n >= 2 {
      RevInvolution(i / 2, n / 2);
      RevTop(Rev(i, n), n);
    }
  }

  /** Adding one at the top end and carrying downwards. */
  function Next(j: nat, n: nat): (r: nat)
    requires IsPow2(n) && j < n - 1
    ensures r < n
    decreases n
  {
    var h := n / 2;
    if j >= h then Next(j - h, h) else j + h
  }

  /** The counter stays the reversal of the index. */
  lemma {:induction false} NextIsRev(i: nat, n: nat)
    requires IsPow2(n) && i + 1 < n
    ensures Rev(i, n) < n - 1
    ensures Next(Rev(i, n), n) == Rev(i + 1, n)
    decreases n
  {
    if i % 2 == 1 {
      NextIsRev(i / 2, n / 2);
      assert (i + 1) / 2 == i / 2 + 1;
    }
  }

  lemma {:induction false} ReversedAt<T>(x: seq<T>, i: nat)
    requires IsPow2(|x|) && i < |x|
    ensures Reversed(x)[i] == x[Rev(i, |x|)]
    decreases |x|
  {
    if |x| >= 2 {
      var h := |x| / 2;
      RevTop(i, |x|);
      if i < h {
        ReversedAt(Evens(x), i);
      } else {
        ReversedAt(Odds(x), i - h);
      }
    }
  }

  /** A bit test on a power of two. */
  predicate BitSet(j: nat, bit: nat)
    requires bit > 0
  {
    j / bit % 2 == 1
  }

  lemma TopBit(j: nat, bit: nat)
    requires bit > 0 && j < 2 * bit
    ensures BitSet(j, bit) <==> j >= bit
  {
    if j >= bit {
      assert j / bit == 1;
    } else {
      assert j / bit == 0;
    }
  }

  /** Advance the bit-reversed counter: clear the run of ones at the top, set the bit below it. */
  method Advance(start: nat, n: nat) returns (j: nat)
    requires IsPow2(n) && start < n - 1
    ensures j == Next(start, n)
  {
    EvenLength(n);
    hide *;
    j := start;
    var bit := n / 2;
    TopBit(j, bit);
    while BitSet(j, bit)
      invariant bit > 0 && IsPow2(2 * bit) && j < 2 * bit - 1
      invariant Next(j, 2 * bit) == Next(start, n)
      invariant BitSet(j, bit) <==> j >= bit
      decreases bit
    {
      NextBelow(j, bit);
      j := j - bit;
      bit := bit / 2;
      TopBit(j, bit);
    }
    NextBelow(j, bit);
    j := j + bit;
  }

  lemma EvenLength(n: nat)
    requires IsPow2(n) && n > 1
    ensures n == 2 * (n / 2)
  {
  }

  lemma NextBelow(j: nat, bit: nat)
    requires bit > 0 && IsPow2(2 * bit) && j < 2 * bit - 1
    ensures j < bit ==> Next(j, 2 * bit) == j + bit
    ensures j >= bit ==> bit == 2 * (bit / 2) && IsPow2(bit) && bit / 2 > 0 && j - bit < bit - 1
    ensures j >= bit ==> Next(j, 2 * bit) == Next(j - bit, bit)
  {
  }

  /** Entry `m` once every pair with a member below `i` has been swapped. */
  function SwappedUpTo<T>(x: seq<T>, i: nat, m: nat): T
    requires IsPow2(|x|) && m < |x|
  {
    if m < i || Rev(m, |x|) < i then x[Rev(m, |x|)] else x[m]
  }

  /** The buffer once every pair with a member below `i` has been swapped. */
  ghost predicate Swapping<T>(x: seq<T>, i: nat, s: seq<T>)
    requires IsPow2(|x|)
  {
    |s| == |x| && forall m :: 0 <= m < |x| ==> s[m] == SwappedUpTo(x, i, m)
  }

  method BitReverse<T>(buf: array<T>)
    requires IsPow2(buf.Length)
    modifies buf
    ensures buf[..] == Reversed(old(buf[..]))
  {
    hide *;
    ghost var x := buf[..];
    var n := buf.Length;
    var j := 0;
    RevZero(n);
    StartSwapping(x);
    for i := 1 to n
      invariant j == Rev(i - 1, n)
      invariant Swapping(x, i, buf[..])
    {
      NextIsRev(i - 1, n);
      ghost var s := buf[..];
      j := Advance(j, n);
      SwapStep(x, i, s);
      if i < j {
        buf[i], buf[j] := buf[j], buf[i];
        assert buf[..] == s[i := s[j]][j := s[i]];
      }
    }
    SwappedAll(x, buf[..]);
  }

  lemma SwappedAll<T>(x: seq<T>, s: seq<T>)
    requires IsPow2(|x|) && (Swapping(x, |x|, s) || (|x| == 1 && Swapping(x, 1, s)))
    ensures s == Reversed(x)
  {
    forall m | 0 <= m < |x| ensures s[m] == Reversed(x)[m] {
      ReversedAt(x, m);
    }
  }

  lemma {:induction false} RevZero(n: nat)
    requires IsPow2(n)
    ensures Rev(0, n) == 0
    decreases n
  {
    if n > 1 {
      RevZero(n / 2);
    }
  }

  lemma StartSwapping<T>(x: seq<T>)
    requires IsPow2(|x|)
    ensures Swapping(x, 1, x)
  {
    forall m | 0 <= m < |x| ensures x[m] == SwappedUpTo(x, 1, m) {
      RevZero(|x|);
      RevInvolution(m, |x|);
    }
  }

  /** Swapping i with its reversal, unless that was done from the other side. */
  lemma SwapStep<T>(x: seq<T>, i: nat, s: seq<T>)
    requires IsPow2(|x|) && 0 < i < |x| && Swapping(x, i, s)
    ensures |s| == |x| && Rev(i, |x|) < |x|
    ensures var j := Rev(i, |x|);
      Swapping(x, i + 1, if i < j then s[i := s[j]][j := s[i]] else s)
  {
    hide SwappedUpTo;
    hide Rev;
    var j := Rev(i, |x|);
    RevInvolution(i, |x|);
    var r := if i < j then s[i := s[j]][j := s[i]] else s;
    forall m | 0 <= m < |x| ensures r[m] == SwappedUpTo(x, i + 1, m) {
      RevInvolution(m, |x|);
      SwapEntry(x, i, m);
    }
  }

  /** Where entry `m` comes from after one more swap. */
  lemma SwapEntry<T>(x: seq<T>, i: nat, m: nat)
    requires IsPow2(|x|) && 0 < i < |x| && m < |x|
    requires Rev(Rev(i, |x|), |x|) == i && Rev(Rev(m, |x|), |x|) == m
    ensures var j := Rev(i, |x|);
      SwappedUpTo(x, i + 1, m) == SwappedUpTo(x, i, if i < j && m == i then j else if i < j && m == j then i else m)
  {
    hide Rev;
    hide IsPow2;
  }

  // --- butterflies in place ---

  /** One stretch combined: the butterflies of a pass, and everything else left alone. */
  function Combined<T>(R: Ring<T>, s: seq<T>, i: nat, half: nat, w: T): (r: seq<T>)
    requires i + 2 * half <= |s|
    ensures |r| == |s|
  {
    s[..i] + Combine(R, s[i..i + half], s[i + half..i + 2 * half], w) + s[i + 2 * half..]
  }

  method Pass<T>(R: Ring<T>, buf: array<T>, i: nat, half: nat, step: T)
    requires i + 2 * half <= buf.Length
    modifies buf
    ensures buf[..] == Combined(R, old(buf[..]), i, half, step)
  {
    hide *;
    ghost var was := buf[..];
    PassEnds(R, was, i, half, step);
    PowZero(R, step);
    var w := R.one;
    for k := 0 to half
      invariant w == Pow(R, step, k)
      invariant forall p :: 0 <= p < buf.Length ==> buf[p] == Passing(R, was, i, half, step, k, p)
    {
      PassStep(R, was, i, half, step, k);
      var u := buf[i + k];
      var v := Mul(R, buf[i + k + half], w);
      buf[i + k] := Add(R, u, v);
      buf[i + k + half] := Sub(R, u, v);
      w := Mul(R, w, step);
    }
    assert buf[..] == Combined(R, was, i, half, step);
  }

  lemma PowZero<T>(R: Ring<T>, w: T)
    ensures Pow(R, w, 0) == R.one
  {
  }

  lemma PassEnds<T>(R: Ring<T>, was: seq<T>, i: nat, half: nat, step: T)
    requires i + 2 * half <= |was|
    ensures forall p :: 0 <= p < |was| ==> Passing(R, was, i, half, step, 0, p) == was[p]
    ensures forall p :: 0 <= p < |was| ==> Passing(R, was, i, half, step, half, p) == Combined(R, was, i, half, step)[p]
  {
    hide Butterfly;
  }

  /** Entry `p` when the first `k` butterflies of a pass are done. */
  function Passing<T>(R: Ring<T>, was: seq<T>, i: nat, half: nat, step: T, k: nat, p: nat): T
    requires i + 2 * half <= |was| && k <= half && p < |was|
  {
    if i <= p < i + k || i + half <= p < i + half + k
    then Butterfly(R, was[i..i + half], was[i + half..i + 2 * half], step, p - i)
    else was[p]
  }

  lemma PassStep<T>(R: Ring<T>, was: seq<T>, i: nat, half: nat, step: T, k: nat)
    requires i + 2 * half <= |was| && k < half
    ensures Passing(R, was, i, half, step, k, i + k) == was[i + k]
    ensures Passing(R, was, i, half, step, k, i + k + half) == was[i + k + half]
    ensures Passing(R, was, i, half, step, k + 1, i + k) == Add(R, was[i + k], Mul(R, was[i + k + half], Pow(R, step, k)))
    ensures Passing(R, was, i, half, step, k + 1, i + k + half) == Sub(R, was[i + k], Mul(R, was[i + k + half], Pow(R, step, k)))
    ensures forall p :: 0 <= p < |was| && p != i + k && p != i + k + half ==>
      Passing(R, was, i, half, step, k + 1, p) == Passing(R, was, i, half, step, k, p)
    ensures Pow(R, step, k + 1) == Mul(R, Pow(R, step, k), step)
  {
    hide Butterflies;
    hide Mul;
    hide Add;
    hide Sub;
  }

  /** Every aligned stretch of `len` samples has been transformed. */
  ghost predicate Staged<T>(R: Ring<T>, s: seq<T>, base: seq<T>, len: nat, root: nat -> T)
    decreases |base|
  {
    |s| == |base| && IsPow2(|base|) &&
    if |base| <= len || |base| == 1 then s == Butterflies(R, base, root)
    else Staged(R, s[..|base| / 2], base[..|base| / 2], len, root) && Staged(R, s[|base| / 2..], base[|base| / 2..], len, root)
  }

  /** The first `i` samples are in stretches of 2 * half, the rest still in stretches of half. */
  ghost predicate Partial<T>(R: Ring<T>, s: seq<T>, base: seq<T>, half: nat, i: nat, root: nat -> T)
    decreases |base|
  {
    var h := |base| / 2;
    |s| == |base| && IsPow2(|base|) && 0 < 2 * half <= |base| && i <= |base| &&
    if |base| == 2 * half then (i == 0 && Staged(R, s, base, half, root)) || (i == |base| && s == Butterflies(R, base, root))
    else if i <= h then Partial(R, s[..h], base[..h], half, i, root) && Staged(R, s[h..], base[h..], half, root)
    else Staged(R, s[..h], base[..h], 2 * half, root) && Partial(R, s[h..], base[h..], half, i - h, root)
  }

  lemma {:induction false} StagedOne<T>(R: Ring<T>, base: seq<T>, root: nat -> T)
    requires IsPow2(|base|)
    ensures Staged(R, base, base, 1, root)
    decreases |base|
  {
    if |base| > 1 {
      StagedOne(R, base[..|base| / 2], root);
      StagedOne(R, base[|base| / 2..], root);
    }
  }

  lemma {:induction false} PartialStart<T>(R: Ring<T>, s: seq<T>, base: seq<T>, half: nat, root: nat -> T)
    requires Staged(R, s, base, half, root) && 0 < 2 * half <= |base| && IsPow2(half)
    ensures Partial(R, s, base, half, 0, root)
    decreases |base|
  {
    var h := |base| / 2;
    if |base| > 2 * half {
      hide IsPow2;
      HalfBase(base, half);
      PartialStart(R, s[..h], base[..h], half, root);
    }
  }

  lemma {:induction false} Pow2Gap(big: nat, small: nat)
    requires IsPow2(big) && IsPow2(small) && small < big
    ensures 2 * small <= big
    decreases big
  {
    if small > 1 {
      Pow2Gap(big / 2, small / 2);
    }
  }

  lemma {:induction false} PartialEnd<T>(R: Ring<T>, s: seq<T>, base: seq<T>, half: nat, root: nat -> T)
    requires Partial(R, s, base, half, |base|, root)
    ensures Staged(R, s, base, 2 * half, root)
    decreases |base|
  {
    var h := |base| / 2;
    if |base| > 2 * half {
      PartialEnd(R, s[h..], base[h..], half, root);
    }
  }

  lemma {:induction false} PartialNext<T>(R: Ring<T>, s: seq<T>, base: seq<T>, half: nat, i: nat, root: nat -> T)
    requires Partial(R, s, base, half, i, root) && i < |base| && IsPow2(half)
    ensures i + 2 * half <= |base|
    ensures Partial(R, Combined(R, s, i, half, root(2 * half)), base, half, i + 2 * half, root)
    decreases |base|
  {
    hide *;
    var h := |base| / 2;
    var w := root(2 * half);
    PartialOpens(R, s, base, half, i, root);
    if |base| == 2 * half {
      LastStage(R, s, base, half, root);
      PartialLast(R, Combined(R, s, i, half, w), base, half, root);
    } else if i < h {
      PartialNext(R, s[..h], base[..h], half, i, root);
      CombinedLeft(R, s, h, i, half, w);
      PartialLeft(R, Combined(R, s, i, half, w), base, half, i + 2 * half, root);
    } else {
      if i == h {
        PartialEnd(R, s[..h], base[..h], half, root);
        HalfBase(base, half);
        PartialStart(R, s[h..], base[h..], half, root);
      }
      PartialNext(R, s[h..], base[h..], half, i - h, root);
      CombinedRight(R, s, h, i, half, w);
      PartialRight(R, Combined(R, s, i, half, w), base, half, i + 2 * half, root);
    }
  }

  /** What is known of the halves of a buffer part of the way through a pass. */
  lemma PartialOpens<T>(R: Ring<T>, s: seq<T>, base: seq<T>, half: nat, i: nat, root: nat -> T)
    requires Partial(R, s, base, half, i, root) && i < |base|
    ensures |s| == |base| && 0 < 2 * half <= |base| && IsPow2(|base|)
    ensures |base| == 2 * half ==> i == 0 && Staged(R, s, base, half, root)
    ensures var h := |base| / 2;
      |base| > 2 * half ==>
        if i <= h then Partial(R, s[..h], base[..h], half, i, root) && Staged(R, s[h..], base[h..], half, root)
        else Staged(R, s[..h], base[..h], 2 * half, root) && Partial(R, s[h..], base[h..], half, i - h, root)
  {
    hide IsPow2;
    hide Staged;
    hide Butterflies;
  }

  lemma PartialLast<T>(R: Ring<T>, s: seq<T>, base: seq<T>, half: nat, root: nat -> T)
    requires |s| == |base| == 2 * half > 0 && IsPow2(|base|) && s == Butterflies(R, base, root)
    ensures Partial(R, s, base, half, |base|, root)
  {
    hide IsPow2;
    hide Staged;
    hide Butterflies;
  }

  lemma PartialLeft<T>(R: Ring<T>, s: seq<T>, base: seq<T>, half: nat, i: nat, root: nat -> T)
    requires |s| == |base| > 2 * half > 0 && IsPow2(|base|) && i <= |base| / 2
    requires var h := |base| / 2;
      Partial(R, s[..h], base[..h], half, i, root) && Staged(R, s[h..], base[h..], half, root)
    ensures Partial(R, s, base, half, i, root)
  {
    hide IsPow2;
    hide Staged;
    hide Butterflies;
  }

  lemma PartialRight<T>(R: Ring<T>, s: seq<T>, base: seq<T>, half: nat, i: nat, root: nat -> T)
    requires |s| == |base| > 2 * half > 0 && IsPow2(|base|) && |base| / 2 < i <= |base|
    requires var h := |base| / 2;
      Staged(R, s[..h], base[..h], 2 * half, root) && Partial(R, s[h..], base[h..], half, i - h, root)
    ensures Partial(R, s, base, half, i, root)
  {
    hide IsPow2;
    hide Staged;
    hide Butterflies;
  }

  lemma HalfBase<T>(base: seq<T>, half: nat)
    requires IsPow2(|base|) && IsPow2(half) && 2 * half < |base|
    ensures 2 * half <= |base| / 2 && |base| == 2 * (|base| / 2)
  {
    Pow2Doubles(half);
    Pow2Halves(|base|);
    hide IsPow2;
    Pow2Gap(|base|, 2 * half);
  }

  lemma Pow2Doubles(n: nat)
    requires IsPow2(n)
    ensures IsPow2(2 * n)
  {
  }

  lemma Pow2Halves(n: nat)
    requires IsPow2(n) && n > 1
    ensures n == 2 * (n / 2) && IsPow2(n / 2)
  {
  }

  lemma LastStage<T>(R: Ring<T>, s: seq<T>, base: seq<T>, half: nat, root: nat -> T)
    requires |base| == 2 * half && half > 0 && Staged(R, s, base, half, root)
    ensures Combined(R, s, 0, half, root(2 * half)) == Butterflies(R, base, root)
  {
    StagedHalves(R, s, base, half, root);
    hide Combine;
    hide Staged;
    hide Butterflies;
    CombinedWhole(R, s, half, root(2 * half));
  }

  lemma StagedHalves<T>(R: Ring<T>, s: seq<T>, base: seq<T>, half: nat, root: nat -> T)
    requires |base| == 2 * half && half > 0 && Staged(R, s, base, half, root)
    ensures |s| == |base|
    ensures Butterflies(R, base, root) == Combine(R, s[..half], s[half..], root(2 * half))
  {
    hide Combine;
  }

  lemma CombinedWhole<T>(R: Ring<T>, s: seq<T>, half: nat, w: T)
    requires |s| == 2 * half
    ensures Combined(R, s, 0, half, w) == Combine(R, s[..half], s[half..], w)
  {
    hide Combine;
    assert s[0..0 + half] == s[..half] && s[0 + half..0 + 2 * half] == s[half..];
    assert s[0 + 2 * half..] == [] && s[..0] == [];
  }

  lemma CombinedLeft<T>(R: Ring<T>, s: seq<T>, h: nat, i: nat, half: nat, w: T)
    requires h <= |s| && i + 2 * half <= h
    ensures Combined(R, s, i, half, w)[..h] == Combined(R, s[..h], i, half, w)
    ensures Combined(R, s, i, half, w)[h..] == s[h..]
  {
    hide Combine;
    assert s[..h][..i] == s[..i] && s[..h][i..i + half] == s[i..i + half];
    assert s[..h][i + half..i + 2 * half] == s[i + half..i + 2 * half];
  }

  lemma CombinedRight<T>(R: Ring<T>, s: seq<T>, h: nat, i: nat, half: nat, w: T)
    requires h <= i && i + 2 * half <= |s|
    ensures Combined(R, s, i, half, w)[..h] == s[..h]
    ensures Combined(R, s, i, half, w)[h..] == Combined(R, s[h..], i - h, half, w)
  {
    hide Combine;
    assert s[h..][..i - h] == s[h..i] && s[h..][i - h..i - h + half] == s[i..i + half];
    assert s[h..][i - h + half..i - h + 2 * half] == s[i + half..i + 2 * half];
    assert s[h..][i - h + 2 * half..] == s[i + 2 * half..];
  }

  method Stage<T>(R: Ring<T>, buf: array<T>, half: nat, root: nat -> T, ghost base: seq<T>)
    requires IsPow2(half) && 0 < 2 * half <= buf.Length && Staged(R, buf[..], base, half, root)
    modifies buf
    ensures Staged(R, buf[..], base, 2 * half, root)
  {
    hide *;
    StagedLength(R, buf[..], base, half, root);
    PartialStart(R, buf[..], base, half, root);
    var i := 0;
    while i < buf.Length
      invariant i <= buf.Length && Partial(R, buf[..], base, half, i, root)
    {
      ghost var s := buf[..];
      PartialNext(R, s, base, half, i, root);
      Pass(R, buf, i, half, root(2 * half));
      i := i + 2 * half;
    }
    PartialEnd(R, buf[..], base, half, root);
  }

  lemma StagedLength<T>(R: Ring<T>, s: seq<T>, base: seq<T>, len: nat, root: nat -> T)
    requires Staged(R, s, base, len, root)
    ensures |s| == |base|
    ensures |base| <= len ==> s == Butterflies(R, base, root)
  {
  }

  method Run<T>(R: Ring<T>, buf: array<T>, inverse: bool, root: nat -> T, share: T)
    requires IsPow2(buf.Length)
    modifies buf
    ensures buf[..] == if inverse then Backward(R, old(buf[..]), root, share) else Forward(R, old(buf[..]), root)
  {
    hide Staged;
    var n := buf.Length;
    BitReverse(buf);
    ghost var base := buf[..];
    StagedOne(R, base, root);
    var len: nat := 2;
    while len <= n
      invariant IsPow2(len) && len >= 2
      invariant Staged(R, buf[..], base, len / 2, root)
      decreases 2 * n - len
    {
      Stage(R, buf, len / 2, root, base);
      len := 2 * len;
    }
    FinalStage(R, buf[..], base, len, root);
    if inverse {
      ScaleBuffer(R, buf, share);
    }
  }

  /**
   * Radix-2 in place. `root(len)` stands for the twiddle step the stage of
   * length `len` computes; when the steps are roots of unity, the buffer ends up
   * holding the Fourier transform of what it held.
   */
  method Fft<T(!new)>(R: Ring<T>, buf: array<T>, inverse: bool, root: nat -> T, share: T)
    requires IsPow2(buf.Length)
    modifies buf
    ensures buf[..] == if inverse then Backward(R, old(buf[..]), root, share) else Forward(R, old(buf[..]), root)
    ensures Laws(R) && Roots(R, root, buf.Length) ==>
      var bins := Fourier(R, old(buf[..]), root(buf.Length));
      buf[..] == if inverse then ScaleAll(R, bins, share) else bins
  {
    hide Roots;
    hide Fourier;
    hide Butterflies;
    hide Reversed;
    if Laws(R) && Roots(R, root, buf.Length) {
      ButterfliesTransform(R, buf[..], root);
    }
    Run(R, buf, inverse, root, share);
  }

  lemma FinalStage<T>(R: Ring<T>, s: seq<T>, base: seq<T>, len: nat, root: nat -> T)
    requires Staged(R, s, base, len / 2, root) && IsPow2(len) && len > |base|
    ensures s == Butterflies(R, base, root)
  {
    Pow2Gap(len, |base|);
  }

  method ScaleBuffer<T>(R: Ring<T>, buf: array<T>, share: T)
    modifies buf
    ensures buf[..] == ScaleAll(R, old(buf[..]), share)
  {
    hide Mul;
    for i := 0 to buf.Length
      invariant forall p :: 0 <= p < i ==> buf[p] == Mul(R, old(buf[p]), share)
      invariant forall p :: i <= p < buf.Length ==> buf[p] == old(buf[p])
    {
      buf[i] := Mul(R, buf[i], share);
    }
  }

  /** There and back in place leaves the buffer as it was. */
  method ThereAndBack<T(!new)>(R: Ring<T>, buf: array<T>, root: nat -> T, back: nat -> T, share: T)
    requires Laws(R) && IsPow2(buf.Length) && Roots(R, root, buf.Length) && Roots(R, back, buf.Length)
    requires IsShare(R, share, buf.Length) && (buf.Length >= 2 ==> Mul(R, root(buf.Length), back(buf.Length)) == R.one)
    modifies buf
    ensures buf[..] == old(buf[..])
  {
    TransformRoundTrip(R, buf[..], root, back, share);
    Fft(R, buf, false, root, share);
    Fft(R, buf, true, back, share);
  }
}
