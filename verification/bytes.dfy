/**
 * Machine words, and the big-endian number a byte string denotes. The arithmetic
 * coder's output is such a number, and every step of it multiplies by 256 or
 * adds less than that; so a stream is told by its length and its number, and the
 * digits of a number are the one byte string of their length that denotes
 * it.
 */
module Bytes {
  type Byte = x: int | 0 <= x < 256
  type U32 = x: int | 0 <= x < 0x1_0000_0000

  const U64_MAX := 0xffff_ffff_ffff_ffff

  type U64 = x: int | 0 <= x <= U64_MAX

  /** The nearest 64 bit word to a number. */
  function Saturated(x: nat): (r: nat)
    ensures r <= U64_MAX
  {
    if x <= U64_MAX then x else U64_MAX
  }

  function SaturatingAdd(a: nat, b: nat): (r: nat)
    ensures r <= U64_MAX
  {
    Saturated(a + b)
  }

  /** Three lists end to end, regrouped. */
  lemma Assoc<T>(a: seq<T>, b: seq<T>, c: seq<T>)
    ensures (a + b) + c == a + (b + c)
  {
  }

  function Pow256(n: nat): (p: nat)
    ensures p > 0
  {
    if n == 0 then 1 else 256 * Pow256(n - 1)
  }

  /** The number `s` denotes, most significant byte first. */
  function Number(s: seq<Byte>): nat {
    if |s| == 0 then 0 else 256 * Number(s[..|s| - 1]) + s[|s| - 1]
  }

  lemma NumberAppend(s: seq<Byte>, b: Byte)
    ensures Number(s + [b]) == 256 * Number(s) + b
  {
    assert (s + [b])[..|s|] == s;
  }

  lemma {:induction false} NumberBounds(s: seq<Byte>)
    ensures Number(s) < Pow256(|s|)
    ensures |s| > 0 ==> Number(s) >= s[0] * Pow256(|s| - 1)
  {
    if |s| > 0 {
      NumberBounds(s[..|s| - 1]);
      if |s| > 1 {
        assert s[0] * Pow256(|s| - 1) == 256 * (s[0] * Pow256(|s| - 2));
      }
    }
  }

  /** A leading zero does not change the number. */
  lemma {:induction false} NumberLeadingZero(s: seq<Byte>)
    requires |s| > 0 && s[0] == 0
    ensures Number(s[1..]) == Number(s)
  {
    if |s| == 1 {
      assert s[..0] == [];
    } else {
      NumberLeadingZero(s[..|s| - 1]);
      assert s[1..][..|s| - 2] == s[..|s| - 1][1..];
    }
  }

  /** Byte strings of one length are told apart by the numbers they denote. */
  lemma {:induction false} NumberInjective(a: seq<Byte>, b: seq<Byte>)
    requires |a| == |b| && Number(a) == Number(b)
    ensures a == b
  {
    if |a| > 0 {
      NumberInjective(a[..|a| - 1], b[..|b| - 1]);
      assert a == a[..|a| - 1] + [a[|a| - 1]] && b == b[..|b| - 1] + [b[|b| - 1]];
    }
  }

  /** The low `n` base-256 digits of `v`, most significant first. */
  function Digits(v: nat, n: nat): (s: seq<Byte>)
    ensures |s| == n
  {
    if n == 0 then [] else Digits(v / 256, n - 1) + [v % 256]
  }

  lemma {:induction false} NumberOfDigits(v: nat, n: nat)
    requires v < Pow256(n)
    ensures Number(Digits(v, n)) == v
  {
    if n > 0 {
      NumberOfDigits(v / 256, n - 1);
      NumberAppend(Digits(v / 256, n - 1), v % 256);
    }
  }

  /** The only byte string of length `n` that denotes `v` is `Digits(v, n)`. */
  lemma DigitsUnique(v: nat, s: seq<Byte>)
    requires Number(s) == v
    ensures s == Digits(v, |s|)
  {
    NumberBounds(s);
    NumberOfDigits(v, |s|);
    NumberInjective(s, Digits(v, |s|));
  }
}
