/** The range coder on 32 bit words, proved against the unbounded coder of `ExactCoder`. */
module RangeCoding {
  import opened Bytes
  import opened ExactCoder

  /*
   * `RangeEncoder` holds its last byte back and counts the 0xff bytes queued
   * behind it, so that a carry can still reach them.
   */

  const CARRY_FREE := 0xff00_0000

  function Repeat(b: Byte, n: nat): (s: seq<Byte>)
    ensures |s| == n
  {
    if n == 0 then [] else Repeat(b, n - 1) + [b]
  }

  /** A carry into a run of 0xff bytes turns them to zero and reaches the byte before. */
  lemma {:induction false} CarryRipples(out: seq<Byte>, cache: Byte, n: nat)
    requires cache < 255
    ensures Number(out + [cache + 1] + Repeat(0, n)) == Number(out + [cache] + Repeat(255, n)) + 1
  {
    hide Number;
    hide Repeat;
    OneMore(out + [cache + 1], 0, n);
    OneMore(out + [cache], 255, n);
    if n == 0 {
      NumberAppend(out, cache + 1);
      NumberAppend(out, cache);
    } else {
      CarryRipples(out, cache, n - 1);
      NumberAppend(out + [cache + 1] + Repeat(0, n - 1), 0);
      NumberAppend(out + [cache] + Repeat(255, n - 1), 255);
    }
  }

  lemma OneMore(s: seq<Byte>, b: Byte, n: nat)
    ensures s + Repeat(b, n) == if n == 0 then s else s + Repeat(b, n - 1) + [b]
  {
  }

  /** `low` is a carry, the byte about to leave, and 24 bits that stay. */
  lemma LowParts(low: nat)
    requires low < 2 * WORD
    ensures low / WORD <= 1
    ensures low == low / WORD * WORD + low / TOP % 256 * TOP + low % TOP
    ensures low % WORD == low / TOP % 256 * TOP + low % TOP
    ensures low < WORD ==> low / WORD == 0 && low / TOP % 256 == low / TOP
  {
    var q := low / TOP;
    assert low == q * TOP + low % TOP;
    assert q == q / 256 * 256 + q % 256;
    assert low == q / 256 * WORD + (q % 256 * TOP + low % TOP);
  }

  /** The digits decided so far, short of a carry: `queued` bytes of 0xff wait behind the cache. */
  function PendingOf(out: seq<Byte>, cache: Byte, queued: nat): seq<Byte> {
    out + [cache] + Repeat(255, queued)
  }

  lemma NoRepeat(head: seq<Byte>, b: Byte)
    ensures head + Repeat(b, 0) == head
  {
  }

  lemma RepeatNext(head: seq<Byte>, b: Byte, n: nat)
    ensures head + Repeat(b, n) + [b] == head + Repeat(b, n + 1)
  {
    assert Repeat(b, n + 1) == Repeat(b, n) + [b];
  }

  /** What goes out for the held byte and the queue, with a carry or without. */
  lemma ReleasedNumber(out: seq<Byte>, cache: Byte, queued: nat, carry: nat)
    requires carry <= 1 && (cache == 255 ==> carry == 0)
    ensures var bytes := out + [(cache + carry) % 256] + Repeat((255 + carry) % 256, queued);
      |bytes| == |out| + 1 + queued && Number(bytes) == Number(PendingOf(out, cache, queued)) + carry
  {
    hide Number;
    if carry != 0 {
      CarryRipples(out, cache, queued);
    }
  }

  lemma NothingPending()
    ensures Number(PendingOf([], 0, 0)) == 0
  {
    assert PendingOf([], 0, 0) == [] + [0];
    NumberAppend([], 0);
  }

  /** Shifting out of a released queue multiplies the number denoted by 256. */
  lemma ReleasedValue(out: seq<Byte>, number: nat, low: nat)
    requires low < 2 * WORD && Number(out) == number + low / WORD
    ensures Number(PendingOf(out, low / TOP % 256, 0)) * WORD + low % TOP * 256 == 256 * (number * WORD + low)
  {
    LowParts(low);
    NumberAppend(out, low / TOP % 256);
    assert PendingOf(out, low / TOP % 256, 0) == out + [low / TOP % 256];
  }

  /** So does queueing one more 0xff. */
  lemma QueuedValue(out: seq<Byte>, cache: Byte, queued: nat, low: nat)
    requires CARRY_FREE <= low < WORD
    ensures Number(PendingOf(out, cache, queued + 1)) * WORD + low % TOP * 256
         == 256 * (Number(PendingOf(out, cache, queued)) * WORD + low)
  {
    LowParts(low);
    NumberAppend(PendingOf(out, cache, queued), 255);
    assert PendingOf(out, cache, queued + 1) == PendingOf(out, cache, queued) + [255];
  }

  /** Where a shift leaves the interval's high end, case by case. */
  lemma ShiftedHighEnd(low: nat, width: nat)
    requires low + width <= 2 * WORD && 0 < width < TOP
    ensures low % TOP * 256 + 256 * width <= 2 * WORD
    ensures (low / WORD != 0 || low % WORD < CARRY_FREE) && low / TOP % 256 == 255 ==>
      low % TOP * 256 + 256 * width <= WORD
    ensures low / WORD == 0 && low % WORD >= CARRY_FREE && low + width <= WORD ==>
      low % TOP * 256 + 256 * width <= WORD
  {
    LowParts(low);
  }

  /** What `k` shifts leave of `low`. */
  ghost function LowAfter(low: nat, k: nat): nat {
    if k == 0 then low else LowAfter(low, k - 1) % TOP * 256
  }

  lemma TopResidue(q: nat, r: nat)
    requires r < TOP
    ensures (q * TOP + r) % TOP == r
  {
  }

  lemma WordResidue(q: nat, r: nat)
    requires r < 0x1_0000
    ensures (q * 0x1_0000 + r) % 0x1_0000 == r
  {
  }

  lemma ByteResidue(q: nat, r: nat)
    requires r < 256
    ensures (q * 256 + r) % 256 == r
  {
  }

  /** The 24 bits that stay, by parts. */
  lemma LowBits(x: nat)
    ensures x % TOP == x % TOP / 0x1_0000 * 0x1_0000 + x % 0x1_0000
    ensures x % 0x1_0000 == x % 0x1_0000 / 256 * 256 + x % 256
  {
    var q, r := x / TOP, x % TOP;
    var m, l := r / 0x1_0000, r % 0x1_0000;
    assert x == (256 * q + m) * 0x1_0000 + l;
    WordResidue(256 * q + m, l);
    var k, b := l / 256, l % 256;
    assert x == (256 * (256 * q + m) + k) * 256 + b;
    ByteResidue(256 * (256 * q + m) + k, b);
  }

  lemma ModTimes256(x: nat)
    ensures x % TOP * 256 % TOP == x % 0x1_0000 * 256
    ensures x % 0x1_0000 * 0x1_0000 % TOP == x % 256 * 0x1_0000
  {
    LowBits(x);
    var m, l: nat := x % TOP / 0x1_0000, x % 0x1_0000;
    TopResidue(m, l * 256);
    var k, b: nat := l / 256, x % 256;
    TopResidue(k, b * 0x1_0000);
  }

  /** Four shifts empty it. */
  lemma LowGone(low: nat)
    ensures LowAfter(low, 4) == 0
  {
    ModTimes256(low);
    TopResidue(low % 256, 0);
    assert LowAfter(low, 1) == low % TOP * 256;
    assert LowAfter(low, 2) == low % 0x1_0000 * 0x1_0000;
    assert LowAfter(low, 3) == low % 256 * TOP;
  }

  ghost function Scaled(v: nat, k: nat): nat {
    if k == 0 then v else 256 * Scaled(v, k - 1)
  }

  lemma FlushStarts(v: nat, low: nat)
    ensures Scaled(v, 0) == v && LowAfter(low, 0) == low
  {
  }

  lemma FlushStep(v: nat, low: nat, k: nat)
    ensures Scaled(v, k + 1) == 256 * Scaled(v, k) && LowAfter(low, k + 1) == LowAfter(low, k) % TOP * 256
  {
  }

  lemma OneHeld(out: seq<Byte>)
    ensures PendingOf(out, 0, 0) == out + [0]
  {
  }

  /** Five shifts move the four bytes of `low` and one spare zero into the digits. */
  lemma FlushedValue(v: nat, number: nat)
    requires 256 * number * WORD == Scaled(v, 5)
    ensures number == v
  {
    assert Scaled(v, 1) == 0x100 * v;
    assert Scaled(v, 3) == 0x100_0000 * v;
    assert Scaled(v, 5) == 0x1_0000 * Scaled(v, 3);
  }

  lemma ZeroDigit(digit: nat, place: nat, v: nat)
    requires digit * place <= v < place
    ensures digit == 0
  {
  }

  /** Dropping the leading zero of a number that fits without it. */
  lemma DropLeadingZero(s: seq<Byte>, v: nat, n: nat)
    requires |s| == n + 1 && Number(s) == v < Pow256(n)
    ensures s[0] == 0
    ensures s[1..] == Digits(v, n)
  {
    NumberBounds(s);
    ZeroDigit(s[0], Pow256(n), v);
    NumberLeadingZero(s);
    DigitsUnique(v, s[1..]);
  }

  class RangeEncoder {
    var low: nat
    var range: U32
    var cache: Byte
    var cacheSize: nat
    var out: seq<Byte>

    /** Every byte already decided, short of a carry. */
    ghost function Pending(): seq<Byte>
      reads this
      requires cacheSize >= 1
    {
      PendingOf(out, cache, cacheSize - 1)
    }

    /** The big number the whole state stands for. */
    ghost function Value(): nat
      reads this
      requires cacheSize >= 1
    {
      Number(Pending()) * WORD + low
    }

    /** The state of the unbounded coder this one is in. */
    ghost function Abs(): Exact
      reads this
      requires cacheSize >= 1
    {
      Exact(Value(), range, |out| + cacheSize - 1)
    }

    /**
     * No carry out of an interval of width `width` can run off the front: there
     * is at most one, and a held 0xff is never reached by it.
     */
    ghost predicate CarrySafe(width: nat)
      reads this
    {
      cacheSize >= 1 &&
      low + width <= 2 * WORD &&
      (cache == 255 ==> low + width <= WORD)
    }

    ghost predicate Valid()
      reads this
      ensures Valid() ==> cacheSize >= 1 && Abs().Ready()
    {
      CarrySafe(range) && Abs().Ready()
    }

    constructor ()
      ensures Valid() && Abs() == Start()
    {
      low := 0;
      range := 0xffff_ffff;
      cache := 0;
      cacheSize := 1;
      out := [];
      new;
      hide Number;
      hide PendingOf;
      hide Pow256;
      NothingPending();
    }

    /** Push one byte out. The number denoted is multiplied by exactly 256. */
    method Shift(ghost width: nat)
      requires 0 < width < TOP && CarrySafe(width)
      modifies this`low, this`cache, this`cacheSize, this`out
      ensures CarrySafe(256 * width)
      ensures Value() == 256 * old(Value())
      ensures |out| + cacheSize == old(|out| + cacheSize) + 1
      ensures low == old(low) % TOP * 256
      ensures old(low) < CARRY_FREE ==> cacheSize == 1 && cache == old(low) / TOP
    {
      hide Number;
      hide PendingOf;
      LowParts(low);
      ShiftedHighEnd(low, width);
      if low / WORD != 0 || low % WORD < CARRY_FREE {
        ghost var number := Number(Pending());
        Release();
        ReleasedValue(out, number, low);
        cache := low / TOP % 256;
        cacheSize := 0;
      } else {
        QueuedValue(out, cache, cacheSize - 1, low);
      }
      cacheSize := cacheSize + 1;
      low := low % TOP * 256;
    }

    /** Emit the held byte and everything queued behind it, carry included. */
    method Release()
      requires cacheSize >= 1 && low / WORD <= 1 && (cache == 255 ==> low < WORD)
      modifies this`cacheSize, this`out
      ensures |out| == old(|out| + cacheSize)
      ensures Number(out) == old(Number(Pending())) + low / WORD
    {
      hide Number;
      hide Repeat;
      hide PendingOf;
      ghost var was := out;
      var carry := low / WORD;
      var queued: Byte := (255 + carry) % 256;
      out := out + [(cache + carry) % 256];
      ghost var head := out;
      NoRepeat(head, queued);
      while cacheSize > 1
        invariant 1 <= cacheSize <= old(cacheSize)
        invariant out == head + Repeat(queued, old(cacheSize) - cacheSize)
      {
        RepeatNext(head, queued, old(cacheSize) - cacheSize);
        out := out + [queued];
        cacheSize := cacheSize - 1;
      }
      ReleasedNumber(was, cache, old(cacheSize) - 1, carry);
    }

    /** Code one symbol: the unbounded coder's step, on 32 bit words. */
    method Encode(cum: nat, freq: nat, total: nat)
      requires Valid() && Interval(cum, freq, total).Codable()
      modifies this
      ensures Valid()
      ensures Abs() == ExactCoder.Encode(old(Abs()), Interval(cum, freq, total))
    {
      hide Number;
      hide PendingOf;
      ghost var iv := Interval(cum, freq, total);
      ghost var was := Abs();
      SlicesFit(range, range / total, iv);
      ghost var narrowed := Narrow(was, iv);
      var r := range / total;
      low := low + r * cum;
      range := r * freq;
      assert Abs() == narrowed;
      Renormalise();
    }

    method Renormalise()
      requires 0 < range && CarrySafe(range)
      modifies this
      ensures CarrySafe(range)
      ensures Abs() == Renorm(old(Abs()))
    {
      hide Number;
      hide PendingOf;
      while range < TOP
        invariant 0 < range && CarrySafe(range)
        invariant Renorm(Abs()) == Renorm(old(Abs()))
        decreases TOP - range
      {
        Shift(range);
        range := 256 * range;
      }
    }

    /** Push out everything held: five shifts leave nothing but the digits of the number, one of them spare. */
    method Flush()
      requires Valid()
      modifies this
      ensures out != [] && out[0] == 0 && out[1..] == BytesOf(old(Abs()))
    {
      hide Number;
      hide PendingOf;
      hide Scaled;
      hide LowAfter;
      ghost var v := Value();
      ghost var n := |out| + cacheSize;
      FlushStarts(v, low);
      for k := 0 to 5
        invariant CarrySafe(1)
        invariant Value() == Scaled(v, k) && |out| + cacheSize == n + k
        invariant low == LowAfter(old(low), k) && (k >= 4 ==> low == 0)
        invariant k == 5 ==> cacheSize == 1 && cache == 0
      {
        LowGone(old(low));
        FlushStep(v, old(low), k);
        Shift(1);
      }
      OneHeld(out);
      NumberAppend(out, 0);
      FlushedValue(v, Number(out));
      DropLeadingZero(out, v, n + 3);
    }

    /**
     * Close the stream. What comes out is the low end of the interval, written
     * in full: the byte dropped is the initial cache byte, and it is zero.
     */
    method Finish() returns (bytes: seq<Byte>)
      requires Valid()
      modifies this
      ensures bytes == BytesOf(old(Abs()))
      ensures out == bytes
    {
      Flush();
      if |out| > 0 {
        assert out[0] == 0;
        out := out[1..];
      }
      bytes := out;
    }
  }

  /** Reads symbols back. */
  /** The unit of the range, counted from zero, that the code falls in; the last for any code past it. */
  ghost predicate Falls(code: nat, unit: nat, total: nat, t: nat) {
    t < total && t * unit <= code && (code < (t + 1) * unit || t == total - 1)
  }

  lemma TargetIs(d: Registers, total: nat)
    requires d.range >= TOP && 0 < total <= MAX_TOTAL
    ensures 0 < d.range / total <= d.range
    ensures var unit := d.range / total;
      var t := if d.code / unit < total - 1 then d.code / unit else total - 1;
      t == Target(d, total) && Falls(d.code, unit, total, t)
  {
    hide Falls;
    UnitFits(d.range, total);
    ClampedQuotient(d.code, d.range / total, total);
  }

  lemma UnitFits(range: nat, total: nat)
    requires range >= TOP && 0 < total <= MAX_TOTAL
    ensures 0 < range / total <= range
  {
    UnitPositive(range, total);
    QuotientTimes(range, total);
    Scale(1, total, range / total);
  }

  lemma ClampedQuotient(code: nat, unit: nat, total: nat)
    requires unit > 0 && total > 0
    ensures Falls(code, unit, total, if code / unit < total - 1 then code / unit else total - 1)
  {
    QuotientTimes(code, unit);
    if code / unit >= total - 1 {
      Scale(total - 1, code / unit, unit);
    }
  }

  class RangeDecoder {
    const input: seq<Byte>
    var code: U32
    var range: U32
    var position: nat

    ghost predicate Valid()
      reads this
    {
      range >= TOP
    }

    ghost function State(): Registers
      reads this
    {
      Registers(code, range, position)
    }

    constructor (bytes: seq<Byte>)
      ensures Valid() && input == bytes && State() == Boot(bytes)
    {
      input := bytes;
      code := 0;
      range := 0xffff_ffff;
      position := 0;
      new;
      for k := 0 to 4
        invariant position == k && range == WORD - 1 && input == bytes
        invariant k == 0 ==> code == 0
        invariant k == 1 ==> code == Feed(0, ByteAt(bytes, 0))
        invariant k == 2 ==> code == Feed(Feed(0, ByteAt(bytes, 0)), ByteAt(bytes, 1))
        invariant k == 3 ==> code == Feed(Feed(Feed(0, ByteAt(bytes, 0)), ByteAt(bytes, 1)), ByteAt(bytes, 2))
        invariant k == 4 ==> State() == Boot(bytes)
      {
        var b := Next();
        code := code % TOP * 256 + b;
      }
    }

    method Next() returns (b: Byte)
      modifies this`position
      ensures b == ByteAt(input, old(position)) && position == old(position) + 1
    {
      b := if position < |input| then input[position] else 0;
      position := position + 1;
    }

    /**
     * Where in `total` the next symbol falls. Leaves the width of one unit in
     * `range`, for `Update`.
     */
    method FindTarget(total: nat) returns (t: nat)
      requires Valid() && 0 < total <= MAX_TOTAL
      modifies this`range
      ensures range == old(range) / total && range > 0
      ensures t == Target(old(State()), total)
      ensures Falls(code, range, total, t)
    {
      TargetIs(State(), total);
      hide *;
      range := range / total;
      var t0 := code / range;
      t := if t0 < total - 1 then t0 else total - 1;
    }

    /** Consume the symbol found at [cum, cum + freq), in units of `range`. */
    method Update(cum: nat, freq: nat)
      requires 0 < range && cum * range <= code && 0 < range * freq < WORD
      modifies this
      ensures Valid()
      ensures State() == Refill(input, old(Registers(code - cum * range, range * freq, position)))
    {
      code := code - cum * range;
      range := range * freq;
      TopUp();
    }

    method TopUp()
      requires 0 < range
      modifies this
      ensures Valid()
      ensures State() == Refill(input, old(State()))
    {
      while range < TOP
        invariant 0 < range
        invariant Refill(input, State()) == Refill(input, old(State()))
        decreases TOP - range
      {
        var b := Next();
        code := code % TOP * 256 + b;
        range := 256 * range;
      }
    }
  }
}
