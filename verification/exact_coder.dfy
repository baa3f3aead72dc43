/** The arithmetic coder on unbounded integers, where a carry cannot happen. */
module ExactCoder {
  import opened Bytes

  /*
   * One interval [low, low + range), scaled by 256 whenever it gets narrower
   * than TOP. This is the specification that the coder of `RangeCoding`, with
   * its held-back byte and its queue of 0xff bytes, refines; and it is where the
   * round trip is proved.
   */

  const TOP := 0x100_0000
  const WORD := 0x1_0000_0000
  const MAX_TOTAL := 2048

  /** What one coded symbol occupies: [cum, cum + freq) out of total. */
  datatype Interval = Interval(cum: nat, freq: nat, total: nat) {
    predicate Codable() {
      freq > 0 && cum + freq <= total <= MAX_TOTAL
    }
  }

  datatype Exact = Exact(low: nat, range: nat, shifts: nat) {
    /** Wide enough to code into, and inside the number of bytes paid for. */
    predicate Ready() {
      TOP <= range < WORD && low + range <= Pow256(shifts + 4)
    }
  }

  /** Nothing coded yet: the whole of 32 bits. */
  function Start(): (e: Exact)
    ensures e == Exact(0, WORD - 1, 0) && e.Ready()
  {
    assert Pow256(4) == WORD;
    Exact(0, WORD - 1, 0)
  }

  function Narrow(e: Exact, iv: Interval): (r: Exact)
    requires iv.Codable() && TOP <= e.range < WORD
    ensures e.low <= r.low && r.low + r.range <= e.low + e.range
    ensures 0 < r.range < WORD && r.shifts == e.shifts
  {
    var unit := e.range / iv.total;
    SlicesFit(e.range, unit, iv);
    Exact(e.low + unit * iv.cum, unit * iv.freq, e.shifts)
  }

  lemma QuotientTimes(x: nat, d: nat)
    requires d > 0
    ensures x / d * d <= x < (x / d + 1) * d
  {
  }

  lemma Scale(a: nat, b: nat, unit: nat)
    requires a <= b
    ensures a * unit <= b * unit
  {
  }

  lemma UnitPositive(range: nat, total: nat)
    requires range >= TOP && 0 < total <= MAX_TOTAL
    ensures range / total > 0
  {
    QuotientTimes(range, total);
  }

  /** A range holds `total` slices of its unit width, none of them empty. */
  lemma SlicesFit(range: nat, unit: nat, iv: Interval)
    requires iv.Codable() && range >= TOP && unit == range / iv.total
    ensures unit * iv.cum + unit * iv.freq <= range
    ensures 0 < unit && 0 < unit * iv.freq <= range
    ensures unit * iv.cum == iv.cum * unit <= range
  {
    QuotientTimes(range, iv.total);
    UnitPositive(range, iv.total);
    assert unit * (iv.cum + iv.freq) == unit * iv.cum + unit * iv.freq;
    Scale(iv.cum + iv.freq, iv.total, unit);
    Scale(1, iv.freq, unit);
  }

  function Renorm(e: Exact): (r: Exact)
    requires 0 < e.range < WORD
    ensures TOP <= r.range < WORD
    ensures e.low + e.range <= Pow256(e.shifts + 4) ==> r.Ready()
    decreases TOP - e.range
  {
    if e.range >= TOP then e else Renorm(Exact(256 * e.low, 256 * e.range, e.shifts + 1))
  }

  function Encode(e: Exact, iv: Interval): (r: Exact)
    requires iv.Codable() && TOP <= e.range < WORD
    ensures TOP <= r.range < WORD
    ensures e.Ready() ==> r.Ready()
  {
    Renorm(Narrow(e, iv))
  }

  /** What the encoder emits: its low end, in exactly shifts + 4 bytes. */
  function BytesOf(e: Exact): (s: seq<Byte>)
    requires e.Ready()
    ensures |s| == e.shifts + 4
    ensures Number(s) == e.low
  {
    NumberOfDigits(e.low, e.shifts + 4);
    Digits(e.low, e.shifts + 4)
  }

  // --- the bytes stay inside every interval on the way ---

  /** The leading bytes of `bytes` name a point of the interval of `e`. */
  ghost predicate Inside(bytes: seq<Byte>, e: Exact) {
    e.shifts + 4 <= |bytes| &&
    e.low <= Number(bytes[..e.shifts + 4]) < e.low + e.range
  }

  lemma PrefixStep(bytes: seq<Byte>, n: nat)
    requires n < |bytes|
    ensures Number(bytes[..n + 1]) == 256 * Number(bytes[..n]) + bytes[n]
  {
    NumberAppend(bytes[..n], bytes[n]);
    assert bytes[..n + 1] == bytes[..n] + [bytes[n]];
  }

  lemma {:induction false} RenormNested(bytes: seq<Byte>, e: Exact)
    requires 0 < e.range < WORD && Inside(bytes, Renorm(e))
    ensures Inside(bytes, e)
    decreases TOP - e.range
  {
    if e.range < TOP {
      RenormNested(bytes, Exact(256 * e.low, 256 * e.range, e.shifts + 1));
      PrefixStep(bytes, e.shifts + 4);
    }
  }

  lemma EncodeNested(bytes: seq<Byte>, e: Exact, iv: Interval)
    requires iv.Codable() && TOP <= e.range < WORD && Inside(bytes, Encode(e, iv))
    ensures Inside(bytes, Narrow(e, iv))
    ensures Inside(bytes, e)
  {
    RenormNested(bytes, Narrow(e, iv));
  }

  // --- the decoder ---

  /** The decoder's registers: offset into the interval, its width, bytes read. */
  datatype Registers = Registers(code: U32, range: U32, position: nat)

  /** Past the end reads as zero. */
  function ByteAt(input: seq<Byte>, position: nat): Byte {
    if position < |input| then input[position] else 0
  }

  /** One more byte into the code register; a 32 bit shift loses the top. */
  function Feed(code: U32, b: Byte): U32 {
    (code % TOP) * 256 + b
  }

  function Boot(input: seq<Byte>): (d: Registers)
    ensures d.range == WORD - 1 && d.position == 4
  {
    var c0 := Feed(0, ByteAt(input, 0));
    var c1 := Feed(c0, ByteAt(input, 1));
    var c2 := Feed(c1, ByteAt(input, 2));
    var c3 := Feed(c2, ByteAt(input, 3));
    Registers(c3, WORD - 1, 4)
  }

  function Refill(input: seq<Byte>, d: Registers): (r: Registers)
    requires d.range > 0
    ensures r.range >= TOP
    decreases TOP - d.range
  {
    if d.range >= TOP then d
    else Refill(input, Registers(Feed(d.code, ByteAt(input, d.position)), 256 * d.range, d.position + 1))
  }

  /** Where in `total` the next symbol falls, whatever the code register holds. */
  function Target(d: Registers, total: nat): (t: nat)
    requires d.range >= TOP && 0 < total <= MAX_TOTAL
    ensures t < total
  {
    UnitPositive(d.range, total);
    var unit := d.range / total;
    var t := d.code / unit;
    if t < total - 1 then t else total - 1
  }

  /** Taking an interval that starts at or below the target never underflows. */
  lemma NoUnderflow(d: Registers, iv: Interval)
    requires d.range >= TOP && iv.Codable() && iv.cum <= Target(d, iv.total)
    ensures 0 < d.range / iv.total
    ensures iv.cum * (d.range / iv.total) <= d.code
    ensures 0 < d.range / iv.total * iv.freq <= d.range
  {
    var unit := d.range / iv.total;
    SlicesFit(d.range, unit, iv);
    var t := d.code / unit;
    QuotientTimes(d.code, unit);
    Scale(iv.cum, t, unit);
  }

  /** The registers inside the interval taken, before any byte is read. */
  function Taken(d: Registers, iv: Interval): (r: Registers)
    requires d.range >= TOP && iv.Codable() && iv.cum <= Target(d, iv.total)
    ensures 0 < r.range
  {
    NoUnderflow(d, iv);
    var unit := d.range / iv.total;
    Registers(d.code - iv.cum * unit, unit * iv.freq, d.position)
  }

  function Consume(input: seq<Byte>, d: Registers, iv: Interval): (r: Registers)
    requires d.range >= TOP && iv.Codable() && iv.cum <= Target(d, iv.total)
    ensures r.range >= TOP
  {
    Refill(input, Taken(d, iv))
  }

  /** The decoder holds exactly the encoder's interval, seen from inside. */
  ghost predicate Tracks(bytes: seq<Byte>, d: Registers, e: Exact) {
    d.position == e.shifts + 4 <= |bytes| &&
    d.range == e.range &&
    d.code == Number(bytes[..d.position]) - e.low &&
    d.code < d.range
  }

  lemma FeedNumber(bytes: seq<Byte>, n: nat)
    requires n < |bytes| && Number(bytes[..n]) < TOP
    ensures Number(bytes[..n + 1]) == Feed(Number(bytes[..n]), ByteAt(bytes, n))
    ensures Number(bytes[..n + 1]) < 256 * (Number(bytes[..n]) + 1)
  {
    PrefixStep(bytes, n);
  }

  lemma BootTracks(bytes: seq<Byte>)
    requires Inside(bytes, Start())
    ensures Tracks(bytes, Boot(bytes), Start())
  {
    assert bytes[..0] == [];
    FeedNumber(bytes, 0);
    FeedNumber(bytes, 1);
    FeedNumber(bytes, 2);
    FeedNumber(bytes, 3);
  }

  lemma FeedTracks(bytes: seq<Byte>, d: Registers, e: Exact)
    requires 0 < e.range < TOP && Tracks(bytes, d, e) && d.position < |bytes|
    requires Inside(bytes, Exact(256 * e.low, 256 * e.range, e.shifts + 1))
    ensures Tracks(bytes, Registers(Feed(d.code, ByteAt(bytes, d.position)), 256 * d.range, d.position + 1),
                   Exact(256 * e.low, 256 * e.range, e.shifts + 1))
  {
    PrefixStep(bytes, d.position);
    assert d.code % TOP == d.code;
  }

  lemma {:induction false} RefillTracks(bytes: seq<Byte>, d: Registers, e: Exact)
    requires 0 < e.range < WORD && Tracks(bytes, d, e) && Inside(bytes, Renorm(e))
    ensures Tracks(bytes, Refill(bytes, d), Renorm(e))
    decreases TOP - e.range
  {
    if e.range < TOP {
      var e' := Exact(256 * e.low, 256 * e.range, e.shifts + 1);
      RenormNested(bytes, e');
      FeedTracks(bytes, d, e);
      RefillTracks(bytes, Registers(Feed(d.code, ByteAt(bytes, d.position)), 256 * d.range, d.position + 1), e');
    }
  }

  /**
   * One symbol: a decoder in step with the encoder before the symbol finds a
   * target inside the symbol's interval, and is in step after it.
   */
  lemma DecoderFollows(bytes: seq<Byte>, d: Registers, e: Exact, iv: Interval)
    requires iv.Codable() && TOP <= e.range < WORD
    requires Tracks(bytes, d, e) && Inside(bytes, Encode(e, iv))
    ensures iv.cum <= Target(d, iv.total) < iv.cum + iv.freq
    ensures Tracks(bytes, Consume(bytes, d, iv), Encode(e, iv))
  {
    EncodeNested(bytes, e, iv);
    hide Renorm;
    hide Refill;
    hide Inside;
    hide Tracks;
    hide Narrow;
    hide Taken;
    hide Target;
    SliceFound(bytes, d, e, iv);
    TakenTracks(bytes, d, e, iv);
    RefillTracks(bytes, Taken(d, iv), Narrow(e, iv));
  }

  /** A code inside the interval coded points at the symbol coded. */
  lemma SliceFound(bytes: seq<Byte>, d: Registers, e: Exact, iv: Interval)
    requires iv.Codable() && TOP <= e.range < WORD
    requires Tracks(bytes, d, e) && Inside(bytes, Narrow(e, iv))
    ensures d.range == e.range && iv.cum <= Target(d, iv.total) < iv.cum + iv.freq
  {
    hide Number;
    var unit := d.range / iv.total;
    SlicesFit(d.range, unit, iv);
    QuotientBetween(d.code, unit, iv.cum, iv.cum + iv.freq);
  }

  lemma TakenTracks(bytes: seq<Byte>, d: Registers, e: Exact, iv: Interval)
    requires iv.Codable() && TOP <= e.range < WORD && e.range == d.range && iv.cum <= Target(d, iv.total)
    requires Tracks(bytes, d, e) && Inside(bytes, Narrow(e, iv))
    ensures Tracks(bytes, Taken(d, iv), Narrow(e, iv))
  {
    hide Number;
    hide Target;
    Commutes(iv.cum, d.range / iv.total);
  }

  lemma Commutes(a: nat, b: nat)
    ensures a * b == b * a
  {
  }

  lemma QuotientBetween(code: nat, unit: nat, lo: nat, hi: nat)
    requires unit > 0 && unit * lo <= code < unit * lo + unit * (hi - lo) && lo < hi
    ensures lo <= code / unit < hi
  {
    var q := code / unit;
    assert unit * lo + unit * (hi - lo) == unit * hi;
    assert unit * q <= code < unit * (q + 1);
    assert q < lo ==> unit * (q + 1) <= unit * lo;
    assert q >= hi ==> unit * q >= unit * hi;
  }
}
