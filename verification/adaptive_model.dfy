/** The adaptive frequency model, and coding symbols against it. */
module AdaptiveModel {
  import opened Bytes
  import opened ExactCoder
  import opened RangeCoding

  /*
   * The model is never transmitted: both ends start from the same counts and
   * make the same updates from the symbols they have already seen.
   */

  const INCREMENT := 24

  /** Up to this many symbols, halving always brings the total back under MAX_TOTAL. */
  const MAX_SYMBOLS := 2024

  function Sum(counts: seq<nat>): nat {
    if |counts| == 0 then 0 else Sum(counts[..|counts| - 1]) + counts[|counts| - 1]
  }

  /** The frequencies a model holds. */
  datatype Freq = Freq(counts: seq<nat>, total: nat) {
    ghost predicate Valid() {
      1 <= |counts| <= MAX_SYMBOLS &&
      (forall i :: 0 <= i < |counts| ==> counts[i] >= 1) &&
      total == Sum(counts) < MAX_TOTAL
    }
  }

  function Uniform(symbols: nat): (f: Freq)
    requires 1 <= symbols <= MAX_SYMBOLS
    ensures f.Valid() && |f.counts| == symbols && forall i :: 0 <= i < symbols ==> f.counts[i] == 1
  {
    SumOfOnes(symbols);
    Freq(Ones(symbols), symbols)
  }

  function Ones(n: nat): (s: seq<nat>)
    ensures |s| == n && forall i :: 0 <= i < n ==> s[i] == 1
  {
    if n == 0 then [] else Ones(n - 1) + [1]
  }

  lemma SumOfOnes(n: nat)
    ensures Sum(Ones(n)) == n
  {
    if n > 0 {
      assert Ones(n)[..n - 1] == Ones(n - 1);
    }
  }

  lemma SumPrefix(counts: seq<nat>, i: nat)
    requires i < |counts|
    ensures Sum(counts[..i + 1]) == Sum(counts[..i]) + counts[i]
  {
    assert counts[..i + 1][..i] == counts[..i];
  }

  lemma {:induction false} SumMonotone(counts: seq<nat>, i: nat, j: nat)
    requires i <= j <= |counts|
    ensures Sum(counts[..i]) <= Sum(counts[..j]) <= Sum(counts)
    decreases |counts| - i
  {
    assert counts[..|counts|] == counts;
    if i < j {
      SumPrefix(counts, i);
      SumMonotone(counts, i + 1, j);
    } else if i < |counts| {
      SumPrefix(counts, i);
      SumMonotone(counts, i + 1, |counts|);
    }
  }

  lemma {:induction false} SumUpdate(counts: seq<nat>, i: nat, v: nat)
    requires i < |counts|
    ensures Sum(counts[i := v]) == Sum(counts) - counts[i] + v
  {
    var last := |counts| - 1;
    if i == last {
      assert counts[i := v][..last] == counts[..last];
    } else {
      SumUpdate(counts[..last], i, v);
      assert counts[i := v][..last] == counts[..last][i := v];
    }
  }

  // --- adapting ---

  function Half(c: nat): nat {
    if c / 2 > 1 then c / 2 else 1
  }

  function Halved(counts: seq<nat>): (r: seq<nat>)
    ensures |r| == |counts|
    ensures forall i :: 0 <= i < |r| ==> r[i] >= 1
  {
    if |counts| == 0 then [] else Halved(counts[..|counts| - 1]) + [Half(counts[|counts| - 1])]
  }

  /** The counts when the first `i` of them have been halved. */
  ghost function HalvedUpTo(counts: seq<nat>, i: nat): (r: seq<nat>)
    requires i <= |counts|
    ensures |r| == |counts|
    ensures i < |counts| ==> r[i] == counts[i]
    ensures i == 0 ==> r == counts
    ensures i == |counts| ==> r == Halved(counts)
  {
    assert counts[..|counts|] == counts;
    Halved(counts[..i]) + counts[i..]
  }

  lemma HalvedStep(counts: seq<nat>, i: nat)
    requires i < |counts|
    ensures HalvedUpTo(counts, i)[i := Half(counts[i])] == HalvedUpTo(counts, i + 1)
    ensures Sum(Halved(counts[..i + 1])) == Sum(Halved(counts[..i])) + Half(counts[i])
  {
    var head := counts[..i + 1];
    assert head[..i] == counts[..i];
    assert Halved(head) == Halved(counts[..i]) + [Half(counts[i])];
    assert Halved(head)[..i] == Halved(counts[..i]);
  }

  lemma {:induction false} HalvedSum(counts: seq<nat>)
    requires forall i :: 0 <= i < |counts| ==> counts[i] >= 1
    ensures 2 * Sum(Halved(counts)) <= Sum(counts) + |counts|
  {
    var last := |counts| - 1;
    if last >= 0 {
      HalvedSum(counts[..last]);
      assert Halved(counts)[..last] == Halved(counts[..last]);
    }
  }

  lemma {:induction false} HalvedAt(counts: seq<nat>, i: nat)
    requires i < |counts|
    ensures Halved(counts)[i] == Half(counts[i])
  {
    if i < |counts| - 1 {
      HalvedAt(counts[..|counts| - 1], i);
    }
  }

  /** Half of a count, rounded down, except that nothing falls below one. */
  ghost predicate IsHalf(count: nat, kept: nat) {
    2 * kept <= count <= 2 * kept + 1 || (count == 1 && kept == 1)
  }

  /**
   * What seeing `symbol` makes of every count: 24 more for the symbol and nothing
   * for the others, and then, if `halved`, each of them halved.
   */
  ghost predicate Learned(was: seq<nat>, now: seq<nat>, symbol: nat, halved: bool) {
    |now| == |was| &&
    forall i :: 0 <= i < |was| ==>
      var grown := was[i] + if i == symbol then 24 else 0;
      if halved then IsHalf(grown, now[i]) else now[i] == grown
  }

  /** What one symbol does to the counts both ends hold. */
  function Adapt(f: Freq, symbol: nat): (r: Freq)
    requires symbol < |f.counts|
    ensures |r.counts| == |f.counts|
  {
    var raised := f.counts[symbol := f.counts[symbol] + INCREMENT];
    if f.total + INCREMENT >= MAX_TOTAL then Freq(Halved(raised), Sum(Halved(raised)))
    else Freq(raised, f.total + INCREMENT)
  }

  lemma AdaptIs(f: Freq, symbol: nat)
    requires symbol < |f.counts|
    ensures var raised := f.counts[symbol := f.counts[symbol] + INCREMENT];
      Adapt(f, symbol) ==
        if f.total + INCREMENT >= MAX_TOTAL then Freq(Halved(raised), Sum(Halved(raised)))
        else Freq(raised, f.total + INCREMENT)
  {
    hide Sum;
    hide Halved;
  }

  /** The history is halved exactly when the total would reach 2048, and is never forgotten. */
  lemma AdaptLearns(f: Freq, symbol: nat)
    requires f.Valid() && symbol < |f.counts|
    ensures Learned(f.counts, Adapt(f, symbol).counts, symbol, f.total + 24 >= 2048)
  {
    hide Sum;
    hide Halved;
    AdaptIs(f, symbol);
    hide Adapt;
    var raised := f.counts[symbol := f.counts[symbol] + INCREMENT];
    forall i | 0 <= i < |f.counts| ensures IsHalf(raised[i], Half(raised[i])) && Halved(raised)[i] == Half(raised[i]) {
      HalvedAt(raised, i);
    }
  }

  lemma RaisedValid(f: Freq, symbol: nat)
    requires f.Valid() && symbol < |f.counts|
    ensures var raised := f.counts[symbol := f.counts[symbol] + INCREMENT];
      Sum(raised) == f.total + INCREMENT && f.total < MAX_TOTAL && 1 <= |raised| <= MAX_SYMBOLS &&
      forall i :: 0 <= i < |raised| ==> raised[i] >= 1
  {
    SumUpdate(f.counts, symbol, f.counts[symbol] + INCREMENT);
  }

  /** However lopsided it becomes, every symbol stays codeable and the total stays small. */
  lemma AdaptValid(f: Freq, symbol: nat)
    requires f.Valid() && symbol < |f.counts|
    ensures Adapt(f, symbol).Valid()
  {
    hide Adapt;
    hide Sum;
    hide Halved;
    var raised := f.counts[symbol := f.counts[symbol] + INCREMENT];
    RaisedValid(f, symbol);
    AdaptIs(f, symbol);
    hide Freq.Valid;
    if f.total + INCREMENT >= MAX_TOTAL {
      HalvedSum(raised);
      HalvedFits(Sum(Halved(raised)), f.total, |raised|);
      ValidFreq(Halved(raised), Sum(Halved(raised)));
    } else {
      ValidFreq(raised, f.total + INCREMENT);
    }
  }

  lemma ValidFreq(counts: seq<nat>, total: nat)
    requires 1 <= |counts| <= MAX_SYMBOLS && (forall i :: 0 <= i < |counts| ==> counts[i] >= 1)
    requires total == Sum(counts) < MAX_TOTAL
    ensures Freq(counts, total).Valid()
  {
    hide Sum;
  }

  lemma HalvedFits(halved: nat, total: nat, symbols: nat)
    requires 2 * halved <= total + INCREMENT + symbols && total < MAX_TOTAL && symbols <= MAX_SYMBOLS
    ensures halved < MAX_TOTAL
  {
  }

  // --- symbols and intervals ---

  function IntervalOf(f: Freq, symbol: nat): Interval
    requires symbol < |f.counts|
  {
    Interval(Sum(f.counts[..symbol]), f.counts[symbol], f.total)
  }

  lemma IntervalCodable(f: Freq, symbol: nat)
    requires f.Valid() && symbol < |f.counts|
    ensures IntervalOf(f, symbol).Codable()
  {
    SumPrefix(f.counts, symbol);
    SumMonotone(f.counts, symbol + 1, |f.counts|);
  }

  /** The slot `target` falls in is the symbol's own. */
  ghost predicate Hits(counts: seq<nat>, symbol: nat, target: nat) {
    symbol < |counts| &&
    Sum(counts[..symbol]) <= target < Sum(counts[..symbol]) + counts[symbol]
  }

  lemma HitsOnce(counts: seq<nat>, a: nat, b: nat, target: nat)
    requires Hits(counts, a, target) && Hits(counts, b, target)
    ensures a == b
  {
    SumPrefix(counts, a);
    SumPrefix(counts, b);
    if a < b {
      SumMonotone(counts, a + 1, b);
    } else if b < a {
      SumMonotone(counts, b + 1, a);
    }
  }

  function Locate(counts: seq<nat>, target: nat, n: nat): (symbol: nat)
    requires n <= |counts| && target < Sum(counts[..n])
    ensures Hits(counts, symbol, target)
  {
    SumPrefix(counts, n - 1);
    if target >= Sum(counts[..n - 1]) then n - 1 else Locate(counts, target, n - 1)
  }

  function SymbolAt(f: Freq, target: nat): (symbol: nat)
    requires f.Valid() && target < f.total
    ensures Hits(f.counts, symbol, target)
  {
    assert f.counts[..|f.counts|] == f.counts;
    Locate(f.counts, target, |f.counts|)
  }

  /** What decoding one symbol yields: the symbol, the registers, the counts. */
  datatype Decoded = Decoded(symbol: nat, registers: Registers, freq: Freq)

  function DecodeOne(input: seq<Byte>, d: Registers, f: Freq): (r: Decoded)
    requires d.range >= TOP && f.Valid()
    ensures r.symbol < |f.counts| && r.registers.range >= TOP && r.freq.Valid()
  {
    SumPrefix(f.counts, 0);
    SumMonotone(f.counts, 1, |f.counts|);
    var symbol := SymbolAt(f, Target(d, f.total));
    IntervalCodable(f, symbol);
    AdaptValid(f, symbol);
    Decoded(symbol, Consume(input, d, IntervalOf(f, symbol)), Adapt(f, symbol))
  }

  /** One symbol read back: the decoder finds it, and both ends adapt alike. */
  lemma SymbolFollows(bytes: seq<Byte>, d: Registers, e: Exact, f: Freq, symbol: nat)
    requires f.Valid() && symbol < |f.counts| && TOP <= e.range < WORD && Tracks(bytes, d, e)
    requires IntervalOf(f, symbol).Codable() && Inside(bytes, Encode(e, IntervalOf(f, symbol)))
    ensures DecodeOne(bytes, d, f).symbol == symbol
    ensures DecodeOne(bytes, d, f).freq == Adapt(f, symbol)
    ensures Tracks(bytes, DecodeOne(bytes, d, f).registers, Encode(e, IntervalOf(f, symbol)))
  {
    DecoderFollows(bytes, d, e, IntervalOf(f, symbol));
    HitsOnce(f.counts, symbol, DecodeOne(bytes, d, f).symbol, Target(d, f.total));
  }

  // --- the model object ---

  class Model {
    var counts: seq<nat>
    var total: nat

    ghost function State(): Freq
      reads this
    {
      Freq(counts, total)
    }

    ghost predicate Valid()
      reads this
    {
      State().Valid()
    }

    constructor (symbols: nat)
      requires 1 <= symbols <= MAX_SYMBOLS
      ensures Valid() && State() == Uniform(symbols)
    {
      SumOfOnes(symbols);
      counts := Ones(symbols);
      total := symbols;
    }

    constructor Clone(other: Model)
      ensures State() == other.State()
    {
      counts := other.counts;
      total := other.total;
    }

    method RangeOf(symbol: nat) returns (cum: nat, freq: nat)
      requires symbol < |counts|
      ensures cum == Sum(counts[..symbol]) && freq == counts[symbol]
    {
      cum := 0;
      for i := 0 to symbol
        invariant cum == Sum(counts[..i])
      {
        SumPrefix(counts, i);
        cum := cum + counts[i];
      }
      freq := counts[symbol];
    }

    /** Which symbol `target` falls in. A target past the end names the last one. */
    method FindSymbol(target: nat) returns (symbol: nat, cum: nat, freq: nat)
      requires Valid()
      ensures symbol < |counts| && cum == Sum(counts[..symbol]) && freq == counts[symbol]
      ensures if target < total then Hits(counts, symbol, target) else symbol == |counts| - 1
    {
      cum := 0;
      for i := 0 to |counts|
        invariant cum == Sum(counts[..i]) <= target
      {
        SumPrefix(counts, i);
        if target < cum + counts[i] {
          SumMonotone(counts, i + 1, |counts|);
          if target >= total { assert false; }
          return i, cum, counts[i];
        }
        cum := cum + counts[i];
      }
      assert counts[..|counts|] == counts;
      SumPrefix(counts, |counts| - 1);
      symbol := |counts| - 1;
      cum := total - counts[symbol];
      freq := counts[symbol];
    }

    /** Make `symbol` more likely next time. */
    method Update(symbol: nat)
      requires Valid() && symbol < |counts|
      modifies this
      ensures State() == Adapt(old(State()), symbol)
      ensures Learned(old(counts), counts, symbol, old(total) + 24 >= 2048)
      ensures Valid()
    {
      ghost var f := State();
      hide Learned;
      AdaptValid(f, symbol);
      AdaptIs(f, symbol);
      AdaptLearns(f, symbol);
      hide Adapt;
      hide Sum;
      hide Halved;
      hide Freq.Valid;
      counts := counts[symbol := counts[symbol] + INCREMENT];
      total := total + INCREMENT;
      if total >= MAX_TOTAL {
        Halve();
      }
      assert State() == Adapt(f, symbol);
    }

    method Halve()
      modifies this
      ensures counts == Halved(old(counts)) && total == Sum(counts)
    {
      total := 0;
      ghost var raised := counts;
      for i := 0 to |counts|
        invariant counts == HalvedUpTo(raised, i)
        invariant total == Sum(Halved(raised[..i]))
      {
        HalvedStep(raised, i);
        var halved := if counts[i] / 2 > 1 then counts[i] / 2 else 1;
        counts := counts[i := halved];
        total := total + halved;
      }
      assert raised[..|raised|] == raised;
    }
  }

  /** Encode a symbol and adapt. */
  method EncodeSymbol(encoder: RangeEncoder, model: Model, symbol: nat)
    requires encoder.Valid() && model.Valid() && symbol < |model.counts|
    modifies encoder, model
    ensures encoder.Valid() && model.Valid()
    ensures IntervalOf(old(model.State()), symbol).Codable()
    ensures encoder.Abs() == Encode(old(encoder.Abs()), IntervalOf(old(model.State()), symbol))
    ensures model.State() == Adapt(old(model.State()), symbol)
  {
    IntervalCodable(model.State(), symbol);
    var cum, freq := model.RangeOf(symbol);
    encoder.Encode(cum, freq, model.total);
    model.Update(symbol);
  }

  /** Decode a symbol and adapt. Any input at all yields a symbol of the alphabet. */
  method DecodeSymbol(decoder: RangeDecoder, model: Model) returns (symbol: nat)
    requires decoder.Valid() && model.Valid()
    modifies decoder, model
    ensures decoder.Valid() && model.Valid()
    ensures symbol == DecodeOne(decoder.input, old(decoder.State()), old(model.State())).symbol
    ensures decoder.State() == DecodeOne(decoder.input, old(decoder.State()), old(model.State())).registers
    ensures model.State() == DecodeOne(decoder.input, old(decoder.State()), old(model.State())).freq
  {
    hide Sum;
    hide Adapt;
    hide DecodeOne;
    hide Hits;
    hide Target;
    ghost var f := model.State();
    ghost var d := decoder.State();
    SomeTotal(f);
    var target := decoder.FindTarget(model.total);
    var cum, freq;
    symbol, cum, freq := model.FindSymbol(target);
    FoundSymbol(decoder.input, d, f, symbol);
    Consumes(decoder.input, d, IntervalOf(f, symbol), decoder.range);
    assert IntervalOf(f, symbol) == Interval(cum, freq, f.total);
    hide *;
    decoder.Update(cum, freq);
    model.Update(symbol);
  }

  /** Consuming an interval, by the width of one unit. */
  lemma Consumes(input: seq<Byte>, d: Registers, iv: Interval, unit: nat)
    requires d.range >= TOP && iv.Codable() && iv.cum <= Target(d, iv.total) && unit == d.range / iv.total
    ensures 0 < unit && iv.cum * unit <= d.code && 0 < unit * iv.freq < WORD
    ensures Consume(input, d, iv) == Refill(input, Registers(d.code - iv.cum * unit, unit * iv.freq, d.position))
  {
    NoUnderflow(d, iv);
  }

  lemma SomeTotal(f: Freq)
    requires f.Valid()
    ensures f.total > 0
  {
    SumPrefix(f.counts, 0);
    SumMonotone(f.counts, 1, |f.counts|);
  }

  /** The symbol whose slot the target falls in is the one decoded. */
  lemma FoundSymbol(input: seq<Byte>, d: Registers, f: Freq, symbol: nat)
    requires f.Valid() && d.range >= TOP && f.total > 0 && symbol < |f.counts| && Hits(f.counts, symbol, Target(d, f.total))
    ensures IntervalOf(f, symbol).Codable() && IntervalOf(f, symbol).cum <= Target(d, f.total)
    ensures DecodeOne(input, d, f) == Decoded(symbol, Consume(input, d, IntervalOf(f, symbol)), Adapt(f, symbol))
  {
    hide Adapt;
    hide Consume;
    hide Target;
    HitsOnce(f.counts, symbol, DecodeOne(input, d, f).symbol, Target(d, f.total));
    IntervalCodable(f, symbol);
  }
}
