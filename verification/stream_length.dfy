/** How long a stream is: no longer than what its symbols are worth to the models that coded them. */
module StreamLength {
  import opened Bytes
  import opened ExactCoder
  import opened AdaptiveModel
  import opened SymbolStream

  /** The range is cut into as many whole units as the total counts, and a slot takes its own. */
  lemma NarrowShare(e: Exact, iv: Interval) returns (unit: nat)
    requires iv.Codable() && TOP <= e.range < WORD
    ensures unit * iv.total <= e.range < (unit + 1) * iv.total
    ensures Narrow(e, iv) == Exact(e.low + unit * iv.cum, unit * iv.freq, e.shifts)
  {
    unit := e.range / iv.total;
    QuotientTimes(e.range, iv.total);
  }

  lemma Above(a: nat, b: nat, k: nat)
    requires a < b && k > 0
    ensures a * k < b * k
  {
  }

  // --- over a whole stream ---

  /** The counts the symbols had when they were coded, multiplied up, with 8191 for each of them. */
  function Likely(bank: seq<Freq>, cs: seq<Coded>): nat
    requires AllFit(bank, cs)
    decreases |cs|
  {
    if cs == [] then 1
    else Times(Times(8191, bank[cs[0].model].counts[cs[0].symbol]), Likely(AdaptBank(bank, cs[0]), cs[1..]))
  }

  /** The totals they were counted out of, with 8192 for each. */
  function Totals(bank: seq<Freq>, cs: seq<Coded>): nat
    requires AllFit(bank, cs)
    decreases |cs|
  {
    if cs == [] then 1
    else Times(Times(8192, bank[cs[0].model].total), Totals(AdaptBank(bank, cs[0]), cs[1..]))
  }

  function Times(a: nat, b: nat): nat {
    a * b
  }

  lemma {:induction false} PowerSum(a: nat, b: nat)
    ensures Pow256(a + b) == Times(Pow256(a), Pow256(b))
  {
    if a > 0 {
      PowerSum(a - 1, b);
      NextPower(a - 1);
      NextPower(a - 1 + b);
      hide *;
      Regrouped(Pow256(a - 1), Pow256(b));
    } else {
      Once(Pow256(b));
    }
  }

  lemma NextPower(a: nat)
    ensures Pow256(a + 1) == 256 * Pow256(a)
  {
  }

  lemma Regrouped(p: nat, q: nat)
    ensures Times(256 * p, q) == 256 * Times(p, q)
  {
    assert 256 * (p * q) == (256 * p) * q;
  }

  lemma {:induction false} RenormScales(e: Exact)
    requires 0 < e.range < WORD
    ensures 0x100_0000 <= Renorm(e).range < 0x1_0000_0000
    ensures Renorm(e).shifts >= e.shifts
    ensures Renorm(e).range == Times(e.range, Pow256(Renorm(e).shifts - e.shifts))
    decreases TOP - e.range
  {
    hide Times;
    if e.range < TOP {
      var next := Exact(256 * e.low, 256 * e.range, e.shifts + 1);
      RenormScales(next);
      var k := Renorm(next).shifts - next.shifts;
      Deeper(e.range, k);
    } else {
      Once(e.range);
    }
  }

  lemma Deeper(range: nat, k: nat)
    ensures Times(256 * range, Pow256(k)) == Times(range, Pow256(k + 1))
  {
    assert (256 * range) * Pow256(k) == range * (256 * Pow256(k));
  }

  lemma Once(a: nat)
    ensures Times(a, Pow256(0)) == a && Times(a, 1) == a && Times(Pow256(0), a) == a
  {
  }

  /** One symbol: the range falls by no more than its frequency over the total, give or take one part in 8192. */
  lemma EncodeCost(e: Exact, iv: Interval)
    requires iv.Codable() && TOP <= e.range < WORD
    ensures var r := Encode(e, iv);
      r.shifts >= e.shifts &&
      Times(e.range, Times(Times(8191, iv.freq), Pow256(r.shifts - e.shifts))) <= Times(r.range, Times(8192, iv.total))
  {
    var n := Narrow(e, iv);
    var r := Encode(e, iv);
    NarrowCost(e, iv);
    RenormScales(n);
    hide *;
    Scaled(e.range, Times(8191, iv.freq), n.range, Times(8192, iv.total), Pow256(r.shifts - e.shifts));
  }

  lemma NarrowCost(e: Exact, iv: Interval)
    requires iv.Codable() && TOP <= e.range < WORD
    ensures Times(e.range, Times(8191, iv.freq)) <= Times(Narrow(e, iv).range, Times(8192, iv.total))
  {
    var unit := NarrowShare(e, iv);
    Loss(e.range, unit * iv.total, iv.total, (unit + 1) * iv.total);
    hide Interval.Codable;
    Scale(8191 * e.range, 8192 * (unit * iv.total), iv.freq);
    Arrange(e.range, unit, iv.freq, iv.total);
  }

  lemma Loss(range: nat, whole: nat, total: nat, next: nat)
    requires total <= MAX_TOTAL && range >= TOP && next == whole + total && whole <= range < next
    ensures 8191 * range <= 8192 * whole
  {
  }

  lemma Arrange(range: nat, unit: nat, freq: nat, total: nat)
    ensures range * (8191 * freq) == (8191 * range) * freq
    ensures (unit * freq) * (8192 * total) == (8192 * (unit * total)) * freq
  {
  }

  lemma Scaled(range: nat, likely: nat, narrowed: nat, total: nat, power: nat)
    requires Times(range, likely) <= Times(narrowed, total)
    ensures Times(range, Times(likely, power)) <= Times(Times(narrowed, power), total)
  {
    Scale(range * likely, narrowed * total, power);
    assert range * (likely * power) == (range * likely) * power;
    assert (narrowed * power) * total == (narrowed * total) * power;
  }

  /** Two stretches one after the other. */
  lemma Chained(first: nat, a: nat, p: nat, middle: nat, b: nat, a': nat, p': nat, last: nat, b': nat)
    requires Times(first, Times(a, p)) <= Times(middle, b)
    requires Times(middle, Times(a', p')) <= Times(last, b')
    ensures Times(first, Times(Times(a, a'), Times(p, p'))) <= Times(last, Times(b, b'))
  {
    var ap, ap' := a * p, a' * p';
    Scale(first * ap, middle * b, ap');
    Scale(middle * ap', last * b', b);
    assert first * ((a * a') * (p * p')) == (first * ap) * ap' by { Four(first, a, a', p, p'); }
    assert (middle * b) * ap' == (middle * ap') * b;
    assert (last * b') * b == last * (b * b');
  }

  lemma Four(first: nat, a: nat, a': nat, p: nat, p': nat)
    ensures first * ((a * a') * (p * p')) == (first * (a * p)) * (a' * p')
  {
    assert (a * a') * (p * p') == (a * p) * (a' * p');
    assert first * ((a * p) * (a' * p')) == (first * (a * p)) * (a' * p');
  }

  lemma {:induction false} StreamCost(e: Exact, bank: seq<Freq>, cs: seq<Coded>)
    requires e.Ready() && ValidBank(bank) && AllFit(bank, cs)
    ensures var r := Stream(e, bank, cs);
      r.shifts >= e.shifts &&
      Times(e.range, Times(Likely(bank, cs), Pow256(r.shifts - e.shifts))) <= Times(r.range, Totals(bank, cs))
    decreases |cs|
  {
    hide Encode;
    hide Times;
    hide AdaptBank;
    if cs == [] {
      Once(1);
      Once(e.range);
    } else {
      var f, symbol := bank[cs[0].model], cs[0].symbol;
      var iv := IntervalOf(f, symbol);
      IntervalCodable(f, symbol);
      EncodeCost(e, iv);
      var next := Encode(e, iv);
      var r := Stream(e, bank, cs);
      StreamCost(next, AdaptBank(bank, cs[0]), cs[1..]);
      PowerSum(next.shifts - e.shifts, r.shifts - next.shifts);
      Chained(e.range, Times(8191, f.counts[symbol]), Pow256(next.shifts - e.shifts), next.range, Times(8192, f.total),
              Likely(AdaptBank(bank, cs[0]), cs[1..]), Pow256(r.shifts - next.shifts), r.range, Totals(AdaptBank(bank, cs[0]), cs[1..]));
    }
  }

  /**
   * A finished stream has four bytes more than 256 has to be multiplied up to
   * reach the product of totals over counts, each symbol costing one part in
   * 8192 besides.
   */
  lemma StreamIsShort(bank: seq<Freq>, cs: seq<Coded>)
    requires ValidBank(bank) && AllFit(bank, cs)
    ensures var bytes := BytesOf(Stream(Start(), bank, cs));
      |bytes| >= 4 &&
      0xffff_ffff * (Likely(bank, cs) * Pow256(|bytes| - 4)) < 0x1_0000_0000 * Totals(bank, cs)
  {
    StreamCost(Start(), bank, cs);
    TotalsPositive(bank, cs);
    var r := Stream(Start(), bank, cs);
    hide Stream;
    hide Likely;
    hide Totals;
    Above(r.range, WORD, Totals(bank, cs));
  }

  lemma {:induction false} TotalsPositive(bank: seq<Freq>, cs: seq<Coded>)
    requires ValidBank(bank) && AllFit(bank, cs)
    ensures Totals(bank, cs) > 0
    decreases |cs|
  {
    if cs != [] {
      var f := bank[cs[0].model];
      IntervalCodable(f, cs[0].symbol);
      TotalsPositive(AdaptBank(bank, cs[0]), cs[1..]);
      Above(0, 8192 * f.total, Totals(AdaptBank(bank, cs[0]), cs[1..]));
    }
  }
}
