/** Whole streams of symbols, each coded against one model of a bank that both ends carry. */
module SymbolStream {
  import opened Bytes
  import opened ExactCoder
  import opened RangeCoding
  import opened AdaptiveModel

  /** One symbol and which model of the bank it is coded against. */
  datatype Coded = Coded(model: nat, symbol: nat)

  ghost predicate ValidBank(bank: seq<Freq>) {
    forall i :: 0 <= i < |bank| ==> bank[i].Valid()
  }

  ghost predicate Fits(bank: seq<Freq>, c: Coded) {
    c.model < |bank| && c.symbol < |bank[c.model].counts|
  }

  function AdaptBank(bank: seq<Freq>, c: Coded): (r: seq<Freq>)
    requires Fits(bank, c)
    ensures |r| == |bank|
    ensures ValidBank(bank) ==> ValidBank(r)
  {
    assert ValidBank(bank) ==> Adapt(bank[c.model], c.symbol).Valid() by {
      if ValidBank(bank) { AdaptValid(bank[c.model], c.symbol); }
    }
    bank[c.model := Adapt(bank[c.model], c.symbol)]
  }

  /** Every symbol belongs to the alphabet of the model it is coded against. */
  ghost predicate AllFit(bank: seq<Freq>, cs: seq<Coded>)
    decreases |cs|
  {
    cs == [] || (Fits(bank, cs[0]) && AllFit(AdaptBank(bank, cs[0]), cs[1..]))
  }

  /** The bank once `cs` has been coded against it. */
  function After(bank: seq<Freq>, cs: seq<Coded>): (r: seq<Freq>)
    requires AllFit(bank, cs)
    ensures |r| == |bank|
    ensures ValidBank(bank) ==> ValidBank(r)
    decreases |cs|
  {
    if cs == [] then bank else After(AdaptBank(bank, cs[0]), cs[1..])
  }

  /** The unbounded coder after coding `cs` from `e`. */
  function Stream(e: Exact, bank: seq<Freq>, cs: seq<Coded>): (r: Exact)
    requires e.Ready() && ValidBank(bank) && AllFit(bank, cs)
    ensures r.Ready()
    decreases |cs|
  {
    if cs == [] then e
    else
      IntervalCodable(bank[cs[0].model], cs[0].symbol);
      Stream(Encode(e, IntervalOf(bank[cs[0].model], cs[0].symbol)), AdaptBank(bank, cs[0]), cs[1..])
  }

  lemma {:induction false} AfterAppend(bank: seq<Freq>, a: seq<Coded>, b: seq<Coded>)
    requires AllFit(bank, a) && AllFit(After(bank, a), b)
    ensures AllFit(bank, a + b)
    ensures After(bank, a + b) == After(After(bank, a), b)
    decreases |a|
  {
    hide AdaptBank;
    hide Fits;
    if a == [] {
      assert a + b == b;
    } else {
      AfterAppend(AdaptBank(bank, a[0]), a[1..], b);
      assert (a + b)[0] == a[0] && (a + b)[1..] == a[1..] + b;
    }
  }

  /** One stream after another is the stream of both, with the models carried over. */
  lemma {:induction false} StreamAppend(e: Exact, bank: seq<Freq>, a: seq<Coded>, b: seq<Coded>)
    requires e.Ready() && ValidBank(bank) && AllFit(bank, a) && AllFit(After(bank, a), b)
    ensures AllFit(bank, a + b)
    ensures After(bank, a + b) == After(After(bank, a), b)
    ensures Stream(e, bank, a + b) == Stream(Stream(e, bank, a), After(bank, a), b)
    decreases |a|
  {
    hide AdaptBank;
    hide Encode;
    hide IntervalOf;
    AfterAppend(bank, a, b);
    if a == [] {
      assert a + b == b;
    } else {
      IntervalCodable(bank[a[0].model], a[0].symbol);
      StreamAppend(Encode(e, IntervalOf(bank[a[0].model], a[0].symbol)), AdaptBank(bank, a[0]), a[1..], b);
      assert (a + b)[0] == a[0] && (a + b)[1..] == a[1..] + b;
    }
  }

  /** Bytes inside the last interval are inside every one before it. */
  lemma {:induction false} StreamNested(bytes: seq<Byte>, e: Exact, bank: seq<Freq>, cs: seq<Coded>)
    requires e.Ready() && ValidBank(bank) && AllFit(bank, cs) && Inside(bytes, Stream(e, bank, cs))
    ensures Inside(bytes, e)
    decreases |cs|
  {
    hide AdaptBank;
    hide Encode;
    hide IntervalOf;
    hide Inside;
    if cs != [] {
      var iv := IntervalOf(bank[cs[0].model], cs[0].symbol);
      IntervalCodable(bank[cs[0].model], cs[0].symbol);
      StreamNested(bytes, Encode(e, iv), AdaptBank(bank, cs[0]), cs[1..]);
      EncodeNested(bytes, e, iv);
    }
  }

  /** A decoder at `d`, holding `bank`, will read exactly `cs` out of `bytes`. */
  ghost predicate WillRead(bytes: seq<Byte>, d: Registers, bank: seq<Freq>, cs: seq<Coded>) {
    ValidBank(bank) && AllFit(bank, cs) &&
    exists e: Exact :: e.Ready() && Tracks(bytes, d, e) && Inside(bytes, Stream(e, bank, cs))
  }

  lemma WillReadReady(bytes: seq<Byte>, d: Registers, bank: seq<Freq>, cs: seq<Coded>)
    requires WillRead(bytes, d, bank, cs)
    ensures d.range >= TOP
  {
  }

  /** A fresh decoder will read everything a fresh encoder wrote. */
  lemma FreshDecoderWillRead(bank: seq<Freq>, cs: seq<Coded>)
    requires ValidBank(bank) && AllFit(bank, cs)
    ensures WillRead(BytesOf(Stream(Start(), bank, cs)), Boot(BytesOf(Stream(Start(), bank, cs))), bank, cs)
  {
    var last := Stream(Start(), bank, cs);
    var bytes := BytesOf(last);
    assert bytes[..last.shifts + 4] == bytes;
    StreamNested(bytes, Start(), bank, cs);
    BootTracks(bytes);
  }

  /** Reading the next symbol: it is the one written, and the rest is still to come. */
  lemma ReadsNext(bytes: seq<Byte>, d: Registers, bank: seq<Freq>, cs: seq<Coded>)
    requires WillRead(bytes, d, bank, cs) && cs != []
    ensures Fits(bank, cs[0]) && d.range >= TOP
    ensures var r := DecodeOne(bytes, d, bank[cs[0].model]);
      r.symbol == cs[0].symbol &&
      bank[cs[0].model := r.freq] == AdaptBank(bank, cs[0]) &&
      WillRead(bytes, r.registers, AdaptBank(bank, cs[0]), cs[1..])
    ensures AllFit(AdaptBank(bank, cs[0]), cs[1..]) && After(bank, cs) == After(AdaptBank(bank, cs[0]), cs[1..])
  {
    var e: Exact :| e.Ready() && Tracks(bytes, d, e) && Inside(bytes, Stream(e, bank, cs));
    var f := bank[cs[0].model];
    IntervalCodable(f, cs[0].symbol);
    var next := Encode(e, IntervalOf(f, cs[0].symbol));
    StreamNested(bytes, next, AdaptBank(bank, cs[0]), cs[1..]);
    SymbolFollows(bytes, d, e, f, cs[0].symbol);
  }

  // --- one model, any symbols ---

  function Against(symbols: seq<nat>): (cs: seq<Coded>)
    ensures |cs| == |symbols|
    ensures forall i :: 0 <= i < |cs| ==> cs[i] == Coded(0, symbols[i])
  {
    seq(|symbols|, i requires 0 <= i < |symbols| => Coded(0, symbols[i]))
  }

  /** What `EncodeSymbol` over `symbols` from a fresh encoder and model emits. */
  function EncodedBytes(alphabet: nat, symbols: seq<nat>): (bytes: seq<Byte>)
    requires 1 <= alphabet <= MAX_SYMBOLS && forall i :: 0 <= i < |symbols| ==> symbols[i] < alphabet
  {
    AgainstFits(Uniform(alphabet), symbols);
    BytesOf(Stream(Start(), [Uniform(alphabet)], Against(symbols)))
  }

  lemma {:induction false} AgainstFits(f: Freq, symbols: seq<nat>)
    requires f.Valid() && forall i :: 0 <= i < |symbols| ==> symbols[i] < |f.counts|
    ensures ValidBank([f]) && AllFit([f], Against(symbols))
    decreases |symbols|
  {
    if symbols != [] {
      AdaptValid(f, symbols[0]);
      AgainstFits(Adapt(f, symbols[0]), symbols[1..]);
      assert Against(symbols)[1..] == Against(symbols[1..]);
      assert AdaptBank([f], Against(symbols)[0]) == [Adapt(f, symbols[0])];
    }
  }

  /** The model either end holds after `symbols`. */
  function AdaptAll(f: Freq, symbols: seq<nat>): (r: Freq)
    requires f.Valid() && forall i :: 0 <= i < |symbols| ==> symbols[i] < |f.counts|
    ensures r.Valid()
    decreases |symbols|
  {
    if symbols == [] then f
    else
      AdaptValid(f, symbols[0]);
      AdaptAll(Adapt(f, symbols[0]), symbols[1..])
  }

  /** `DecodeSymbol` called `n` times. */
  function DecodeMany(input: seq<Byte>, d: Registers, f: Freq, n: nat): (r: seq<nat>)
    requires d.range >= TOP && f.Valid()
    ensures |r| == n
    decreases n
  {
    if n == 0 then []
    else
      var one := DecodeOne(input, d, f);
      [one.symbol] + DecodeMany(input, one.registers, one.freq, n - 1)
  }

  /** The model the decoder is left holding. */
  function ModelAfterDecoding(input: seq<Byte>, d: Registers, f: Freq, n: nat): Freq
    requires d.range >= TOP && f.Valid()
    decreases n
  {
    if n == 0 then f
    else
      var one := DecodeOne(input, d, f);
      ModelAfterDecoding(input, one.registers, one.freq, n - 1)
  }

  /** Where the decoder's registers are left. */
  function RegistersAfter(input: seq<Byte>, d: Registers, f: Freq, n: nat): (r: Registers)
    requires d.range >= TOP && f.Valid()
    ensures r.range >= TOP
    decreases n
  {
    if n == 0 then d
    else
      var one := DecodeOne(input, d, f);
      RegistersAfter(input, one.registers, one.freq, n - 1)
  }

  /** A decoder in step has read, after any symbols, as many bytes as their interval is long. */
  lemma {:induction false} ReadsUpTo(bytes: seq<Byte>, d: Registers, e: Exact, f: Freq, symbols: seq<nat>)
    requires e.Ready() && Tracks(bytes, d, e)
    requires f.Valid() && forall i :: 0 <= i < |symbols| ==> symbols[i] < |f.counts|
    requires ValidBank([f]) && AllFit([f], Against(symbols)) && Inside(bytes, Stream(e, [f], Against(symbols)))
    ensures RegistersAfter(bytes, d, f, |symbols|).position == Stream(e, [f], Against(symbols)).shifts + 4
    decreases |symbols|
  {
    hide DecodeOne;
    hide Encode;
    hide IntervalOf;
    hide Inside;
    hide Adapt;
    if symbols != [] {
      var cs := Against(symbols);
      OneModel(f, symbols);
      var iv := IntervalOf(f, symbols[0]);
      IntervalCodable(f, symbols[0]);
      var next := Encode(e, iv);
      StreamNested(bytes, next, [Adapt(f, symbols[0])], cs[1..]);
      SymbolFollows(bytes, d, e, f, symbols[0]);
      var one := DecodeOne(bytes, d, f);
      ReadsUpTo(bytes, one.registers, next, one.freq, symbols[1..]);
    } else {
      TracksPosition(bytes, d, e);
    }
  }

  lemma TracksPosition(bytes: seq<Byte>, d: Registers, e: Exact)
    requires Tracks(bytes, d, e)
    ensures d.position == e.shifts + 4
  {
  }

  lemma OneModel(f: Freq, symbols: seq<nat>)
    requires f.Valid() && symbols != [] && symbols[0] < |f.counts|
    ensures Against(symbols)[0] == Coded(0, symbols[0]) && Against(symbols)[1..] == Against(symbols[1..])
    ensures [f][0] == f && AdaptBank([f], Against(symbols)[0]) == [Adapt(f, symbols[0])]
  {
  }

  lemma ReadsFirst(bytes: seq<Byte>, d: Registers, f: Freq, symbols: seq<nat>)
    requires WillRead(bytes, d, [f], Against(symbols)) && symbols != []
    ensures f.Valid() && d.range >= TOP && symbols[0] < |f.counts|
    ensures var one := DecodeOne(bytes, d, f);
      one.symbol == symbols[0] && one.freq == Adapt(f, symbols[0]) &&
      WillRead(bytes, one.registers, [one.freq], Against(symbols[1..]))
  {
    var cs := Against(symbols);
    ReadsNext(bytes, d, [f], cs);
    FitsOne(f, symbols);
    OneModel(f, symbols);
    hide WillRead;
    hide DecodeOne;
    hide Adapt;
    hide AdaptBank;
    hide Against;
    var one := DecodeOne(bytes, d, f);
    assert [f][0 := one.freq] == [one.freq];
    assert [one.freq][0] == [Adapt(f, symbols[0])][0];
  }

  lemma FitsOne(f: Freq, symbols: seq<nat>)
    requires ValidBank([f]) && symbols != [] && Fits([f], Against(symbols)[0])
    ensures f.Valid() && [f][0] == f && symbols[0] < |f.counts| && Against(symbols) != [] && Against(symbols)[0] == Coded(0, symbols[0])
  {
    assert [f][0] == f;
  }

  lemma {:induction false} ReadsAll(bytes: seq<Byte>, d: Registers, f: Freq, symbols: seq<nat>)
    requires f.Valid() && forall i :: 0 <= i < |symbols| ==> symbols[i] < |f.counts|
    requires WillRead(bytes, d, [f], Against(symbols))
    ensures d.range >= TOP
    ensures DecodeMany(bytes, d, f, |symbols|) == symbols
    ensures ModelAfterDecoding(bytes, d, f, |symbols|) == AdaptAll(f, symbols)
    decreases |symbols|
  {
    hide DecodeOne;
    hide WillRead;
    hide Adapt;
    hide Against;
    WillReadReady(bytes, d, [f], Against(symbols));
    if symbols != [] {
      ReadsFirst(bytes, d, f, symbols);
      var one := DecodeOne(bytes, d, f);
      ReadsAll(bytes, one.registers, one.freq, symbols[1..]);
      assert symbols == [symbols[0]] + symbols[1..];
    }
  }

  /**
   * The round trip: any symbols over any alphabet come back exactly, the decoder
   * ends up holding the encoder's model, whatever carries occurred, and it has
   * read exactly the bytes there were.
   */
  lemma RoundTrip(alphabet: nat, symbols: seq<nat>)
    requires 1 <= alphabet <= MAX_SYMBOLS && forall i :: 0 <= i < |symbols| ==> symbols[i] < alphabet
    ensures var bytes := EncodedBytes(alphabet, symbols);
      DecodeMany(bytes, Boot(bytes), Uniform(alphabet), |symbols|) == symbols &&
      ModelAfterDecoding(bytes, Boot(bytes), Uniform(alphabet), |symbols|) == AdaptAll(Uniform(alphabet), symbols) &&
      RegistersAfter(bytes, Boot(bytes), Uniform(alphabet), |symbols|).position == |bytes|
  {
    var f := Uniform(alphabet);
    AgainstFits(f, symbols);
    FreshDecoderWillRead([f], Against(symbols));
    var bytes := EncodedBytes(alphabet, symbols);
    ReadsAll(bytes, Boot(bytes), f, symbols);
    ReadsEverything(f, symbols);
  }

  lemma OwnEnd(e: Exact)
    requires e.Ready() && e.range > 0
    ensures |BytesOf(e)| == e.shifts + 4 && Inside(BytesOf(e), e)
  {
    assert BytesOf(e)[..e.shifts + 4] == BytesOf(e);
  }

  /** A whole stream, read to its last byte and no further. */
  lemma ReadsEverything(f: Freq, symbols: seq<nat>)
    requires f.Valid() && forall i :: 0 <= i < |symbols| ==> symbols[i] < |f.counts|
    requires ValidBank([f]) && AllFit([f], Against(symbols))
    ensures var bytes := BytesOf(Stream(Start(), [f], Against(symbols)));
      RegistersAfter(bytes, Boot(bytes), f, |symbols|).position == |bytes|
  {
    hide Boot;
    hide Tracks;
    hide Stream;
    hide AllFit;
    hide RegistersAfter;
    hide Number;
    var last := Stream(Start(), [f], Against(symbols));
    var bytes := BytesOf(last);
    OwnEnd(last);
    hide BytesOf;
    StreamNested(bytes, Start(), [f], Against(symbols));
    BootTracks(bytes);
    hide Inside;
    ReadsUpTo(bytes, Boot(bytes), Start(), f, symbols);
  }

  // --- the same, on the coder objects ---

  method EncodeSymbols(encoder: RangeEncoder, model: Model, symbols: seq<nat>)
    requires encoder.Valid() && model.Valid()
    requires forall i :: 0 <= i < |symbols| ==> symbols[i] < |model.counts|
    modifies encoder, model
    ensures encoder.Valid() && model.Valid()
    ensures ValidBank([old(model.State())]) && AllFit([old(model.State())], Against(symbols))
    ensures encoder.Abs() == Stream(old(encoder.Abs()), [old(model.State())], Against(symbols))
    ensures model.State() == AdaptAll(old(model.State()), symbols)
    decreases |symbols|
  {
    hide Adapt;
    AgainstFits(model.State(), symbols);
    if symbols != [] {
      ghost var was := model.State();
      EncodeSymbol(encoder, model, symbols[0]);
      OneModel(was, symbols);
      EncodeSymbols(encoder, model, symbols[1..]);
    }
  }

  method DecodeSymbols(decoder: RangeDecoder, model: Model, n: nat) returns (symbols: seq<nat>)
    requires decoder.Valid() && model.Valid()
    modifies decoder, model
    ensures decoder.Valid() && model.Valid()
    ensures symbols == DecodeMany(decoder.input, old(decoder.State()), old(model.State()), n)
    ensures model.State() == ModelAfterDecoding(decoder.input, old(decoder.State()), old(model.State()), n)
    ensures decoder.State() == RegistersAfter(decoder.input, old(decoder.State()), old(model.State()), n)
    decreases n
  {
    hide DecodeOne;
    symbols := [];
    if n > 0 {
      var symbol := DecodeSymbol(decoder, model);
      var rest := DecodeSymbols(decoder, model, n - 1);
      symbols := [symbol] + rest;
    }
  }

  /**
   * Whatever `EncodeSymbol` and `Finish` wrote, `DecodeSymbol` reads back, to
   * the last byte, and the two model objects end with the same counts.
   */
  method RoundTripThroughObjects(alphabet: nat, symbols: seq<nat>)
    returns (bytes: seq<Byte>, decoded: seq<nat>, sent: seq<nat>, heard: seq<nat>, consumed: nat)
    requires 1 <= alphabet <= MAX_SYMBOLS && forall i :: 0 <= i < |symbols| ==> symbols[i] < alphabet
    ensures bytes == EncodedBytes(alphabet, symbols)
    ensures decoded == symbols
    ensures sent == heard == AdaptAll(Uniform(alphabet), symbols).counts
    ensures consumed == |bytes|
  {
    hide DecodeMany;
    hide ModelAfterDecoding;
    hide RegistersAfter;
    hide AdaptAll;
    hide Stream;
    hide Boot;
    var encoder := new RangeEncoder();
    var model := new Model(alphabet);
    EncodeSymbols(encoder, model, symbols);
    bytes := encoder.Finish();
    sent := model.counts;

    var decoder := new RangeDecoder(bytes);
    model := new Model(alphabet);
    decoded := DecodeSymbols(decoder, model, |symbols|);
    heard := model.counts;
    consumed := decoder.position;
    RoundTrip(alphabet, symbols);
  }
}
