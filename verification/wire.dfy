/** One layered frame as a byte string: a count, LEB128 lengths, and the layers end to end. */
module Wire {
  import opened Bytes
  import opened Common

  const LAYERS := 4
  const LEB_LIMIT := 0x1000_0000

  datatype LayeredFrame = LayeredFrame(base: seq<Byte>, refinements: seq<seq<Byte>>) {
    function Layers(): (l: seq<seq<Byte>>)
      ensures |l| == 1 + |refinements|
    {
      [base] + refinements
    }

    /** The frame with only its first `keep` refinements. */
    function Truncated(keep: nat): (f: LayeredFrame)
      ensures f.base == base
      ensures keep <= |refinements| ==> f.refinements == refinements[..keep]
      ensures keep >= |refinements| ==> f == this
    {
      if keep < |refinements| then LayeredFrame(base, refinements[..keep]) else this
    }
  }

  /** Without trailing empty refinements; the base always stays. */
  function Trim(layers: seq<seq<Byte>>): (t: seq<seq<Byte>>)
    requires |layers| >= 1
    ensures 1 <= |t| <= |layers| && t == layers[..|t|]
    ensures |t| > 1 ==> t[|t| - 1] != []
    ensures forall i :: |t| <= i < |layers| ==> layers[i] == []
  {
    if |layers| > 1 && layers[|layers| - 1] == [] then Trim(layers[..|layers| - 1]) else layers
  }

  function Leb(n: nat): (s: seq<Byte>)
    ensures |s| >= 1
  {
    if n < 128 then [n] else [n % 128 + 128] + Leb(n / 128)
  }

  function Headers(layers: seq<seq<Byte>>): seq<Byte> {
    if layers == [] then [] else Leb(|layers[0]|) + Headers(layers[1..])
  }

  function Body(layers: seq<seq<Byte>>): seq<Byte> {
    if layers == [] then [] else layers[0] + Body(layers[1..])
  }

  function Encoding(layers: seq<seq<Byte>>): seq<Byte>
    requires |layers| >= 1
  {
    [|layers| % 256] + Headers(layers[..|layers| - 1]) + Body(layers)
  }

  function ToBytes(f: LayeredFrame): seq<Byte> {
    Encoding(Trim(f.Layers()))
  }

  // --- reading ---

  /** What a bit of byte `k` of a length weighs: 2^(7k). */
  function Place(k: nat): (p: nat)
    requires k <= 3
    ensures p > 0
  {
    if k == 0 then 1 else if k == 1 then 0x80 else if k == 2 then 0x4000 else 0x20_0000
  }

  /** Seven bits of a length, in their place. */
  function Weigh(digits: nat, k: nat): (w: nat)
    requires k <= 3
  {
    digits * Place(k)
  }

  /** What is left of a length after `k` bytes must be below this for it to fit in four. */
  function Limit(k: nat): nat {
    if k == 0 then 0x1000_0000 else if k == 1 then 0x20_0000 else if k == 2 then 0x4000 else if k == 3 then 0x80 else 1
  }

  /** A length whose first `k` bytes made `value`, and where it ends. A fifth byte is refused. */
  function ReadLeb(bytes: seq<Byte>, at: nat, k: nat, value: nat): (r: Option<(nat, nat)>)
    requires at <= |bytes|
    ensures r.Some? ==> at < r.value.1 <= |bytes|
    decreases |bytes| - at
  {
    if at == |bytes| || k > 3 then None
    else
      var value' := value + Weigh(bytes[at] % 128, k);
      if bytes[at] < 128 then Some((value', at + 1))
      else ReadLeb(bytes, at + 1, k + 1, value')
  }

  function ReadLengths(bytes: seq<Byte>, at: nat, n: nat): (r: Option<(seq<nat>, nat)>)
    requires at <= |bytes|
    ensures r.Some? ==> |r.value.0| == n && at <= r.value.1 <= |bytes|
    decreases n
  {
    if n == 0 then Some(([], at))
    else
      var one := ReadLeb(bytes, at, 0, 0);
      if one.None? then None
      else
        var rest := ReadLengths(bytes, one.value.1, n - 1);
        if rest.None? then None else Some(([one.value.0] + rest.value.0, rest.value.1))
  }

  function Total(lengths: seq<nat>): nat {
    if lengths == [] then 0 else lengths[0] + Total(lengths[1..])
  }

  /** Cut `body` into layers of the given lengths, and whatever is left. */
  function Cut(body: seq<Byte>, lengths: seq<nat>): (layers: seq<seq<Byte>>)
    requires Total(lengths) <= |body|
    ensures |layers| == |lengths| + 1
    ensures Body(layers) == body
  {
    if lengths == [] then
      assert [body][1..] == [];
      [body]
    else
      var rest := Cut(body[lengths[0]..], lengths[1..]);
      assert ([body[..lengths[0]]] + rest)[1..] == rest;
      [body[..lengths[0]]] + rest
  }

  /** Every length is checked against what is there; on success the layers are exactly the body. */
  function FromBytes(bytes: seq<Byte>): (r: Result<LayeredFrame>)
    ensures r.Ok? ==>
      |bytes| > 0 && 1 <= bytes[0] <= 4 && |r.value.refinements| == bytes[0] - 1 &&
      exists at :: 1 <= at <= |bytes| && Body(r.value.Layers()) == bytes[at..]
  {
    if bytes == [] || bytes[0] == 0 || bytes[0] > LAYERS then Err(Malformed)
    else
      var lengths := ReadLengths(bytes, 1, bytes[0] - 1);
      if lengths.None? then Err(Malformed)
      else
        var body := bytes[lengths.value.1..];
        if Total(lengths.value.0) > |body| then Err(Malformed)
        else
          var layers := Cut(body, lengths.value.0);
          assert [layers[0]] + layers[1..] == layers;
          Ok(LayeredFrame(layers[0], layers[1..]))
  }

  // --- reading undoes writing ---

  /** LEB128 reads back exactly, and only, below 2^28. */
  lemma {:induction false} LebRoundTrip(bytes: seq<Byte>, at: nat, k: nat, value: nat, n: nat)
    requires k <= 4 && (k == 0 || n > 0)
    requires at + |Leb(n)| <= |bytes| && bytes[at..at + |Leb(n)|] == Leb(n)
    ensures ReadLeb(bytes, at, k, value)
         == var total: nat, end: nat := if k <= 3 then value + Weigh(n, k) else 0, at + |Leb(n)|;
            if k <= 3 && n < Limit(k) then Some((total, end)) else None
    decreases n
  {
    hide Weigh;
    hide Limit;
    LebByte(bytes, at, n);
    if k <= 3 {
      Carry(n, k);
      if n >= 128 {
        LebRoundTrip(bytes, at + 1, k + 1, value + Weigh(n % 128, k), n / 128);
        ReadMore(bytes, at, k, value);
      } else {
        ReadLast(bytes, at, k, value);
      }
    }
  }

  /** The first byte of a length, and where the rest of it stands. */
  lemma LebByte(bytes: seq<Byte>, at: nat, n: nat)
    requires at + |Leb(n)| <= |bytes| && bytes[at..at + |Leb(n)|] == Leb(n)
    ensures n < 128 ==> bytes[at] == n && |Leb(n)| == 1
    ensures n >= 128 ==>
      bytes[at] == n % 128 + 128 && |Leb(n)| == 1 + |Leb(n / 128)| &&
      bytes[at + 1..at + 1 + |Leb(n / 128)|] == Leb(n / 128)
  {
    assert bytes[at] == Leb(n)[0];
    if n >= 128 {
      assert bytes[at + 1..at + 1 + |Leb(n / 128)|] == bytes[at..at + |Leb(n)|][1..];
    }
  }

  lemma ReadMore(bytes: seq<Byte>, at: nat, k: nat, value: nat)
    requires at < |bytes| && k <= 3 && bytes[at] >= 128
    ensures ReadLeb(bytes, at, k, value) == ReadLeb(bytes, at + 1, k + 1, value + Weigh(bytes[at] % 128, k))
  {
    hide Weigh;
  }

  lemma ReadLast(bytes: seq<Byte>, at: nat, k: nat, value: nat)
    requires at < |bytes| && k <= 3 && bytes[at] < 128
    ensures ReadLeb(bytes, at, k, value) == Some((value + Weigh(bytes[at] % 128, k), at + 1))
  {
    hide Weigh;
  }

  lemma Carry(n: nat, k: nat)
    requires k <= 3
    ensures k < 3 ==> Weigh(n % 128, k) + Weigh(n / 128, k + 1) == Weigh(n, k)
    ensures n >= 128 ==> (n < Limit(k) <==> k < 3 && n / 128 < Limit(k + 1))
    ensures n < 128 ==> n < Limit(k) && n % 128 == n
    ensures (n % 128 + 128) % 128 == n % 128
  {
    assert n == n / 128 * 128 + n % 128;
  }

  ghost predicate Starts(bytes: seq<Byte>, at: nat, part: seq<Byte>) {
    at + |part| <= |bytes| && bytes[at..at + |part|] == part
  }

  lemma StartsSplit(bytes: seq<Byte>, at: nat, a: seq<Byte>, b: seq<Byte>)
    requires Starts(bytes, at, a + b)
    ensures Starts(bytes, at, a) && Starts(bytes, at + |a|, b)
  {
    assert bytes[at..at + |a|] == bytes[at..at + |a + b|][..|a|];
    assert bytes[at + |a|..at + |a| + |b|] == bytes[at..at + |a + b|][|a|..];
  }

  ghost predicate Short(layers: seq<seq<Byte>>) {
    forall i :: 0 <= i < |layers| ==> |layers[i]| < LEB_LIMIT
  }

  function Lengths(layers: seq<seq<Byte>>): (r: seq<nat>)
    ensures |r| == |layers|
  {
    if layers == [] then [] else [|layers[0]|] + Lengths(layers[1..])
  }

  lemma {:induction false} HeadersRoundTrip(bytes: seq<Byte>, at: nat, layers: seq<seq<Byte>>)
    requires Starts(bytes, at, Headers(layers))
    ensures ReadLengths(bytes, at, |layers|)
         == var end: nat := at + |Headers(layers)|;
            if Short(layers) then Some((Lengths(layers), end)) else None
    decreases |layers|
  {
    hide Leb;
    hide ReadLeb;
    if layers != [] {
      StartsSplit(bytes, at, Leb(|layers[0]|), Headers(layers[1..]));
      LengthRoundTrip(bytes, at, |layers[0]|);
      hide Short;
      HeadersRoundTrip(bytes, at + |Leb(|layers[0]|)|, layers[1..]);
      ShortSplit(layers);
    }
  }

  /** A length at the front of a header. */
  lemma LengthRoundTrip(bytes: seq<Byte>, at: nat, n: nat)
    requires Starts(bytes, at, Leb(n))
    ensures at <= |bytes|
    ensures ReadLeb(bytes, at, 0, 0) == var end: nat := at + |Leb(n)|; if n < LEB_LIMIT then Some((n, end)) else None
  {
    LebRoundTrip(bytes, at, 0, 0, n);
  }

  lemma ShortSplit(layers: seq<seq<Byte>>)
    requires layers != []
    ensures Short(layers) <==> |layers[0]| < LEB_LIMIT && Short(layers[1..])
  {
    assert forall i :: 1 <= i < |layers| ==> layers[i] == layers[1..][i - 1];
  }

  lemma {:induction false} CutRoundTrip(layers: seq<seq<Byte>>)
    requires |layers| >= 1
    ensures Total(Lengths(layers[..|layers| - 1])) <= |Body(layers)|
    ensures Cut(Body(layers), Lengths(layers[..|layers| - 1])) == layers
    decreases |layers|
  {
    if |layers| == 1 {
      assert layers[1..] == [];
      assert Body(layers) == layers[0];
    } else {
      var front := layers[..|layers| - 1];
      CutRoundTrip(layers[1..]);
      assert layers[1..][..|layers| - 2] == front[1..];
      assert Lengths(front) == [|layers[0]|] + Lengths(front[1..]);
      assert Body(layers)[|layers[0]|..] == Body(layers[1..]);
      assert layers == [layers[0]] + layers[1..];
    }
  }

  /** What arrives: the frame without its trailing empty refinements. */
  function Trimmed(f: LayeredFrame): (t: LayeredFrame)
    ensures t.Layers() == Trim(f.Layers())
    ensures t.base == f.base
  {
    var layers := Trim(f.Layers());
    assert [layers[0]] + layers[1..] == layers;
    LayeredFrame(f.base, layers[1..])
  }

  /** A frame the format can carry: four layers at most, and short enough to be length-prefixed. */
  ghost predicate Carriable(f: LayeredFrame) {
    var layers := Trim(f.Layers());
    |layers| <= LAYERS && Short(layers[..|layers| - 1])
  }

  lemma ParseOfEncoding(f: LayeredFrame)
    requires |Trim(f.Layers())| < 256
    ensures FromBytes(ToBytes(f)) == if Carriable(f) then Ok(Trimmed(f)) else Err(Malformed)
  {
    hide Trim;
    hide Headers;
    hide Body;
    hide ReadLengths;
    hide Cut;
    hide Lengths;
    var layers := Trim(f.Layers());
    var front := layers[..|layers| - 1];
    var bytes := ToBytes(f);
    assert bytes[0] == |layers|;
    if |layers| <= LAYERS {
      var at := 1 + |Headers(front)|;
      assert Starts(bytes, 1, Headers(front));
      HeadersRoundTrip(bytes, 1, front);
      CutRoundTrip(layers);
      assert bytes[at..] == Body(layers);
    }
  }

  /** The wire carries a frame exactly when the format has room for it. */
  lemma WireRoundTrip(f: LayeredFrame)
    ensures FromBytes(ToBytes(f)) == Ok(Trimmed(f)) <==> Carriable(f)
    ensures |Trim(f.Layers())| < 256 && !Carriable(f) ==> FromBytes(ToBytes(f)) == Err(Malformed)
    ensures var layers := Trim(f.Layers());
      Carriable(f) <==> |layers| <= 4 && forall i :: 0 <= i < |layers| - 1 ==> |layers[i]| < 0x1000_0000
  {
    CarriableIs(f);
    hide Carriable;
    hide Trim;
    if |Trim(f.Layers())| < 256 {
      hide FromBytes;
      hide ToBytes;
      ParseOfEncoding(f);
    } else {
      assert |Trimmed(f).Layers()| >= 256;
    }
  }

  lemma CarriableIs(f: LayeredFrame)
    ensures var layers := Trim(f.Layers());
      Carriable(f) <==> |layers| <= 4 && forall i :: 0 <= i < |layers| - 1 ==> |layers[i]| < 0x1000_0000
  {
    hide Trim;
  }

  // --- whatever parses, re-encodes ---

  /** A length read in `end - at` bytes needs no more than that to write. */
  lemma {:induction false} LebNeedsNoMore(bytes: seq<Byte>, at: nat, k: nat, value: nat) returns (n: nat)
    requires at <= |bytes| && k <= 3 && ReadLeb(bytes, at, k, value).Some?
    ensures ReadLeb(bytes, at, k, value).value.0 == value + Weigh(n, k)
    ensures n < Limit(k) && |Leb(n)| <= ReadLeb(bytes, at, k, value).value.1 - at
    decreases |bytes| - at
  {
    hide Weigh;
    hide Limit;
    var low := bytes[at] % 128;
    n := low;
    if bytes[at] >= 128 {
      ReadMore(bytes, at, k, value);
      NoFifthByte(bytes, at + 1, k + 1, value + Weigh(low, k));
      var rest := LebNeedsNoMore(bytes, at + 1, k + 1, value + Weigh(low, k));
      n := low + 128 * rest;
      Recombined(low, rest);
      Carry(n, k);
      LimitGrows(low, rest, k);
      LebLonger(low, rest);
    } else {
      ReadLast(bytes, at, k, value);
      Carry(n, k);
    }
  }

  lemma NoFifthByte(bytes: seq<Byte>, at: nat, k: nat, value: nat)
    requires at <= |bytes| && ReadLeb(bytes, at, k, value).Some?
    ensures k <= 3
  {
    hide Weigh;
  }

  lemma Recombined(low: nat, rest: nat)
    requires low < 128
    ensures (low + 128 * rest) % 128 == low && (low + 128 * rest) / 128 == rest
  {
  }

  lemma LimitGrows(low: nat, rest: nat, k: nat)
    requires low < 128 && k < 3 && rest < Limit(k + 1)
    ensures low + 128 * rest < Limit(k)
  {
  }

  lemma LebLonger(low: nat, rest: nat)
    requires low < 128
    ensures |Leb(low + 128 * rest)| <= 1 + |Leb(rest)|
  {
    Recombined(low, rest);
  }

  lemma LengthNeedsNoMore(bytes: seq<Byte>, at: nat) returns (n: nat)
    requires at <= |bytes| && ReadLeb(bytes, at, 0, 0).Some?
    ensures ReadLeb(bytes, at, 0, 0).value.0 == n < LEB_LIMIT
    ensures |Leb(n)| <= ReadLeb(bytes, at, 0, 0).value.1 - at
  {
    n := LebNeedsNoMore(bytes, at, 0, 0);
  }

  lemma {:induction false} HeadersNeedNoMore(bytes: seq<Byte>, at: nat, layers: seq<seq<Byte>>)
    requires at <= |bytes| && ReadLengths(bytes, at, |layers|).Some?
    requires ReadLengths(bytes, at, |layers|).value.0 == Lengths(layers)
    ensures Short(layers)
    ensures |Headers(layers)| <= ReadLengths(bytes, at, |layers|).value.1 - at
    decreases |layers|
  {
    hide Leb;
    hide ReadLeb;
    if layers != [] {
      var one := ReadLeb(bytes, at, 0, 0).value;
      var n := LengthNeedsNoMore(bytes, at);
      hide Short;
      assert Lengths(layers)[0] == |layers[0]| && Lengths(layers)[1..] == Lengths(layers[1..]);
      HeadersNeedNoMore(bytes, one.1, layers[1..]);
      ShortSplit(layers);
    }
  }

  lemma {:induction false} LengthsOfCut(body: seq<Byte>, lengths: seq<nat>)
    requires Total(lengths) <= |body|
    ensures Lengths(Cut(body, lengths)[..|lengths|]) == lengths
  {
    if lengths != [] {
      LengthsOfCut(body[lengths[0]..], lengths[1..]);
      var layers := Cut(body, lengths);
      assert layers[..|lengths|][1..] == layers[1..][..|lengths| - 1];
    }
  }

  /** The layers cut from some bytes would take no more bytes to write again. */
  lemma ParsedLayers(bytes: seq<Byte>)
    requires FromBytes(bytes).Ok?
    ensures var layers := FromBytes(bytes).value.Layers();
      |layers| <= LAYERS && Short(layers[..|layers| - 1]) && |Encoding(layers)| <= |bytes|
  {
    hide ReadLengths;
    hide Cut;
    hide Lengths;
    hide Headers;
    hide Body;
    hide Short;
    var read := ReadLengths(bytes, 1, bytes[0] - 1).value;
    var layers := Cut(bytes[read.1..], read.0);
    assert FromBytes(bytes).value.Layers() == layers;
    LengthsOfCut(bytes[read.1..], read.0);
    HeadersNeedNoMore(bytes, 1, layers[..|layers| - 1]);
  }

  lemma TrimStaysShort(layers: seq<seq<Byte>>)
    requires |layers| >= 1 && Short(layers[..|layers| - 1])
    ensures var kept := Trim(layers);
      Short(kept[..|kept| - 1])
  {
    hide Trim;
    var kept := Trim(layers);
    assert kept[..|kept| - 1] == layers[..|layers| - 1][..|kept| - 1];
  }

  /** Any bytes that parse at all give a frame the format can carry, in no more bytes. */
  lemma ParsedIsCarriable(bytes: seq<Byte>)
    requires FromBytes(bytes).Ok?
    ensures Carriable(FromBytes(bytes).value)
    ensures FromBytes(ToBytes(FromBytes(bytes).value)) == Ok(Trimmed(FromBytes(bytes).value))
    ensures |ToBytes(FromBytes(bytes).value)| <= |bytes|
  {
    ParsedLayers(bytes);
    var f := FromBytes(bytes).value;
    hide FromBytes;
    hide Trim;
    hide Short;
    hide Encoding;
    TrimStaysShort(f.Layers());
    ParseOfEncoding(f);
    EncodingGrows(f.Layers(), []);
  }

  // --- fitting a budget ---

  function Size(f: LayeredFrame): nat {
    |ToBytes(f)|
  }

  lemma {:induction false} HeadersAppend(layers: seq<seq<Byte>>, l: seq<Byte>)
    ensures Headers(layers + [l]) == Headers(layers) + Leb(|l|)
  {
    hide Leb;
    if layers == [] {
      assert [l][1..] == [];
    } else {
      HeadersAppend(layers[1..], l);
      assert (layers + [l])[0] == layers[0] && (layers + [l])[1..] == layers[1..] + [l];
      Assoc(Leb(|layers[0]|), Headers(layers[1..]), Leb(|l|));
    }
  }

  lemma {:induction false} BodyAppend(layers: seq<seq<Byte>>, l: seq<Byte>)
    ensures Body(layers + [l]) == Body(layers) + l
  {
    if layers == [] {
      assert [l][1..] == [];
      assert Body([l]) == l;
    } else {
      BodyAppend(layers[1..], l);
      assert (layers + [l])[0] == layers[0] && (layers + [l])[1..] == layers[1..] + [l];
      Assoc(layers[0], Body(layers[1..]), l);
    }
  }

  /** Adding a layer never shrinks the encoding. */
  lemma EncodingGrows(layers: seq<seq<Byte>>, l: seq<Byte>)
    requires |layers| >= 1
    ensures |Encoding(Trim(layers))| <= |Encoding(layers)|
    ensures |Encoding(layers)| + 1 + |l| <= |Encoding(layers + [l])|
    decreases |layers|
  {
    var n := |layers|;
    assert (layers + [l])[..n] == layers;
    assert layers == layers[..n - 1] + [layers[n - 1]];
    HeadersAppend(layers[..n - 1], layers[n - 1]);
    BodyAppend(layers, l);
    if n > 1 && layers[n - 1] == [] {
      EncodingGrows(layers[..n - 1], layers[n - 1]);
    }
  }

  lemma SizeStep(f: LayeredFrame, keep: nat)
    requires keep < |f.refinements|
    ensures Size(f.Truncated(keep)) <= Size(f.Truncated(keep + 1))
  {
    var shorter, longer := f.Truncated(keep).Layers(), f.Truncated(keep + 1).Layers();
    var l := f.refinements[keep];
    assert longer == shorter + [l];
    if l == [] {
      assert longer[..|longer| - 1] == shorter;
    } else {
      EncodingGrows(shorter, l);
    }
  }

  /** Encoded size never decreases with the layers kept. */
  lemma {:induction false} SizeMonotone(f: LayeredFrame, a: nat, b: nat)
    requires a <= b
    ensures Size(f.Truncated(a)) <= Size(f.Truncated(b))
    decreases b - a
  {
    hide Size;
    if a < b {
      SizeMonotone(f, a, b - 1);
      if b - 1 < |f.refinements| {
        SizeStep(f, b - 1);
      }
    }
  }

  /** How many refinements a budget buys. */
  function Keep(f: LayeredFrame, budget: nat, from: nat): (keep: nat)
    ensures keep <= from
  {
    if from == 0 || Size(f.Truncated(from)) <= budget then from else Keep(f, budget, from - 1)
  }

  /** What is kept fits or is none, and one more would not have fitted, nor any number more. */
  ghost predicate AsManyAsFit(f: LayeredFrame, budget: nat, keep: nat) {
    (keep > 0 ==> Size(f.Truncated(keep)) <= budget) &&
    forall k :: keep < k <= |f.refinements| ==> Size(f.Truncated(k)) > budget
  }

  /** The longest prefix that fits, or none: what fits fits no further, and nothing longer does. */
  lemma {:induction false} KeepIsLongest(f: LayeredFrame, budget: nat, from: nat)
    ensures var keep := Keep(f, budget, from);
      (keep > 0 ==> Size(f.Truncated(keep)) <= budget) &&
      forall k :: keep < k <= from ==> Size(f.Truncated(k)) > budget
  {
    hide Size;
    hide LayeredFrame.Truncated;
    if !(from == 0 || Size(f.Truncated(from)) <= budget) {
      KeepIsLongest(f, budget, from - 1);
    }
  }

  lemma KeepFits(f: LayeredFrame, budget: nat)
    ensures AsManyAsFit(f, budget, Keep(f, budget, |f.refinements|))
  {
    hide Size;
    KeepIsLongest(f, budget, |f.refinements|);
  }

  /** The most layers that fit; the base always, even when it does not. */
  method Within(f: LayeredFrame, budget: nat) returns (r: LayeredFrame)
    ensures r == f.Truncated(Keep(f, budget, |f.refinements|))
    ensures |r.refinements| == Keep(f, budget, |f.refinements|)
    ensures r == f.Truncated(|r.refinements|) && AsManyAsFit(f, budget, |r.refinements|)
  {
    hide ToBytes;
    KeepFits(f, budget);
    hide AsManyAsFit;
    var keep: nat := |f.refinements|;
    while keep > 0
      invariant keep <= |f.refinements|
      invariant Keep(f, budget, |f.refinements|) == Keep(f, budget, keep)
    {
      var candidate := f.Truncated(keep);
      var bytes := WriteFrame(candidate);
      if |bytes| <= budget {
        return candidate;
      }
      keep := keep - 1;
    }
    r := f.Truncated(0);
  }

  /** A smaller budget keeps no more layers, and never sends a larger frame. */
  lemma BudgetMonotone(f: LayeredFrame, small: nat, large: nat)
    requires small <= large
    ensures var n := |f.refinements|;
      Keep(f, small, n) <= Keep(f, large, n) &&
      Size(f.Truncated(Keep(f, small, n))) <= Size(f.Truncated(Keep(f, large, n)))
  {
    hide Size;
    hide Keep;
    var n := |f.refinements|;
    var a, b := Keep(f, small, n), Keep(f, large, n);
    KeepIsLongest(f, small, n);
    KeepIsLongest(f, large, n);
    if a <= b {
      SizeMonotone(f, a, b);
    } else {
      assert false;
    }
  }

  /** A frame cut to a budget fits it whenever its base alone does. */
  lemma WithinFits(f: LayeredFrame, budget: nat)
    ensures Size(f.Truncated(Keep(f, budget, |f.refinements|))) <= budget <==> Size(f.Truncated(0)) <= budget
  {
    hide Size;
    hide Keep;
    KeepIsLongest(f, budget, |f.refinements|);
    SizeMonotone(f, 0, Keep(f, budget, |f.refinements|));
  }

  // --- the methods ---

  method WriteLeb(length: nat, out: seq<Byte>) returns (r: seq<Byte>)
    ensures r == out + Leb(length)
  {
    r := out;
    var n: nat := length;
    while true
      invariant out + Leb(length) == r + Leb(n)
      decreases n
    {
      var byte := n % 128;
      n := n / 128;
      if n == 0 {
        r := r + [byte];
        break;
      }
      r := r + [byte + 128];
    }
  }

  method WriteFrame(f: LayeredFrame) returns (out: seq<Byte>)
    ensures out == ToBytes(f)
  {
    hide *;
    var layers := f.Layers();
    while |layers| > 1 && layers[|layers| - 1] == []
      invariant |layers| >= 1 && Trim(layers) == Trim(f.Layers())
    {
      TrimDrops(layers);
      layers := layers[..|layers| - 1];
    }
    TrimStops(layers);
    out := [|layers| % 256];
    NothingHeaded(layers);
    for i := 0 to |layers| - 1
      invariant HeadedUpTo(out, layers, i)
    {
      HeaderNext(out, layers, i);
      out := WriteLeb(|layers[i]|, out);
    }
    FrameWritten(out, f, layers);
    out := AppendLayers(out, layers);
  }

  lemma TrimDrops(layers: seq<seq<Byte>>)
    requires |layers| > 1 && layers[|layers| - 1] == []
    ensures Trim(layers[..|layers| - 1]) == Trim(layers)
  {
  }

  lemma TrimStops(layers: seq<seq<Byte>>)
    requires |layers| == 1 || (|layers| > 1 && layers[|layers| - 1] != [])
    ensures Trim(layers) == layers
  {
  }

  /** The count and the lengths of the first `i` layers are out. */
  ghost predicate HeadedUpTo(out: seq<Byte>, layers: seq<seq<Byte>>, i: nat) {
    i <= |layers| && out == [|layers| % 256] + Headers(layers[..i])
  }

  lemma NothingHeaded(layers: seq<seq<Byte>>)
    ensures HeadedUpTo([|layers| % 256], layers, 0)
  {
  }

  lemma HeaderNext(out: seq<Byte>, layers: seq<seq<Byte>>, i: nat)
    requires i < |layers| && HeadedUpTo(out, layers, i)
    ensures HeadedUpTo(out + Leb(|layers[i]|), layers, i + 1)
  {
    hide Leb;
    HeadersAppend(layers[..i], layers[i]);
    assert layers[..i + 1] == layers[..i] + [layers[i]];
  }

  lemma FrameWritten(out: seq<Byte>, f: LayeredFrame, layers: seq<seq<Byte>>)
    requires layers != [] && layers == Trim(f.Layers()) && HeadedUpTo(out, layers, |layers| - 1)
    ensures out + Body(layers) == ToBytes(f)
  {
    hide Headers;
    hide Body;
  }

  method AppendLayers(head: seq<Byte>, layers: seq<seq<Byte>>) returns (out: seq<Byte>)
    ensures out == head + Body(layers)
  {
    out := head;
    for i := 0 to |layers|
      invariant out == head + Body(layers[..i])
    {
      out := out + layers[i];
      BodyAppend(layers[..i], layers[i]);
      assert layers[..i + 1] == layers[..i] + [layers[i]];
    }
    assert layers[..|layers|] == layers;
  }

  method ParseLeb(bytes: seq<Byte>, start: nat) returns (r: Option<(nat, nat)>)
    requires start <= |bytes|
    ensures r == ReadLeb(bytes, start, 0, 0)
  {
    var at, value, shift := start, 0, 0;
    while true
      invariant start <= at <= |bytes| && shift % 7 == 0 && 0 <= shift <= 28 && value >= 0
      invariant ReadLeb(bytes, start, 0, 0) == ReadLeb(bytes, at, shift / 7, value)
      decreases |bytes| - at
    {
      if at == |bytes| {
        return None;
      }
      var byte := bytes[at];
      at := at + 1;
      if shift > 21 {
        return None;
      }
      value := value + Weigh(byte % 128, shift / 7);
      shift := shift + 7;
      if byte < 128 {
        return Some((value, at));
      }
    }
  }

  ghost function LengthsFrom(done: seq<nat>, rest: Option<(seq<nat>, nat)>): Option<(seq<nat>, nat)> {
    if rest.None? then None else Some((done + rest.value.0, rest.value.1))
  }

  method ParseLengths(bytes: seq<Byte>, start: nat, n: nat) returns (r: Option<(seq<nat>, nat)>)
    requires start <= |bytes|
    ensures r == ReadLengths(bytes, start, n)
  {
    hide ReadLeb;
    var at := start;
    var lengths: seq<nat> := [];
    if ReadLengths(bytes, start, n).Some? {
      assert [] + ReadLengths(bytes, start, n).value.0 == ReadLengths(bytes, start, n).value.0;
    }
    for i := 0 to n
      invariant start <= at <= |bytes| && |lengths| == i
      invariant LengthsFrom(lengths, ReadLengths(bytes, at, n - i)) == ReadLengths(bytes, start, n)
    {
      var one := ParseLeb(bytes, at);
      if one.None? {
        return None;
      }
      ghost var rest := ReadLengths(bytes, one.value.1, n - i - 1);
      if rest.Some? {
        assert lengths + ([one.value.0] + rest.value.0) == (lengths + [one.value.0]) + rest.value.0;
      }
      lengths := lengths + [one.value.0];
      at := one.value.1;
    }
    r := Some((lengths, at));
    assert lengths + [] == lengths;
  }

  method CutLayers(bytes: seq<Byte>, start: nat, lengths: seq<nat>) returns (layers: seq<seq<Byte>>)
    requires start <= |bytes| && Total(lengths) <= |bytes| - start
    ensures layers == Cut(bytes[start..], lengths)
  {
    hide Cut;
    hide Total;
    hide Cutting;
    var at: nat := start;
    layers := [];
    CuttingStarts(bytes, start, lengths);
    for i := 0 to |lengths|
      invariant Cutting(bytes, start, lengths, at, i, layers)
    {
      CuttingStep(bytes, start, lengths, at, i, layers);
      assert start <= at <= |bytes| by { CuttingBounds(bytes, start, lengths, at, i, layers); }
      layers := layers + [bytes[at..at + lengths[i]]];
      at := at + lengths[i];
    }
    CuttingEnds(bytes, start, lengths, at, layers);
    layers := layers + [bytes[at..]];
  }

  /** Where the cutting stands: `layers` are cut, and what is left of the bytes holds what is left of the lengths. */
  ghost predicate Cutting(bytes: seq<Byte>, start: nat, lengths: seq<nat>, at: nat, i: nat, layers: seq<seq<Byte>>) {
    start <= at <= |bytes| && i <= |lengths| && Total(lengths) <= |bytes| - start && Total(lengths[i..]) <= |bytes| - at &&
    Cut(bytes[start..], lengths) == layers + Cut(bytes[at..], lengths[i..])
  }

  lemma CuttingBounds(bytes: seq<Byte>, start: nat, lengths: seq<nat>, at: nat, i: nat, layers: seq<seq<Byte>>)
    requires Cutting(bytes, start, lengths, at, i, layers)
    ensures start <= at <= |bytes|
  {
  }

  lemma CuttingStarts(bytes: seq<Byte>, start: nat, lengths: seq<nat>)
    requires start <= |bytes| && Total(lengths) <= |bytes| - start
    ensures Cutting(bytes, start, lengths, start, 0, [])
  {
    hide Cut;
    assert lengths[0..] == lengths;
    assert [] + Cut(bytes[start..], lengths) == Cut(bytes[start..], lengths);
  }

  lemma CuttingStep(bytes: seq<Byte>, start: nat, lengths: seq<nat>, at: nat, i: nat, layers: seq<seq<Byte>>)
    requires Cutting(bytes, start, lengths, at, i, layers) && i < |lengths|
    ensures at + lengths[i] <= |bytes|
    ensures Cutting(bytes, start, lengths, at + lengths[i], i + 1, layers + [bytes[at..at + lengths[i]]])
  {
    var n := lengths[i];
    CutFirst(bytes[at..], lengths[i..]);
    hide Cut;
    assert lengths[i..][1..] == lengths[i + 1..];
    assert bytes[at..][n..] == bytes[at + n..];
    assert bytes[at..][..n] == bytes[at..at + n];
    assert layers + ([bytes[at..at + n]] + Cut(bytes[at + n..], lengths[i + 1..]))
        == (layers + [bytes[at..at + n]]) + Cut(bytes[at + n..], lengths[i + 1..]);
  }

  lemma CutFirst(body: seq<Byte>, lengths: seq<nat>)
    requires Total(lengths) <= |body| && lengths != []
    ensures lengths[0] <= |body| && Total(lengths[1..]) <= |body| - lengths[0]
    ensures Cut(body, lengths) == [body[..lengths[0]]] + Cut(body[lengths[0]..], lengths[1..])
  {
  }

  lemma CuttingEnds(bytes: seq<Byte>, start: nat, lengths: seq<nat>, at: nat, layers: seq<seq<Byte>>)
    requires Cutting(bytes, start, lengths, at, |lengths|, layers)
    ensures at <= |bytes| && Cut(bytes[start..], lengths) == layers + [bytes[at..]]
  {
    assert lengths[|lengths|..] == [];
  }

  method ParseFrame(bytes: seq<Byte>) returns (r: Result<LayeredFrame>)
    ensures r == FromBytes(bytes)
  {
    hide ReadLengths;
    hide Cut;
    if |bytes| == 0 {
      return Err(Malformed);
    }
    var count := bytes[0];
    if count == 0 || count > LAYERS {
      return Err(Malformed);
    }
    var parsed := ParseLengths(bytes, 1, count - 1);
    if parsed.None? {
      return Err(Malformed);
    }
    var (lengths, at) := parsed.value;
    var declared := 0;
    for i := 0 to |lengths|
      invariant declared + Total(lengths[i..]) == Total(lengths)
    {
      declared := declared + lengths[i];
    }
    var body := |bytes| - at;
    if declared > body {
      return Err(Malformed);
    }
    var layers := CutLayers(bytes, at, lengths);
    r := Ok(LayeredFrame(layers[0], layers[1..]));
  }
}
