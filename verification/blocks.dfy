/** Streams cut into blocks: what comes out does not depend on how the samples were handed in. */
module Blocks {
  const BLOCK := 256
  const FFT_LEN := 512

  /** One block's worth of work: the state after it, and the samples it finishes. */
  datatype Step<S> = Step(state: S, out: seq<real>)

  /** A deterministic step run over blocks in order. */
  function Fold<S, B>(step: (S, B) -> Step<S>, start: S, blocks: seq<B>): (r: Step<S>)
    decreases |blocks|
  {
    if blocks == [] then Step(start, [])
    else
      var before := Fold(step, start, blocks[..|blocks| - 1]);
      var last := step(before.state, blocks[|blocks| - 1]);
      Step(last.state, before.out + last.out)
  }

  lemma FoldNext<S, B>(step: (S, B) -> Step<S>, start: S, blocks: seq<B>, b: B)
    ensures var before := Fold(step, start, blocks);
      var last := step(before.state, b);
      Fold(step, start, blocks + [b]) == Step(last.state, before.out + last.out)
  {
    assert (blocks + [b])[..|blocks|] == blocks;
  }

  lemma {:induction false} FoldLength<S(!new), B(!new)>(step: (S, B) -> Step<S>, start: S, blocks: seq<B>)
    requires forall s, b :: |step(s, b).out| == BLOCK
    ensures |Fold(step, start, blocks).out| == BLOCK * |blocks|
    decreases |blocks|
  {
    if blocks != [] {
      FoldLength(step, start, blocks[..|blocks| - 1]);
    }
  }

  lemma Cut(x: seq<real>, more: seq<real>, from: nat, to: nat)
    requires from <= to <= |x|
    ensures (x + more)[from..to] == x[from..to]
  {
  }

  lemma Rest(x: seq<real>, from: nat, step: nat)
    requires from + step <= |x|
    ensures x[from..][..step] == x[from..from + step] && x[from..][step..] == x[from + step..]
  {
  }

  lemma Grown(x: seq<real>, more: seq<real>, from: nat)
    requires from <= |x|
    ensures x[from..] + more == (x + more)[from..]
  {
  }

  // --- suppressing noise ---

  /** The spectral half of a frame: transform, pull down each bin, transform back. */
  datatype Spectral<!S> = Spectral(next: (S, seq<real>) -> S, sample: (S, seq<real>, nat) -> real, window: seq<real>) {
    ghost predicate Valid() { |window| == FFT_LEN }
  }

  datatype Overlap<S> = Overlap(spectral: S, tail: seq<real>)

  function At(x: seq<real>, i: nat): real {
    if i < |x| then x[i] else 0.0
  }

  function Windowed(window: seq<real>, x: seq<real>): (f: seq<real>)
    ensures |f| == FFT_LEN
  {
    seq(FFT_LEN, i requires 0 <= i < FFT_LEN => At(x, i) * At(window, i))
  }

  /** Window, shape, window again, and add the half the last frame left over. */
  function DenoiseStep<S>(sp: Spectral<S>, o: Overlap<S>, x: seq<real>): (r: Step<Overlap<S>>)
    ensures |r.out| == BLOCK && |r.state.tail| == BLOCK
  {
    var frame := Windowed(sp.window, x);
    Step(Overlap(sp.next(o.spectral, frame),
                 seq(BLOCK, i requires 0 <= i < BLOCK => sp.sample(o.spectral, frame, BLOCK + i) * At(sp.window, BLOCK + i))),
         seq(BLOCK, i requires 0 <= i < BLOCK => At(o.tail, i) + sp.sample(o.spectral, frame, i) * At(sp.window, i)))
  }

  function Fresh<S>(s: S): Overlap<S> {
    Overlap(s, seq(BLOCK, i => 0.0))
  }

  function WindowOf(x: seq<real>, n: nat): (w: seq<real>)
    requires BLOCK * (n + 2) <= |x|
    ensures |w| == FFT_LEN && forall j :: 0 <= j < FFT_LEN ==> w[j] == x[BLOCK * n + j]
  {
    x[BLOCK * n..BLOCK * n + FFT_LEN]
  }

  /** The first `n` windows of a stream, each half a window after the last. */
  function Windows(x: seq<real>, n: nat): (w: seq<seq<real>>)
    requires n > 0 ==> BLOCK * (n + 1) <= |x|
    ensures |w| == n
  {
    if n == 0 then [] else Windows(x, n - 1) + [WindowOf(x, n - 1)]
  }

  lemma {:induction false} WindowsGrow(x: seq<real>, more: seq<real>, n: nat)
    requires n > 0 ==> BLOCK * (n + 1) <= |x|
    ensures Windows(x + more, n) == Windows(x, n)
  {
    if n > 0 {
      WindowsGrow(x, more, n - 1);
      Cut(x, more, BLOCK * (n - 1), BLOCK * (n - 1) + FFT_LEN);
    }
  }

  /** How many windows `length` samples hold. */
  function WindowCount(length: nat): (n: nat)
    ensures n > 0 ==> BLOCK * (n + 1) <= length
    ensures length < BLOCK * (n + 2)
  {
    if length < FFT_LEN then 0 else length / BLOCK - 1
  }

  /** The first `n` windows of a stream, cleaned. */
  function CleanedUpTo<S>(sp: Spectral<S>, start: S, heard: seq<real>, n: nat): Step<Overlap<S>>
    requires n > 0 ==> BLOCK * (n + 1) <= |heard|
  {
    Fold((o, w) => DenoiseStep(sp, o, w), Fresh(start), Windows(heard, n))
  }

  /** The next window is cleaned from where the earlier ones left off. */
  lemma CleanedNext<S>(sp: Spectral<S>, start: S, heard: seq<real>, n: nat)
    requires BLOCK * (n + 2) <= |heard|
    ensures var before := CleanedUpTo(sp, start, heard, n);
      var last := DenoiseStep(sp, before.state, WindowOf(heard, n));
      CleanedUpTo(sp, start, heard, n + 1) == Step(last.state, before.out + last.out)
  {
    hide DenoiseStep;
    hide WindowOf;
    var frame := WindowOf(heard, n);
    assert Windows(heard, n + 1) == Windows(heard, n) + [frame];
    hide Windows;
    FoldNext((o: Overlap<S>, w: seq<real>) => DenoiseStep(sp, o, w), Fresh(start), Windows(heard, n), frame);
    hide Fold;
  }

  /** The whole of a stream, cleaned in one go. */
  function Denoised<S>(sp: Spectral<S>, s: S, x: seq<real>): (r: Step<Overlap<S>>) {
    CleanedUpTo(sp, s, x, WindowCount(|x|))
  }

  lemma CleanedLength<S(!new)>(sp: Spectral<S>, start: S, x: seq<real>, n: nat)
    requires n > 0 ==> BLOCK * (n + 1) <= |x|
    ensures |CleanedUpTo(sp, start, x, n).out| == BLOCK * n
  {
    FoldLength((o: Overlap<S>, w: seq<real>) => DenoiseStep(sp, o, w), Fresh(start), Windows(x, n));
  }

  lemma DenoisedLength<S(!new)>(sp: Spectral<S>, s: S, x: seq<real>)
    ensures |Denoised(sp, s, x).out| == 256 * (if |x| < 512 then 0 else |x| / 256 - 1)
  {
    CleanedLength(sp, s, x, WindowCount(|x|));
  }

  /** Later windows only add to the end of what is out. */
  lemma {:induction false} CleanedPrefix<S>(sp: Spectral<S>, start: S, x: seq<real>, n: nat, m: nat)
    requires n <= m && (m > 0 ==> BLOCK * (m + 1) <= |x|)
    ensures CleanedUpTo(sp, start, x, n).out <= CleanedUpTo(sp, start, x, m).out
    decreases m - n
  {
    hide CleanedUpTo;
    hide DenoiseStep;
    if n < m {
      CleanedNext(sp, start, x, n);
      CleanedPrefix(sp, start, x, n + 1, m);
    }
  }

  /** Where the cleaning of a stream stands after `n` windows: what is kept, what is still to come, and what is out. */
  ghost predicate Cleaning<S>(sp: Spectral<S>, start: S, heard: seq<real>, n: nat, o: Overlap<S>, pending: seq<real>, out: seq<real>) {
    (n > 0 ==> BLOCK * (n + 1) <= |heard|) && BLOCK * n <= |heard| && pending == heard[BLOCK * n..] &&
    Step(o, out) == CleanedUpTo(sp, start, heard, n)
  }

  lemma CleaningGrows<S>(sp: Spectral<S>, start: S, heard: seq<real>, n: nat, o: Overlap<S>, pending: seq<real>, out: seq<real>,
                         samples: seq<real>)
    requires Cleaning(sp, start, heard, n, o, pending, out)
    ensures Cleaning(sp, start, heard + samples, n, o, pending + samples, out)
  {
    hide Fold;
    WindowsGrow(heard, samples, n);
    Grown(heard, samples, BLOCK * n);
  }

  lemma CleaningStep<S>(sp: Spectral<S>, start: S, heard: seq<real>, n: nat, o: Overlap<S>, pending: seq<real>, out: seq<real>)
    requires Cleaning(sp, start, heard, n, o, pending, out) && |pending| >= FFT_LEN
    ensures var done := DenoiseStep(sp, o, pending[..FFT_LEN]);
      Cleaning(sp, start, heard, n + 1, done.state, pending[BLOCK..], out + done.out)
  {
    hide DenoiseStep;
    hide CleanedUpTo;
    Rest(heard, BLOCK * n, FFT_LEN);
    Rest(heard, BLOCK * n, BLOCK);
    CleanedNext(sp, start, heard, n);
  }

  lemma CleaningEnds<S>(sp: Spectral<S>, start: S, heard: seq<real>, n: nat, o: Overlap<S>, pending: seq<real>, out: seq<real>)
    requires Cleaning(sp, start, heard, n, o, pending, out) && |pending| < FFT_LEN
    ensures n == WindowCount(|heard|) && out == Denoised(sp, start, heard).out
  {
    hide Fold;
    hide Windows;
  }

  class Denoiser<S> {
    const spectral: Spectral<S>
    const start: S
    var state: S
    var tail: seq<real>
    var pending: seq<real>
    var ready: seq<real>
    ghost var heard: seq<real>
    ghost var emitted: seq<real>

    ghost predicate Caught(n: nat)
      reads this
    {
      Cleaning(spectral, start, heard, n, Overlap(state, tail), pending, emitted + ready)
    }

    /** Everything emitted is everything heard, cleaned in one go. */
    ghost predicate Valid()
      reads this
    {
      ready == [] && Caught(WindowCount(|heard|)) && emitted == Denoised(spectral, start, heard).out
    }

    constructor (spectral: Spectral<S>, start: S)
      ensures Valid() && this.spectral == spectral && this.start == start && heard == [] && emitted == []
    {
      this.spectral, this.start, state := spectral, start, start;
      tail := seq(BLOCK, i => 0.0);
      pending, ready := [], [];
      heard, emitted := [], [];
    }

    /** However a stream is cut into calls, the calls return the stream cleaned in one go. */
    method Process(samples: seq<real>) returns (out: seq<real>)
      requires Valid()
      modifies this
      ensures Valid()
      ensures heard == old(heard) + samples
      ensures emitted == old(emitted) + out
    {
      hide Cleaning;
      hide Denoised;
      hide DenoiseStep;
      ghost var n := WindowCount(|heard|);
      hide WindowCount;
      CleaningGrows(spectral, start, heard, n, Overlap(state, tail), pending, emitted + ready, samples);
      pending := pending + samples;
      heard := heard + samples;
      while |pending| >= FFT_LEN
        invariant Caught(n)
        invariant emitted == old(emitted) && heard == old(heard) + samples
        decreases |pending|
      {
        CleaningStep(spectral, start, heard, n, Overlap(state, tail), pending, emitted + ready);
        var done := DenoiseStep(spectral, Overlap(state, tail), pending[..FFT_LEN]);
        assert (emitted + ready) + done.out == emitted + (ready + done.out);
        pending := pending[BLOCK..];
        state, tail := done.state.spectral, done.state.tail;
        ready := ready + done.out;
        n := n + 1;
      }
      CleaningEnds(spectral, start, heard, n, Overlap(state, tail), pending, emitted + ready);
      out := ready;
      emitted := emitted + ready;
      ready := [];
      assert emitted + ready == emitted;
    }
  }

  // --- a spectrum nobody touched ---

  /** The spectral half when every gain is one: the transform and its inverse cancel. */
  function Untouched(window: seq<real>): Spectral<()> {
    Spectral((s, f) => (), (s, f, i) => At(f, i), window)
  }

  /** What both windows together do to a sample that two frames share. */
  function Gain(window: seq<real>, i: nat): real {
    At(window, i) * At(window, i) + At(window, BLOCK + i) * At(window, BLOCK + i)
  }

  lemma UntouchedStep(window: seq<real>, o: Overlap<()>, x: seq<real>, i: nat)
    requires i < BLOCK && |x| == FFT_LEN
    ensures var r := DenoiseStep(Untouched(window), o, x);
      r.out[i] == At(o.tail, i) + x[i] * (At(window, i) * At(window, i)) &&
      r.state.tail[i] == x[BLOCK + i] * (At(window, BLOCK + i) * At(window, BLOCK + i))
  {
    Times(x[i], At(window, i));
    Times(x[BLOCK + i], At(window, BLOCK + i));
  }

  lemma Times(x: real, w: real)
    ensures x * w * w == x * (w * w)
  {
  }

  /** After `n` windows, what the next block still has coming to it. */
  lemma UntouchedTail(window: seq<real>, x: seq<real>, n: nat, i: nat)
    requires n > 0 && BLOCK * (n + 1) <= |x| && i < BLOCK
    ensures var tail := CleanedUpTo(Untouched(window), (), x, n).state.tail;
      |tail| == BLOCK && tail[i] == x[BLOCK * n + i] * (At(window, BLOCK + i) * At(window, BLOCK + i))
  {
    hide CleanedUpTo;
    hide DenoiseStep;
    hide WindowOf;
    hide At;
    CleanedNext(Untouched(window), (), x, n - 1);
    UntouchedStep(window, CleanedUpTo(Untouched(window), (), x, n - 1).state, WindowOf(x, n - 1), i);
  }

  lemma Shared(x: real, a: real, b: real)
    ensures x * b + x * a == x * (a + b)
  {
  }

  /** A sample whose first half the last frame left over. */
  lemma UntouchedSample(window: seq<real>, o: Overlap<()>, x: seq<real>, i: nat)
    requires i < BLOCK && |x| == FFT_LEN && |o.tail| == BLOCK
    requires o.tail[i] == x[i] * (At(window, BLOCK + i) * At(window, BLOCK + i))
    ensures DenoiseStep(Untouched(window), o, x).out[i] == x[i] * Gain(window, i)
  {
    UntouchedStep(window, o, x, i);
    hide DenoiseStep;
    Shared(x[i], At(window, i) * At(window, i), At(window, BLOCK + i) * At(window, BLOCK + i));
  }

  /** With nothing suppressed, every sample but the first half-window's comes out scaled by both windows. */
  lemma UntouchedBlock(window: seq<real>, x: seq<real>, n: nat, i: nat)
    requires n > 0 && BLOCK * (n + 2) <= |x| && i < BLOCK
    ensures var out := Denoised(Untouched(window), (), x).out;
      BLOCK * n + i < |out| && out[BLOCK * n + i] == x[BLOCK * n + i] * Gain(window, i)
  {
    hide CleanedUpTo;
    hide DenoiseStep;
    hide WindowOf;
    hide At;
    hide Gain;
    var before := CleanedUpTo(Untouched(window), (), x, n);
    CleanedNext(Untouched(window), (), x, n);
    CleanedLength(Untouched(window), (), x, n);
    UntouchedTail(window, x, n, i);
    UntouchedSample(window, before.state, WindowOf(x, n), i);
    CleanedPrefix(Untouched(window), (), x, n + 1, WindowCount(|x|));
  }
  /** Two halves of the window that sum to one, as a Hann window's do. */
  ghost predicate SumsToOne(window: seq<real>) {
    |window| == FFT_LEN && forall i :: 0 <= i < BLOCK ==> window[i] + window[BLOCK + i] == 1.0
  }

  /**
   * Summing to one is not enough when the window is applied on the way in and
   * on the way out: a sample keeps its level only where one of the two is zero.
   */
  lemma ExactOnlyAtTheEdges(window: seq<real>, i: nat)
    requires SumsToOne(window) && i < BLOCK
    ensures Gain(window, i) == 1.0 - 2.0 * (window[i] * window[BLOCK + i])
    ensures Gain(window, i) == 1.0 <==> window[i] == 0.0 || window[BLOCK + i] == 0.0
    ensures window[i] == 0.5 ==> Gain(window, i) == 0.5
  {
    var a := window[i];
    var b := window[BLOCK + i];
    assert (a + b) * (a + b) == a * a + 2.0 * (a * b) + b * b;
    if a * b == 0.0 {
      ZeroProduct(a, b);
    }
  }

  lemma ZeroProduct(a: real, b: real)
    requires a * b == 0.0
    ensures a == 0.0 || b == 0.0
  {
  }

  // --- cancelling echo ---

  /** One block of the canceller: what it becomes, and the samples it lets through. */
  datatype Canceller<!S> = Canceller(next: (S, seq<real>, seq<real>) -> S, sample: (S, seq<real>, seq<real>, nat) -> real)

  datatype Pair = Pair(far: seq<real>, near: seq<real>)

  function CancelStep<S>(c: Canceller<S>, s: S, p: Pair): (r: Step<S>)
    ensures |r.out| == BLOCK
  {
    Step(c.next(s, p.far, p.near), seq(BLOCK, i requires 0 <= i < BLOCK => c.sample(s, p.far, p.near, i)))
  }

  /** The first `n` blocks of both streams, side by side. */
  function Pairs(far: seq<real>, near: seq<real>, n: nat): (p: seq<Pair>)
    requires BLOCK * n <= |far| && BLOCK * n <= |near|
    ensures |p| == n
  {
    if n == 0 then []
    else
      Pairs(far, near, n - 1) +
      [Pair(far[BLOCK * (n - 1)..BLOCK * (n - 1) + BLOCK], near[BLOCK * (n - 1)..BLOCK * (n - 1) + BLOCK])]
  }

  lemma {:induction false} PairsGrow(far: seq<real>, near: seq<real>, moreFar: seq<real>, moreNear: seq<real>, n: nat)
    requires BLOCK * n <= |far| && BLOCK * n <= |near|
    ensures Pairs(far + moreFar, near + moreNear, n) == Pairs(far, near, n)
  {
    if n > 0 {
      PairsGrow(far, near, moreFar, moreNear, n - 1);
      Cut(far, moreFar, BLOCK * (n - 1), BLOCK * (n - 1) + BLOCK);
      Cut(near, moreNear, BLOCK * (n - 1), BLOCK * (n - 1) + BLOCK);
    }
  }

  function PairCount(played: nat, captured: nat): (n: nat)
    ensures BLOCK * n <= played && BLOCK * n <= captured
    ensures played < BLOCK * (n + 1) || captured < BLOCK * (n + 1)
  {
    var p, q := played / BLOCK, captured / BLOCK;
    if p < q then p else q
  }

  /** Both whole streams, cancelled in one go. */
  function Cancelled<S>(c: Canceller<S>, s: S, far: seq<real>, near: seq<real>): (r: Step<S>) {
    Fold((t, p) => CancelStep(c, t, p), s, Pairs(far, near, PairCount(|far|, |near|)))
  }

  lemma CancelledLength<S(!new)>(c: Canceller<S>, s: S, far: seq<real>, near: seq<real>)
    ensures |Cancelled(c, s, far, near).out| ==
      256 * (if |far| < |near| then |far| / 256 else |near| / 256)
  {
    FoldLength((t: S, p: Pair) => CancelStep(c, t, p), s, Pairs(far, near, PairCount(|far|, |near|)));
  }

  function CancelledUpTo<S>(c: Canceller<S>, start: S, far: seq<real>, near: seq<real>, n: nat): Step<S>
    requires BLOCK * n <= |far| && BLOCK * n <= |near|
  {
    Fold((t, p) => CancelStep(c, t, p), start, Pairs(far, near, n))
  }

  /** Where the cancelling of two streams stands after `n` blocks of each. */
  ghost predicate Cancelling<S>(c: Canceller<S>, start: S, far: seq<real>, near: seq<real>, n: nat, state: S,
                                played: seq<real>, captured: seq<real>, out: seq<real>) {
    BLOCK * n <= |far| && BLOCK * n <= |near| && played == far[BLOCK * n..] && captured == near[BLOCK * n..] &&
    Step(state, out) == CancelledUpTo(c, start, far, near, n)
  }

  lemma CancellingGrows<S>(c: Canceller<S>, start: S, far: seq<real>, near: seq<real>, n: nat, state: S,
                           played: seq<real>, captured: seq<real>, out: seq<real>, moreFar: seq<real>, moreNear: seq<real>)
    requires Cancelling(c, start, far, near, n, state, played, captured, out)
    ensures Cancelling(c, start, far + moreFar, near + moreNear, n, state, played + moreFar, captured + moreNear, out)
  {
    hide Fold;
    PairsGrow(far, near, moreFar, moreNear, n);
    Grown(far, moreFar, BLOCK * n);
    Grown(near, moreNear, BLOCK * n);
  }

  lemma CancellingStep<S>(c: Canceller<S>, start: S, far: seq<real>, near: seq<real>, n: nat, state: S,
                          played: seq<real>, captured: seq<real>, out: seq<real>)
    requires Cancelling(c, start, far, near, n, state, played, captured, out) && |played| >= BLOCK && |captured| >= BLOCK
    ensures var done := CancelStep(c, state, Pair(played[..BLOCK], captured[..BLOCK]));
      Cancelling(c, start, far, near, n + 1, done.state, played[BLOCK..], captured[BLOCK..], out + done.out)
  {
    Rest(far, BLOCK * n, BLOCK);
    Rest(near, BLOCK * n, BLOCK);
    var pair := Pair(far[BLOCK * n..BLOCK * n + BLOCK], near[BLOCK * n..BLOCK * n + BLOCK]);
    assert Pairs(far, near, n + 1) == Pairs(far, near, n) + [pair];
    hide CancelStep;
    hide Pairs;
    FoldNext((t: S, p: Pair) => CancelStep(c, t, p), start, Pairs(far, near, n), pair);
    hide Fold;
  }

  lemma CancellingEnds<S>(c: Canceller<S>, start: S, far: seq<real>, near: seq<real>, n: nat, state: S,
                          played: seq<real>, captured: seq<real>, out: seq<real>)
    requires Cancelling(c, start, far, near, n, state, played, captured, out) && (|played| < BLOCK || |captured| < BLOCK)
    ensures n == PairCount(|far|, |near|) && out == Cancelled(c, start, far, near).out
  {
    hide Fold;
    hide Pairs;
  }

  class EchoCanceller<S> {
    const canceller: Canceller<S>
    const start: S
    var state: S
    var playedPending: seq<real>
    var capturedPending: seq<real>
    var ready: seq<real>
    ghost var far: seq<real>
    ghost var near: seq<real>
    ghost var emitted: seq<real>

    ghost predicate Caught(n: nat)
      reads this
    {
      Cancelling(canceller, start, far, near, n, state, playedPending, capturedPending, emitted + ready)
    }

    ghost predicate Valid()
      reads this
    {
      ready == [] && exists n: nat :: Caught(n)
    }

    constructor (canceller: Canceller<S>, start: S)
      ensures Valid() && this.canceller == canceller && this.start == start
      ensures far == near == emitted == []
    {
      this.canceller, this.start, state := canceller, start, start;
      playedPending, capturedPending, ready := [], [], [];
      far, near, emitted := [], [], [];
      new;
      assert Caught(0);
    }

    method Played(samples: seq<real>)
      requires Valid()
      modifies this
      ensures Valid()
      ensures far == old(far) + samples && near == old(near) && emitted == old(emitted)
    {
      hide Cancelling;
      ghost var n: nat :| Caught(n);
      CancellingGrows(canceller, start, far, near, n, state, playedPending, capturedPending, emitted + ready, samples, []);
      assert near + [] == near && capturedPending + [] == capturedPending;
      playedPending := playedPending + samples;
      far := far + samples;
      assert Caught(n);
    }

    method ReferenceAvailable() returns (n: nat)
      requires Valid()
      ensures exists blocks: nat :: n + BLOCK * blocks == |far|
    {
      ghost var blocks: nat :| Caught(blocks);
      n := |playedPending|;
      assert n + BLOCK * blocks == |far|;
    }

    /** After a capture, everything let through so far is both whole streams cancelled in one go. */
    method Capture(samples: seq<real>) returns (out: seq<real>)
      requires Valid()
      modifies this
      ensures Valid()
      ensures near == old(near) + samples && far == old(far)
      ensures emitted == old(emitted) + out
      ensures emitted == Cancelled(canceller, start, far, near).out
    {
      hide Cancelling;
      hide Cancelled;
      hide CancelStep;
      ghost var n: nat :| Caught(n);
      CancellingGrows(canceller, start, far, near, n, state, playedPending, capturedPending, emitted + ready, [], samples);
      assert far + [] == far && playedPending + [] == playedPending;
      capturedPending := capturedPending + samples;
      near := near + samples;
      while |capturedPending| >= BLOCK && |playedPending| >= BLOCK
        invariant Caught(n)
        invariant emitted == old(emitted) && near == old(near) + samples && far == old(far)
        decreases |capturedPending|
      {
        CancellingStep(canceller, start, far, near, n, state, playedPending, capturedPending, emitted + ready);
        var done := CancelStep(canceller, state, Pair(playedPending[..BLOCK], capturedPending[..BLOCK]));
        assert (emitted + ready) + done.out == emitted + (ready + done.out);
        playedPending := playedPending[BLOCK..];
        capturedPending := capturedPending[BLOCK..];
        state := done.state;
        ready := ready + done.out;
        n := n + 1;
      }
      CancellingEnds(canceller, start, far, near, n, state, playedPending, capturedPending, emitted + ready);
      out := ready;
      emitted := emitted + ready;
      ready := [];
      assert emitted + ready == emitted;
      assert Caught(n);
    }
  }
}
