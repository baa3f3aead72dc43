# Verified core of the Telyx codec

A Dafny model of the parts of Rotelyx in which two sides must make the same
integer decisions without ever exchanging a table: the Telyx speech codec, the
block transforms that feed it, and the meter that counts what a token spends.
Proofs are about every input and every loss-free run.

## What is modelled

**Arithmetic coding** (`entropy.rs`). `ExactCoder` is a coder on unbounded
integers, where a carry cannot happen; the round trip is proved there.
`RangeCoding.RangeEncoder` has the source's fields (`low`, `range`, the held
byte, the queue of pending 0xff bytes, `out`) and refines it step by step: its
abstraction is the number all of those denote together, and its invariant is
that the next carry is at most one and never finds 0xff in the held byte.
`AdaptiveModel.Model` counts and halves; `SymbolStream` puts coder and models
together, for one model or a bank of them; `StreamLength` bounds what comes out
by what the symbols are worth.

**Levels** (`layered.rs`, `grouped.rs`). Silence flags and residuals on a ring
of 191 levels, each coded against the model its neighbour selects; ten frames
to a stream, with the models carried over; and the loop that moves levels band
by band while the plan the shapes were written with stays the same. `LevelScript`
says what is in the stream from the levels alone.

**The layered wire format** (`layered.rs`, `rvq.rs`). LEB128 lengths, trimming,
parsing of arbitrary bytes, cutting a frame to a budget, and the stages of every
band spread over the layers, of which any number may arrive. `LayeredFrames`
puts levels, plan and shapes together: what the decoder of a whole frame holds.

**Pulse vectors** (`pvq.rs`). The count table, the ranking of a codebook and
its inverse on 64-bit integers, and the search over exact reals.

**The fixed-rate frame** (`lib.rs`, `bands.rs`, `rangecoder.rs`, `tns.rs`).
Bit packing, the shaping filter's field, the differential levels, the
allocator, the refinement of levels, and the whole encoder and decoder, down to
the bytes. `Telyx` states what a frame says and what a decoder makes of it,
`TelyxChoice` what the encoder decides, and `TelyxObjects` holds the two objects
and their loops.

**Transform and streams** (`echo.rs`, `denoise.rs`). The in-place radix-2
transform over any commutative ring with roots of unity and a share of the
length, and the block buffers of the echo canceller and the noise suppressor
around an abstract step. `FftRings` gives two such rings: pairs of exact reals,
which the source's complex numbers round, and the integers modulo 7681, where
the roots for 512 samples can be written down.

**The meter** (`rotelyx-capability`). Counters, sweeping, saving and
restarting, against a ledger that goes back to the last save when the meter
does, and, as long as every restart finds on disk all that was accepted, against
one that never forgets anything.

## Where the code does not do what its text says

- `crates/rotelyx-codec/src/bands.rs:160-169` says a strict prefix of the order
  is taken, so that no band ever loses bits to a larger budget. The code at
  194-208 passes over what does not fit and takes later increments. The total is
  monotone (`Bands.AllocationMonotone`). A single band is safe from every larger
  budget if and only if the order never passes from a wider band to a narrower
  one (`Bands.BandsKeepExactly`), which can be seen before any budget is chosen;
  `Bands.BandsAreNotMonotone` gives levels the codec can hold where it does.
- `crates/rotelyx-codec/src/lib.rs` keeps both sides' levels in step modulo the
  alphabet. At quantum 2 and 3 the level 191, which `coarsen` produces by
  clamping, is not a multiple of the quantum: the decoder hears 190 or 189. It may
  then split the bits differently and read a shape for a band that was sent none:
  `ClampedFrame.ClampedLevelMisleads` is a frame of 19 bytes where it does.
  `Telyx.FrameAgreement` gives the exact condition, and `Telyx.RunAgreement` shows
  that no later frame is affected.
- `crates/rotelyx-codec/src/layered.rs:299-326` describes the ring as 63 levels;
  the constant it uses makes it 191.
- `crates/rotelyx-codec/src/layered.rs:250-265` on its own loses every delta
  outside -96..95 (`LevelCoding.FoldExact`). The ring residual is what is exact.
- `crates/rotelyx-codec/src/layered.rs:230-234` says planning from the coded
  energies keeps both sides on the same plan. It does, but a band whose
  coefficients are all zero is coded in no stages at all
  (`crates/rotelyx-codec/src/rvq.rs:182-185`) although its lowest level still
  counts as awake and may have been given bits. The decoder then reads the next
  band's stage in its place. `LayeredShapes.ShapesSurvive` gives the exact
  condition, `LayeredShapes.SilentBandTakesTheNext` the misreading, and
  `LayeredFrames.SilenceIsMisread` shows that the allocator does pay for such a
  band in every silent frame of 684 bits or more.
- `crates/rotelyx-audio/src/denoise.rs:82-83` says the Hann window reconstructs
  exactly when nothing is changed. It is applied before and after the transform,
  so a sample keeps its level only where one half of the window is zero
  (`Blocks.ExactOnlyAtTheEdges`); in the middle of a block it is halved.
- `crates/rotelyx-capability/src/lib.rs:290-316` refuses rather than overshoots,
  except at a limit of `u64::MAX`, where the saturated counter always fits
  (`Metering.LargestLimitOvershoots`).
- `Model` (`crates/rotelyx-codec/src/entropy.rs:218-267`) states no bound on the
  alphabet. The counts stay below the total the coder needs for up to 2024
  symbols, which the model takes as the bound; the codec uses at most 192.

## Model

| member | source | states |
|---|---|---|
| ExactCoder.BytesOf | crates/rotelyx-codec/src/entropy.rs:135-144 | the finished stream is the low end of the interval, in exactly four bytes more than there were renormalisation shifts |
| ExactCoder.EncodeNested | crates/rotelyx-codec/src/entropy.rs:86-99 | bytes inside the interval after a symbol were already inside the interval before it |
| ExactCoder.NoUnderflow | crates/rotelyx-codec/src/entropy.rs:190-206 | taking any interval that starts at or below the target never underflows the code register, whatever the input |
| ExactCoder.BootTracks | crates/rotelyx-codec/src/entropy.rs:166-180 | a fresh decoder on any stream inside the first interval is in step with a fresh encoder |
| ExactCoder.RefillTracks | crates/rotelyx-codec/src/entropy.rs:197-206 | renormalising both sides keeps them in step, and the decoder has consumed one byte a shift |
| ExactCoder.DecoderFollows | crates/rotelyx-codec/src/entropy.rs:190-206 | a decoder in step finds a target inside the coded symbol's interval and is in step after consuming it |
| RangeCoding.CarryRipples | crates/rotelyx-codec/src/entropy.rs:107-133 | a carry into queued 0xff bytes turns them to zero and adds one to the byte before them |
| RangeCoding.ReleasedValue | crates/rotelyx-codec/src/entropy.rs:107-133 | releasing the held byte and the queue multiplies the number the encoder denotes by exactly 256 |
| RangeCoding.QueuedValue | crates/rotelyx-codec/src/entropy.rs:107-133 | queueing one more 0xff multiplies it by exactly 256 too |
| RangeCoding.RangeEncoder.Shift | crates/rotelyx-codec/src/entropy.rs:107-133 | one shift multiplies the number denoted by 256 and keeps the carry at most one, with no carry possible into a held 0xff |
| RangeCoding.RangeEncoder.Encode | crates/rotelyx-codec/src/entropy.rs:86-99 | coding a symbol is the unbounded coder's step, and keeps the carry invariant |
| RangeCoding.RangeEncoder.Flush | crates/rotelyx-codec/src/entropy.rs:135-144 | five shifts leave a zero byte in front of the unbounded coder's stream, and nothing pending |
| RangeCoding.RangeEncoder.Finish | crates/rotelyx-codec/src/entropy.rs:135-144 | the byte removed is zero and what is returned is the unbounded coder's stream |
| RangeCoding.RangeDecoder.FindTarget | crates/rotelyx-codec/src/entropy.rs:190-195 | for any register contents the target is the unit of the range the code falls in, and the last unit for a code past them all; nothing is divided by zero |
| RangeCoding.RangeDecoder.Update | crates/rotelyx-codec/src/entropy.rs:197-206 | the registers move exactly as the unbounded coder's partner does, with zeros past the end of the input |
| AdaptiveModel.AdaptValid | crates/rotelyx-codec/src/entropy.rs:255-266 | every count stays at least one and the total stays the sum of the counts and below 2048, across increments and halvings |
| AdaptiveModel.IntervalCodable | crates/rotelyx-codec/src/entropy.rs:226-230 | every symbol of a valid model has a non-empty interval inside the total |
| AdaptiveModel.HitsOnce | crates/rotelyx-codec/src/entropy.rs:232-244 | a target inside a symbol's interval is inside no other symbol's |
| AdaptiveModel.SymbolFollows | crates/rotelyx-codec/src/entropy.rs:270-284 | a decoder in step reads the symbol written, and both models adapt alike |
| AdaptiveModel.Model.FindSymbol | crates/rotelyx-codec/src/entropy.rs:232-244 | the scan names the symbol whose interval holds the target, and the last symbol for a target past the end |
| AdaptiveModel.AdaptLearns | crates/rotelyx-codec/src/entropy.rs:255-266 | the symbol's count grows by 24 and no other; when the total would reach 2048 every count is then halved, rounding down but never below one, and otherwise stays as it is |
| AdaptiveModel.Model.Update | crates/rotelyx-codec/src/entropy.rs:255-266 | the object's counts become exactly those, with their sum as the total |
| AdaptiveModel.DecodeSymbol | crates/rotelyx-codec/src/entropy.rs:277-284 | any input at all yields a symbol of the alphabet and a valid model |
| SymbolStream.StreamAppend | crates/rotelyx-codec/src/entropy.rs:270-275 | coding one sequence after another is coding both, with the models carried over |
| SymbolStream.StreamNested | crates/rotelyx-codec/src/entropy.rs:86-144 | the finished bytes lie inside the interval of every prefix of the stream |
| SymbolStream.FreshDecoderWillRead | crates/rotelyx-codec/src/entropy.rs:166-206 | a fresh decoder on a finished stream is about to read everything coded into it |
| SymbolStream.ReadsNext | crates/rotelyx-codec/src/entropy.rs:277-284 | a decoder about to read a sequence reads its first symbol and is about to read the rest |
| SymbolStream.RoundTrip | crates/rotelyx-codec/src/entropy.rs:86-284 | every sequence over every alphabet comes back exactly, with the decoder's model equal to the encoder's and exactly the bytes of the stream consumed |
| SymbolStream.RoundTripThroughObjects | crates/rotelyx-codec/src/entropy.rs:270-284 | the same through the imperative encoder, decoder and models: the symbols, the counts of both model objects, and the bytes read |
| StreamLength.NarrowShare | crates/rotelyx-codec/src/entropy.rs:86-99 | a symbol takes its count of units, as wide as go into the range as often as the total counts |
| StreamLength.RenormScales | crates/rotelyx-codec/src/entropy.rs:96-99 | renormalising multiplies the range by 256 a shift until it has 25 to 32 bits |
| StreamLength.EncodeCost | crates/rotelyx-codec/src/entropy.rs:86-99 | coding a symbol costs its frequency out of the total, and at most one part in 8192 more |
| StreamLength.StreamIsShort | crates/rotelyx-codec/src/entropy.rs:86-144 | over any run a stream has four bytes more than the symbols are worth to the models that coded them, and one part in 8192 a symbol |
| LevelCoding.FoldExact | crates/rotelyx-codec/src/layered.rs:250-265 | folding a delta and unfolding it is exact exactly from -96 to 95 |
| LevelCoding.ResidualExact | crates/rotelyx-codec/src/layered.rs:297-326 | on the ring of awake levels the residual gives back every level from every predictor |
| LevelCoding.ScriptFits | crates/rotelyx-codec/src/layered.rs:420-445 | every symbol a frame writes is in the alphabet of the model it is written against |
| LevelScript.FoldNames | crates/rotelyx-codec/src/layered.rs:281-320 | a residual symbol below 191 stands for the residual on the ring, the nearest to zero on the smallest symbols |
| LevelScript.ScriptSays | crates/rotelyx-codec/src/layered.rs:328-473 | a frame is 24 silence flags, one model to four bands; then the lowest awake band as it is; then every other awake band's step from the one below it, against the model of its four bands and of where the step before lies among -4, -2, 0 and 2 |
| LevelCoding.ReadsFrame | crates/rotelyx-codec/src/layered.rs:447-473 | a decoder about to meet a frame reads that frame and is about to meet what follows |
| LevelModelObjects.WriteLevels | crates/rotelyx-codec/src/layered.rs:420-445 | the loop codes exactly the frame's script and leaves exactly the adapted models |
| LevelModelObjects.ReadLevels | crates/rotelyx-codec/src/layered.rs:447-473 | the loop is the frame reader, for any stream contents |
| LevelModelObjects.LevelModels.Clone | crates/rotelyx-codec/src/layered.rs:377-417 | a clone has the same counts and shares no model |
| Grouped.StreamRoundTrip | crates/rotelyx-codec/src/layered.rs:420-473 | any number of frames in one stream come back, from any models both sides hold, with equal models after |
| Grouped.PushesKeepOrder | crates/rotelyx-codec/src/grouped.rs:104-145 | frames emitted followed by frames pending are the frames pushed, in order, in groups of ten |
| Grouped.PushesPlayBack | crates/rotelyx-codec/src/grouped.rs:178-190 | decoding the groups emitted so far gives the levels pushed, and the encoder's own models |
| Grouped.RecordingRoundTrip | crates/rotelyx-codec/src/grouped.rs:104-190 | over a whole recording every frame is emitted once and in order, in groups of ten except perhaps the last, and every frame's levels are recovered |
| GroupedObjects.GroupedEncoder.Push | crates/rotelyx-codec/src/grouped.rs:104-121 | a push is the grouping step; a window of the wrong size changes nothing |
| GroupedObjects.GroupedEncoder.Finish | crates/rotelyx-codec/src/grouped.rs:123-129 | whatever is pending is emitted, or nothing when nothing is |
| GroupedObjects.GroupedDecoder.Decode | crates/rotelyx-codec/src/grouped.rs:178-190 | the level half of decoding a group, and the refusal of one whose stream is missing |
| Grouped.RecordingHeard | crates/rotelyx-codec/src/grouped.rs:131-190 | no group that a recording emits is one the decoder refuses |
| GroupedObjects.PlayRecording | crates/rotelyx-codec/src/grouped.rs:178-190 | a fresh decoder object accepts every group of a recording and returns the levels recorded, in order |
| Wire.LebRoundTrip | crates/rotelyx-codec/src/layered.rs:122-201 | a length reads back exactly below 2^28, and is refused from there up |
| Wire.WireRoundTrip | crates/rotelyx-codec/src/layered.rs:122-201 | a frame survives the wire, less its trailing empty refinements, if and only if at most four layers are left and all but the last are below 2^28 bytes |
| Wire.ParsedIsCarriable | crates/rotelyx-codec/src/layered.rs:155-201 | bytes that parse give a frame the format can carry, in no more bytes |
| Wire.FromBytes | crates/rotelyx-codec/src/layered.rs:155-201 | on success the layers concatenate to exactly the body |
| Wire.EncodingGrows | crates/rotelyx-codec/src/layered.rs:122-149 | adding a layer never shrinks the encoding |
| Wire.SizeMonotone | crates/rotelyx-codec/src/layered.rs:209-226 | encoded size does not decrease with the refinements kept |
| Wire.KeepIsLongest | crates/rotelyx-codec/src/layered.rs:209-219 | the prefix kept fits or is none, and no longer prefix fits |
| Wire.BudgetMonotone | crates/rotelyx-codec/src/layered.rs:209-219 | a smaller budget keeps no more layers and sends no larger frame |
| Wire.WithinFits | crates/rotelyx-codec/src/layered.rs:209-219 | the frame sent fits the budget whenever its base alone does |
| Wire.Within | crates/rotelyx-codec/src/layered.rs:209-226 | the descending loop finds that prefix: what it keeps fits or is the base alone, and no larger number of layers fits |
| Wire.WriteFrame | crates/rotelyx-codec/src/layered.rs:122-149 | the writing loops produce the encoding |
| Wire.ParseFrame | crates/rotelyx-codec/src/layered.rs:155-201 | the parsing loops agree with the parser on every byte string |
| LayeredCodec.CommitKeeps | crates/rotelyx-codec/src/layered.rs:716-749 | the band-by-band loop keeps the stream length and the plan, and moves a band only to its refined level |
| LayeredCodec.CommitSettles | crates/rotelyx-codec/src/layered.rs:716-749 | a band ends at its refined level if and only if that level, put into the levels as they stood when the band was reached, keeps the coded length and the plan; otherwise it stays where it was measured |
| LayeredCodec.OneMoveIsMade | crates/rotelyx-codec/src/layered.rs:722-746 | a refinement of one band that keeps both is always made |
| LayeredCodec.FrameIsBuilt | crates/rotelyx-codec/src/layered.rs:574-749 | which windows are refused and why, and of every other frame its layout, its plan and the bits it was planned with, how many refinements it keeps, and which levels moved |
| LayeredCodec.FrameAgreement | crates/rotelyx-codec/src/layered.rs:614-868 | a decoder with the same models reads the chosen levels, recomputes the plan the shapes were written with, and ends with the committed models |
| LayeredCodec.AgreementOverTheWire | crates/rotelyx-codec/src/layered.rs:122-201 | the same after the frame has been written to bytes and parsed |
| LayeredCodec.CallAgreement | crates/rotelyx-codec/src/layered.rs:574-868 | over any loss-free call the decoder hears every frame as meant, models included; refused windows leave no trace |
| LayeredObjects.LayeredEncoder.EncodeWithin | crates/rotelyx-codec/src/layered.rs:574-749 | the object returns a frame built that way, and advances its models only by the levels sent |
| LayeredObjects.LayeredEncoder.CommitLevels | crates/rotelyx-codec/src/layered.rs:716-749 | the loop over trial streams and cloned models moves every band it can and no other |
| LayeredObjects.LayeredDecoder.Decode | crates/rotelyx-codec/src/layered.rs:842-868 | the object reads levels and plan as modelled, and refuses a frame too short for its header |
| PvqCount.ByFirstMagnitude | crates/rotelyx-codec/src/pvq.rs:71-88 | the three-term recursion is the sum over the first entry's magnitude: V(n,k) = V(n-1,k) + 2 * sum of V(n-1,j) for j < k |
| PvqCount.MoreRoom | crates/rotelyx-codec/src/pvq.rs:71-88 | the count does not decrease with the length |
| PvqCount.MorePulses | crates/rotelyx-codec/src/pvq.rs:71-88 | nor with the pulses, from length one on |
| PvqCount.SaturatedStep | crates/rotelyx-codec/src/pvq.rs:71-88 | saturating at each addition is saturating the true count once |
| PvqCount.BuildTable | crates/rotelyx-codec/src/pvq.rs:58-88 | every table entry is the true count, or the largest word where that does not fit |
| PvqCount.AffordableBelow | crates/rotelyx-codec/src/pvq.rs:119-136 | fewer pulses than an affordable number are affordable |
| PvqCount.PulsesUnique | crates/rotelyx-codec/src/pvq.rs:119-136 | an affordable number with nothing affordable above it is the one number both sides must find |
| PvqCount.PulsesFor | crates/rotelyx-codec/src/pvq.rs:119-136 | although it stops at the first failure, the result is the most pulses, up to 32, whose vectors can be told apart in the budget and in 62 bits |
| PvqCount.AffordableWidth | crates/rotelyx-codec/src/pvq.rs:101-136 | what was chosen is indexed within the budget and within 62 bits |
| PvqIndex.RankInRange | crates/rotelyx-codec/src/pvq.rs:212-235 | every vector's rank is below the count of its codebook |
| PvqIndex.RankOfUnrank | crates/rotelyx-codec/src/pvq.rs:212-278 | every rank names a vector of the codebook with that rank |
| PvqIndex.UnrankOfRank | crates/rotelyx-codec/src/pvq.rs:212-278 | every vector is the one at its own rank |
| PvqIndex.RankInjective | crates/rotelyx-codec/src/pvq.rs:212-235 | no two vectors of a codebook share an index |
| PvqIndex.RankOrders | crates/rotelyx-codec/src/pvq.rs:212-255 | ranks follow the canonical ordering: the first entry that differs decides, smaller magnitude first and of equal ones the negative |
| PvqIndex.VCounts | crates/rotelyx-codec/src/pvq.rs:58-88 | the recursion counts exactly the integer vectors of that length and L1 norm |
| PvqIndex.Index | crates/rotelyx-codec/src/pvq.rs:212-235 | the loop computes the rank, with every sum inside 64 bits |
| PvqIndex.Deindex | crates/rotelyx-codec/src/pvq.rs:237-278 | any 64-bit index gives length n and norm at most k; one inside the codebook gives the vector of that rank |
| PvqSearch.ProjectedUndershoots | crates/rotelyx-codec/src/pvq.rs:150-180 | the projection places at most k-1 pulses, none against its target's sign |
| PvqSearch.ProjectedStarts | crates/rotelyx-codec/src/pvq.rs:160-172 | every entry starts with exactly the whole pulses of its share of k - 1/2 by L1 norm, on its target's side, and with none when the norm is negligible |
| PvqSearch.BestIsNearest | crates/rotelyx-codec/src/pvq.rs:181-209 | the place chosen is the first at which one more pulse leaves the smallest angle to the target, by inner products and norms |
| PvqSearch.ChosenIsSearched | crates/rotelyx-codec/src/pvq.rs:150-209 | the result is that start and then nothing but such pulses, and no entry is a whole pulse short of its share |
| PvqSearch.SearchedOnce | crates/rotelyx-codec/src/pvq.rs:150-209 | only one vector is |
| PvqSearch.PulseSums | crates/rotelyx-codec/src/pvq.rs:181-209 | one more pulse moves the running inner product and squared norm exactly as recomputing them would |
| PvqSearch.BestIsBest | crates/rotelyx-codec/src/pvq.rs:181-209 | the place chosen has the largest signed squared cosine, the first such on a tie |
| PvqSearch.GreedyL1 | crates/rotelyx-codec/src/pvq.rs:181-209 | the greedy stage adds exactly its pulses and keeps agreeing with the target's signs |
| PvqSearch.ChosenInBook | crates/rotelyx-codec/src/pvq.rs:150-209 | for every target of length one or more the result has L1 norm exactly k and agrees in sign |
| PvqSearch.Search | crates/rotelyx-codec/src/pvq.rs:150-209 | the loops with running sums return that one vector, with exactly k pulses and none against its target's sign |
| Bands.BandsTile | crates/rotelyx-codec/src/bands.rs:33-44 | the bands lie end to end over 960 bins, four of them wide at the bottom and 200 at the top, with every width between |
| Bands.ValueFalls | crates/rotelyx-codec/src/bands.rs:140-158 | the first increment of a band is worth its weighted energy squared, every further one up to the twelfth a quarter of the one before, and none anything in a band below the threshold |
| Bands.OrderComplete | crates/rotelyx-codec/src/bands.rs:170-191 | the order holds every increment of every awake band up to twelve, and nothing else |
| Bands.OrderDescends | crates/rotelyx-codec/src/bands.rs:173-191 | no increment is worth more than the one taken before it |
| Bands.OrderByWorth | crates/rotelyx-codec/src/bands.rs:170-191 | one band's increment comes before another's whenever weight times energy squared over four to the bits it has is larger, or equal in a lower band |
| Bands.TakenIfItFits | crates/rotelyx-codec/src/bands.rs:202-208 | an increment is taken if and only if its width fits in what the ones taken before it leave |
| Bands.NothingWasted | crates/rotelyx-codec/src/bands.rs:202-208 | an increment passed over does not fit in what is left at the end either |
| Bands.OneMoreBit | crates/rotelyx-codec/src/bands.rs:202-208 | one bit more changes nothing or is spent to the last bit |
| Bands.AllocationLaws | crates/rotelyx-codec/src/bands.rs:124-211 | the budget is kept; a silent band gets nothing; every band gets at most twelve whole bits a coefficient; a band below that would not fit another |
| Bands.AllocationMonotone | crates/rotelyx-codec/src/bands.rs:124-211 | the total never decreases as the budget grows |
| Bands.KeepsExactlyWhenWidening | crates/rotelyx-codec/src/bands.rs:194-208 | whatever the order, no band ever loses to a larger budget if and only if no increment comes after a wider one |
| Bands.BandsKeepExactly | crates/rotelyx-codec/src/bands.rs:160-208 | for every spectrum, no band's rate falls from any budget to any larger one if and only if its own order never narrows |
| Bands.BandsAreNotMonotone | crates/rotelyx-codec/src/bands.rs:160-208 | one loud band and all others at the lowest level: eight bits take away the four that band 0 had from a budget of four |
| Bands.Allocate | crates/rotelyx-codec/src/bands.rs:124-211 | the planning loop and the walk give every band the increments so ordered and so taken |
| BitPacker.Encoder.WriteBits | crates/rotelyx-codec/src/rangecoder.rs:35-47 | the bits written so far grow by the low `count` bits of the value, highest first |
| BitPacker.Encoder.LenBits | crates/rotelyx-codec/src/rangecoder.rs:67-69 | the length reported is the number of bits written |
| BitPacker.Encoder.Finish | crates/rotelyx-codec/src/rangecoder.rs:72-77 | the bytes are the bits and then zeros, as many bytes as the bits need |
| BitPacker.Decoder.ReadBits | crates/rotelyx-codec/src/rangecoder.rs:97-114 | the value of the bits at the position, zero past the end, below two to the width |
| BitPacker.FieldsReadBack | crates/rotelyx-codec/src/rangecoder.rs:35-114 | whatever is written before and after, fields that fit read back exactly |
| BitPacker.PackedRoundTrip | crates/rotelyx-codec/src/rangecoder.rs:35-129 | any sequence of fields of up to 32 bits reads back from the finished bytes |
| BitPacker.WrittenLength | crates/rotelyx-codec/src/rangecoder.rs:67-69 | the bits of a sequence of fields are as many as the sum of the widths |
| BitPacker.SignedExact | crates/rotelyx-codec/src/rangecoder.rs:55-125 | a signed value survives a width if and only if it is in the range of a two's complement number of that width |
| Stages.IndexReadsBack | crates/rotelyx-codec/src/layered.rs:918-941 | an index of up to 62 bits survives being split at 32 |
| Stages.SplitIsInvisible | crates/rotelyx-codec/src/layered.rs:918-929 | the two pieces are, bit for bit, the index written in one |
| Stages.StageReadsBack | crates/rotelyx-codec/src/layered.rs:918-951 | a stage reads back as it was sent |
| Stages.AnyStageDecodes | crates/rotelyx-codec/src/layered.rs:931-951 | arbitrary bits name a vector of the stage's own codebook |
| Stages.WrapsRound | crates/rotelyx-codec/src/layered.rs:942-949 | an index past the end of its codebook is taken around it, whole turns off |
| Stages.WriteStage | crates/rotelyx-codec/src/layered.rs:918-929 | the writer appends the index, highest bit first, then four bits of gain and the sign |
| Stages.ReadStage | crates/rotelyx-codec/src/layered.rs:931-951 | the reader consumes exactly the stage's width and returns what the bits say |
| LayeredShapes.PlanWithinBudget | crates/rotelyx-codec/src/rvq.rs:124-153 | a plan of up to four stages costs no more than its budget and names only codebooks that can be indexed |
| LayeredShapes.PlanByShares | crates/rotelyx-codec/src/rvq.rs:124-153 | each of the first three stages has as many pulses as half of the bits left affords and the fourth as all of them do, and the plan ends only where there are four, no bits, no affordable pulse or not enough for its gain |
| LayeredShapes.PlanStages | crates/rotelyx-codec/src/rvq.rs:124-153 | the loop computes that plan |
| LayeredShapes.BandsReadBack | crates/rotelyx-codec/src/layered.rs:875-895 | with a reader standing at the same band in every layer, all later bands read back as many stages as there are layers |
| LayeredShapes.ShapesSurvive | crates/rotelyx-codec/src/layered.rs:647-895 | whichever refinements arrive, the decoder recovers of every band exactly the stages whose layers it holds, if and only if no band with a plan was coded as nothing |
| LayeredShapes.TrimLosesNothing | crates/rotelyx-codec/src/layered.rs:122-149 | dropping trailing empty refinements on the wire loses no stage of any band |
| LayeredShapes.SilentBandTakesTheNext | crates/rotelyx-codec/src/rvq.rs:182-185 | a band of zeros that has a plan is decoded from the stage of the band after it |
| LayeredFrames.PackingIsSound | crates/rotelyx-codec/src/layered.rs:637-662 | the filter a decoder finds in front of the shapes has the size the encoder set aside for it, whatever the plan |
| LayeredFrames.FrameArrives | crates/rotelyx-codec/src/layered.rs:574-895 | the decoder of an encoded frame, also over the wire, holds its levels and plan, and of every band the stages whose layers were kept, if and only if no band with a plan was coded as nothing |
| LayeredFrames.WideBandIsFunded | crates/rotelyx-codec/src/bands.rs:124-211 | when every band is awake, 684 bits or more pay some band of at least twelve coefficients a bit for each |
| LayeredFrames.FundedBandHasAStage | crates/rotelyx-codec/src/rvq.rs:124-153 | such a band has a stage in its plan |
| LayeredFrames.SilenceIsMisread | crates/rotelyx-codec/src/rvq.rs:182-185 | so a frame of digital silence, from 684 bits up, always plans a stage that is never written |
| LayeredShapeObjects.WriteBands | crates/rotelyx-codec/src/layered.rs:647-662 | the nested loops give every layer that stage of every band in turn, and skip stages past the last layer |
| LayeredShapeObjects.ReadBandsFrom | crates/rotelyx-codec/src/layered.rs:875-895 | the nested loops read what the specification reads, a missing layer ending its band |
| Shaping.FilterReadsBack | crates/rotelyx-codec/src/tns.rs:171-196 | the filter survives the wire |
| Shaping.FilterAt | crates/rotelyx-codec/src/tns.rs:183-196 | whatever the bits, the filter read is within its bounds |
| Shaping.FilterSays | crates/rotelyx-codec/src/tns.rs:183-196 | no filter, or one to eight taps of four bits each, the lowest of sixteen values held at -7 |
| Shaping.WriteFilter | crates/rotelyx-codec/src/tns.rs:171-181 | the loop appends exactly the filter's fields |
| Shaping.ReadFilter | crates/rotelyx-codec/src/tns.rs:183-196 | the loop reads that filter and consumes exactly its bits |
| DifferentialLevels.Coarsen | crates/rotelyx-codec/src/lib.rs:180-184 | the result is the nearest multiple of the quantum, the upper of two as near, or the clamped top level |
| DifferentialLevels.MinimumIs | crates/rotelyx-codec/src/lib.rs:151-172 | the smallest frame is 18, 21 or 24 bytes as the quantum goes from three to one, so a frame is big enough from 18 bytes on |
| DifferentialLevels.LevelBits | crates/rotelyx-codec/src/lib.rs:167-172 | eight, seven or six bits, enough for every coded value |
| DifferentialLevels.StepFollows | crates/rotelyx-codec/src/lib.rs:312-426 | one coded difference takes the decoder from the floor of the old level to the floor of the new one, truncation and wrap-around included |
| DifferentialLevels.DifferenceCounts | crates/rotelyx-codec/src/lib.rs:312-337 | that difference counts the steps between the two floors, around the scale |
| DifferentialLevels.ArrivesExactly | crates/rotelyx-codec/src/lib.rs:312-426 | a frame's levels arrive unchanged if and only if the quantum is one or no band stands at 191 |
| DifferentialLevels.TopLevelDrops | crates/rotelyx-codec/src/lib.rs:180-184 | the clamped level and what is heard in its place |
| DifferentialLevels.RunFollows | crates/rotelyx-codec/src/lib.rs:312-426 | over any run of frames every level is heard as its floor |
| LevelRefinement.NearestIsNearest | crates/rotelyx-codec/src/lib.rs:590-607 | no candidate within four steps is nearer, and a move is a strict gain |
| LevelRefinement.ReachedByStep | crates/rotelyx-codec/src/lib.rs:590-600 | every level the encoder can hold within four quanta is a candidate |
| LevelRefinement.CandidateInReach | crates/rotelyx-codec/src/lib.rs:590-600 | and nothing else is |
| LevelRefinement.NearestIsBest | crates/rotelyx-codec/src/lib.rs:585-607 | a band wants the level within four quanta with the least squared error, its own if none is strictly better and else the lowest |
| LevelRefinement.RefinedSettles | crates/rotelyx-codec/src/lib.rs:559-625 | a coded band ends there if and only if moving it, from the levels as they stood when it was reached, leaves the split as it was; every other band stays |
| LevelRefinement.RefinedKeepsSplit | crates/rotelyx-codec/src/lib.rs:609-621 | the refined levels split the bits as the measured ones did |
| LevelRefinement.NeverWorse | crates/rotelyx-codec/src/lib.rs:559-625 | no band's squared error rises, and a band that moved is strictly nearer |
| LevelRefinement.StaysForTheSplit | crates/rotelyx-codec/src/lib.rs:609-621 | a band left short of a nearer candidate is one whose move would have changed the split |
| LevelRefinement.RefineLevels | crates/rotelyx-codec/src/lib.rs:559-625 | the loops put every band where that rule does |
| Telyx.ChoiceIsConsistent | crates/rotelyx-codec/src/lib.rs:274-305 | after refinement the shapes are still the ones the final levels pay for |
| TelyxChoice.ChoiceIsMade | crates/rotelyx-codec/src/lib.rs:241-337 | the filter goes along from 30 bytes up; the bits that filter and levels leave are split by the rounded levels; each band is searched, in units of its gain, with the pulses it can pay for; and the levels settle as refinement says |
| Telyx.FieldsFit | crates/rotelyx-codec/src/lib.rs:289-337 | every field fits its width and the shapes never take more bits than the side information leaves |
| Telyx.RateIsEnough | crates/rotelyx-codec/src/lib.rs:167-172 | a frame holds what it says if and only if it has the minimum size, and below it that minimum is what it needs |
| Telyx.FrameAgreement | crates/rotelyx-codec/src/lib.rs:241-457 | filter and floors of levels always arrive; the whole frame, shapes included, arrives if and only if no level was clamped |
| Telyx.RunAgreement | crates/rotelyx-codec/src/lib.rs:241-457 | the same for every frame of every loss-free run, so a clamped level spoils no frame but its own |
| Telyx.CallAgreement | crates/rotelyx-codec/src/lib.rs:215-457 | the same from the first frame of a call |
| ClampedFrame.SplitsApart | crates/rotelyx-codec/src/lib.rs:180-184 | two equal bands and a clamped one in 19 bytes: the encoder's eight bits go to bands 2 and 0, the decoder's to bands 0 and 1 |
| ClampedFrame.ClampedLevelMisleads | crates/rotelyx-codec/src/lib.rs:241-457 | of that frame the decoder hears a shape in a band that was sent none, and none in a band that was sent one |
| TelyxObjects.TelyxEncoder.Encode | crates/rotelyx-codec/src/lib.rs:241-355 | the object returns exactly those bits padded to the rate, or the error and the size needed, and remembers the levels either way |
| TelyxObjects.EncodeFrame | crates/rotelyx-codec/src/lib.rs:255-355 | the bytes hold the frame's fields; the rate is too low exactly below the minimum size |
| TelyxObjects.TelyxDecoder.Decode | crates/rotelyx-codec/src/lib.rs:402-457 | any frame of the right size is understood as modelled, and one of the wrong size changes nothing |
| TelyxObjects.DecodeFrame | crates/rotelyx-codec/src/lib.rs:402-457 | the reading loops find filter, levels and shapes as modelled, for any bits |
| FftInPlace.NextIsRev | crates/rotelyx-audio/src/echo.rs:197-208 | clearing the run of ones and setting the next bit takes the reversal of i to the reversal of i+1 |
| FftInPlace.RevInvolution | crates/rotelyx-audio/src/echo.rs:197-208 | reversing the bits twice changes nothing, so the swaps are an involution |
| FftInPlace.Advance | crates/rotelyx-audio/src/echo.rs:197-208 | the counter loop computes that step |
| FftInPlace.BitReverse | crates/rotelyx-audio/src/echo.rs:197-208 | the swaps leave the buffer in bit-reversed order |
| FftInPlace.Pass | crates/rotelyx-audio/src/echo.rs:220-227 | the inner loop combines one stretch and touches nothing else |
| FftInPlace.Stage | crates/rotelyx-audio/src/echo.rs:212-231 | a stage turns the transforms of every half stretch into those of every stretch |
| FftInPlace.Fft | crates/rotelyx-audio/src/echo.rs:192-239 | for every power-of-two length, in every ring with roots of unity for it, the buffer ends as the Fourier transform of what it held, scaled by the share when inverse |
| FftInPlace.ThereAndBack | crates/rotelyx-audio/src/echo.rs:192-239 | forward and then inverse, in place, leaves the buffer as it was, in every commutative ring with roots, their inverses and a share of the length |
| FftRings.ComplexLaws | crates/rotelyx-audio/src/echo.rs:138-190 | pairs of exact reals with the source's sum, difference and product are such a ring |
| FftRings.ComplexShare | crates/rotelyx-audio/src/echo.rs:233-239 | there, the source's scaling by one over the length is the product with the share of the length |
| FftRings.ResidueLaws | crates/rotelyx-audio/src/echo.rs:192-239 | so are the integers modulo 7681 |
| FftRings.RootsAt512 | crates/rotelyx-audio/src/echo.rs:192-239 | where 62, its inverse 1115 and the share 7666 are everything both transforms ask for at 512 samples |
| FftRings.RoundTripAt512 | crates/rotelyx-audio/src/echo.rs:192-239 | so any 512 residues survive the transform in place and its inverse |
| FftTransform.ButterfliesTransform | crates/rotelyx-audio/src/echo.rs:212-231 | butterflies over bit-reversed samples are the Fourier sum, bin by bin |
| FftTransform.RootsCancel | crates/rotelyx-audio/src/echo.rs:192-239 | the powers of a root other than one sum to zero |
| FftTransform.FourierInverts | crates/rotelyx-audio/src/echo.rs:192-239 | transforming with the inverse root returns every sample n times over |
| FftTransform.TransformRoundTrip | crates/rotelyx-audio/src/echo.rs:192-239 | the scaled inverse transform undoes the forward one |
| Blocks.EchoCanceller.Capture | crates/rotelyx-audio/src/echo.rs:315-332 | after any capture everything let through is the block recursion over both whole streams |
| Blocks.EchoCanceller.Played | crates/rotelyx-audio/src/echo.rs:294-296 | handing over played samples changes nothing that was let through |
| Blocks.CancelledLength | crates/rotelyx-audio/src/echo.rs:315-332 | 256 samples for every block both streams have |
| Blocks.Denoiser.Process | crates/rotelyx-audio/src/denoise.rs:103-132 | however the stream is cut, what was emitted is the whole stream cleaned in one go |
| Blocks.DenoisedLength | crates/rotelyx-audio/src/denoise.rs:103-132 | 256 samples for every window of 512 the stream holds |
| Blocks.UntouchedBlock | crates/rotelyx-audio/src/denoise.rs:105-129 | with every gain one, every sample of a stream past the first block comes out in its place, multiplied by the squares of both halves of the window |
| Blocks.ExactOnlyAtTheEdges | crates/rotelyx-audio/src/denoise.rs:82-129 | that factor is one if and only if one of the two halves is zero |
| Metering.ChargeStands | crates/rotelyx-capability/src/lib.rs:290-316 | a charge is answered as the ledger answers it, and counters and ledger still agree |
| Metering.StandsLater | crates/rotelyx-capability/src/lib.rs:298-303 | counters and ledger agree in every later period |
| Metering.AnsweredByTheDay | crates/rotelyx-capability/src/lib.rs:290-316 | with days of 24 hours from hour zero, a charge in an orderly run is allowed if and only if it fits in the limit with what was allowed on its own day, and is told what that leaves |
| Metering.QuotaRenews | crates/rotelyx-capability/src/lib.rs:298-303 | after any run that lies before a day, a charge on or after it meets the whole limit |
| Metering.QuotaIsKept | crates/rotelyx-capability/src/lib.rs:298-316 | two charges on one day are counted together |
| Metering.MeterIsLedger | crates/rotelyx-capability/src/lib.rs:290-379 | with a clock that never goes back, any interleaving of charges, sweeps, saves and restarts gives the answers of a ledger that only a restart takes back, to its last save |
| Metering.MeterNeverForgets | crates/rotelyx-capability/src/lib.rs:290-379 | where every restart finds all accepted metered charges saved, the answers are those of a ledger for which sweeps, saves and restarts do nothing |
| Metering.FirstStartNeverForgets | crates/rotelyx-capability/src/lib.rs:290-379 | the same from a first start with no file |
| Metering.RefusalChangesNothing | crates/rotelyx-capability/src/lib.rs:305-311 | a refused charge changes no later answer |
| Metering.QuotaFromStart | crates/rotelyx-capability/src/lib.rs:286-316 | accepted bytes per token and day stay within a fixed limit below the largest word, across restarts that follow a save |
| Metering.LargestLimitNeverRefuses | crates/rotelyx-capability/src/lib.rs:305-311 | at the largest limit nothing is ever refused |
| Metering.LargestLimitOvershoots | crates/rotelyx-capability/src/lib.rs:305-311 | two accepted charges that add up to more than that limit |
| Metering.UnsavedRestartForgets | crates/rotelyx-capability/src/lib.rs:332-379 | a restart without a save allows the whole limit again |
| Metering.Meter.Charge | crates/rotelyx-capability/src/lib.rs:290-316 | the object's counters and answer are the specification's |
| Metering.Meter.Sweep | crates/rotelyx-capability/src/lib.rs:321-326 | exactly the counters of the hour's own day stay, unchanged, and the number dropped is returned |
| Metering.Meter.Load | crates/rotelyx-capability/src/lib.rs:366-379 | a saved table comes back without its past periods; a missing one is empty |

## Left out

- Floating point: energies, gains, squared errors, window samples and complex numbers are exact reals; rounding and NaN are not modelled.
- Decibel tables (`energy_to_level`, `level_to_energy`): a level's gain is an arbitrary table of reals, and measured levels are inputs.
- Perceptual weights of the allocator (`crates/rotelyx-codec/src/bands.rs:127-137`): any positive numbers; the code computes them with a power of one half.
- Index width: the least w with count <= 2^w; the code takes an `f32` logarithm and rounds it up.
- Transform, windowing, transient detection and filter analysis (`mdct.rs`, `tns.rs`): coefficients and filter indices are inputs of a frame.
- Residual vector quantisation (`rvq.rs:156-225`): which index and gain a stage gets is not modelled; stages follow the plan they were made for, or are none for a band of zeros.
- LayeredCodec.FrameAgreement: the plan is an arbitrary deterministic function of levels and bits, the shape bytes are opaque, and the shaping filter's size in bits is an arbitrary function of them; `LayeredFrames` fills all three in.
- LayeredCodec.CallAgreement: loss-free runs only; concealment and lost frames are about sound, and the models are not in step after a loss.
- Telyx.RunAgreement: loss-free runs only.
- LevelModelObjects.LevelModels.Clone: the three fields of the source's models are one list of 37 models.
- RangeCoding.RangeEncoder.Shift: `cache_size` is an unbounded count; the source's is 64 bits wide.
- FftInPlace.Fft: the twiddle steps are a parameter required to be roots of unity; the source computes them with `cos` and `sin`. From eight samples on exact complex ones have irrational coordinates, which no term here denotes; the roots modulo 7681 are exhibited instead.
- Blocks.EchoCanceller.Capture: the adaptive filter and the residual suppressor are one arbitrary deterministic step.
- Blocks.Denoiser.Process: the spectral gains are one arbitrary deterministic step between the two windows.
- BitPacker.ReadSigned: follows wrapping arithmetic; a build with overflow checks stops instead on the folded form of -32768.
- Metering.Meter.Load: a file that cannot be read or decoded is not modelled; encoding to disk is an exact snapshot.
- Refinement of levels in the layered codec (`crates/rotelyx-codec/src/layered.rs:486-535`): the refined levels are an arbitrary function of what survives; the fixed-rate one is modelled.
- Texture invented for bands without bits, and audio output: nothing on the encoding side depends on it.
- Devices, threads, relays, mailboxes, command lines, tokens and signatures, key files and group messaging.
