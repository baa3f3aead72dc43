/** The canonical ordering of a codebook: a vector's rank, and the vector at a rank. */
module PvqIndex {
  import opened Bytes
  import opened PvqCount

  function Abs(x: int): nat {
    if x >= 0 then x else -x
  }

  function L1(y: seq<int>): nat {
    if y == [] then 0 else Abs(y[0]) + L1(y[1..])
  }

  /** The codebook: every integer vector of length `n` and L1 norm `k`. */
  predicate InBook(y: seq<int>, n: nat, k: nat) {
    |y| == n && L1(y) == k
  }

  /** The vectors of one magnitude: both signs, except of zero. */
  function Span(magnitude: nat, ways: nat): nat {
    if magnitude == 0 then ways else 2 * ways
  }

  /** How many vectors have a first entry of magnitude below `m`, `rest` positions following. */
  function Below(rest: nat, k: nat, m: nat): nat
    requires m <= k + 1
  {
    if m == 0 then 0 else Below(rest, k, m - 1) + Span(m - 1, V(rest, k - (m - 1)))
  }

  lemma {:induction false} BelowIsSum(rest: nat, k: nat, m: nat)
    requires 1 <= m <= k + 1
    ensures Below(rest, k, m) == V(rest, k) + 2 * (Sum(rest, k) - Sum(rest, k + 1 - m))
  {
    if m == 1 {
      assert Below(rest, k, 1) == V(rest, k);
    } else {
      BelowIsSum(rest, k, m - 1);
    }
  }

  /** The blocks of all magnitudes fill the codebook exactly. */
  lemma BlocksFill(rest: nat, k: nat)
    ensures Below(rest, k, k + 1) == V(rest + 1, k)
  {
    BelowIsSum(rest, k, k + 1);
    ByFirstMagnitude(rest + 1, k);
  }

  lemma {:induction false} BelowMonotone(rest: nat, k: nat, a: nat, b: nat)
    requires a <= b <= k + 1
    ensures Below(rest, k, a) <= Below(rest, k, b)
    decreases b - a
  {
    if a < b {
      BelowMonotone(rest, k, a, b - 1);
    }
  }

  lemma BlockFits(rest: nat, k: nat, m: nat)
    requires m <= k
    ensures Below(rest, k, m) + Span(m, V(rest, k - m)) <= V(rest + 1, k)
  {
    BelowMonotone(rest, k, m + 1, k + 1);
    BlocksFill(rest, k);
  }

  /** How far into its codebook a first entry of `value` starts. */
  function Offset(rest: nat, k: nat, value: int): nat
    requires Abs(value) <= k
  {
    Below(rest, k, Abs(value)) + if value > 0 then V(rest, k - Abs(value)) else 0
  }

  function Rank(y: seq<int>): nat {
    if y == [] then 0 else Offset(|y| - 1, L1(y), y[0]) + Rank(y[1..])
  }

  lemma OffsetFits(rest: nat, k: nat, value: int)
    requires Abs(value) <= k
    ensures Offset(rest, k, value) + V(rest, k - Abs(value)) <= V(rest + 1, k)
  {
    BlockFits(rest, k, Abs(value));
  }

  lemma {:induction false} RankInRange(y: seq<int>)
    ensures Rank(y) < V(|y|, L1(y))
  {
    if y != [] {
      RankInRange(y[1..]);
      OffsetFits(|y| - 1, L1(y), y[0]);
    }
  }

  /** The order of entries: nothing first, then one below, one above, two below and so on. */
  predicate Precedes(a: int, b: int) {
    Abs(a) < Abs(b) || (Abs(a) == Abs(b) && a < b)
  }

  lemma OffsetStep(rest: nat, k: nat, a: int, b: int)
    requires Abs(a) <= k && Abs(b) <= k && Precedes(a, b)
    ensures Offset(rest, k, a) + V(rest, k - Abs(a)) <= Offset(rest, k, b)
  {
    hide V;
    if Abs(a) < Abs(b) {
      BelowMonotone(rest, k, Abs(a) + 1, Abs(b));
    }
  }

  lemma EitherPrecedes(a: int, b: int)
    requires a != b
    ensures Precedes(a, b) <==> !Precedes(b, a)
  {
  }

  lemma SameStart(y: seq<int>, z: seq<int>, i: nat)
    requires 0 < i <= |y| == |z| && y[..i] == z[..i]
    ensures y[0] == z[0] && y[1..][..i - 1] == z[1..][..i - 1]
  {
    assert y[0] == y[..i][0] == z[..i][0] == z[0];
    assert y[1..][..i - 1] == y[..i][1..] && z[1..][..i - 1] == z[..i][1..];
  }

  /** The canonical ordering of a codebook: the first entry that differs decides. */
  lemma {:induction false} RankOrders(y: seq<int>, z: seq<int>, i: nat)
    requires |y| == |z| && L1(y) == L1(z) && i < |y| && y[..i] == z[..i] && y[i] != z[i]
    ensures Rank(y) < Rank(z) <==> Precedes(y[i], z[i])
    decreases i
  {
    hide V;
    hide Offset;
    hide Precedes;
    if i > 0 {
      SameStart(y, z, i);
      RankOrders(y[1..], z[1..], i - 1);
    } else {
      RankInRange(y[1..]);
      RankInRange(z[1..]);
      EitherPrecedes(y[0], z[0]);
      if Precedes(y[0], z[0]) {
        OffsetStep(|y| - 1, L1(y), y[0], z[0]);
      } else {
        OffsetStep(|y| - 1, L1(y), z[0], y[0]);
      }
    }
  }

  // --- from rank to vector ---

  /** An entry, and what is left of the rank for the entries after it. */
  datatype Entry = Entry(value: int, left: nat)

  /**
   * The entry at rank `i`, magnitudes below `m` already passed over. A rank
   * past the end of the codebook yields zero, and stays past the end.
   */
  function Find(rest: nat, k: nat, i: nat, m: nat): (e: Entry)
    ensures Abs(e.value) <= k && e.left <= i
    decreases k + 1 - m
  {
    if m > k then Entry(0, i)
    else
      var ways := V(rest, k - m);
      if i < Span(m, ways) then
        if m == 0 then Entry(0, i)
        else if i < ways then Entry(-(m as int), i)
        else Entry(m, i - ways)
      else Find(rest, k, i - Span(m, ways), m + 1)
  }

  function Unrank(n: nat, k: nat, i: nat): (y: seq<int>)
    ensures |y| == n && L1(y) <= k
    decreases n
  {
    if n == 0 then []
    else
      var e := Find(n - 1, k, i, 0);
      var tail := Unrank(n - 1, k - Abs(e.value), e.left);
      assert ([e.value] + tail)[1..] == tail;
      [e.value] + tail
  }

  /** Inside the codebook, the entry found is the one whose span holds the rank. */
  lemma {:induction false} FindHolds(rest: nat, k: nat, i: nat, m: nat)
    requires m <= k + 1 && i + Below(rest, k, m) < V(rest + 1, k)
    ensures var e := Find(rest, k, i, m);
      Abs(e.value) >= m &&
      Offset(rest, k, e.value) + e.left == i + Below(rest, k, m) &&
      e.left < V(rest, k - Abs(e.value))
    decreases k + 1 - m
  {
    hide V;
    if m > k {
      BlocksFill(rest, k);
    } else if i >= Span(m, V(rest, k - m)) {
      FindSkips(rest, k, i, m);
      hide *;
      FindHolds(rest, k, i - Span(m, V(rest, k - m)), m + 1);
    } else {
      FindStops(rest, k, i, m);
      hide *;
    }
  }

  lemma FindSkips(rest: nat, k: nat, i: nat, m: nat)
    requires m <= k && i >= Span(m, V(rest, k - m))
    ensures Find(rest, k, i, m) == Find(rest, k, i - Span(m, V(rest, k - m)), m + 1)
    ensures Below(rest, k, m + 1) == Below(rest, k, m) + Span(m, V(rest, k - m))
  {
    hide V;
    hide Span;
  }

  lemma FindStops(rest: nat, k: nat, i: nat, m: nat)
    requires m <= k && i < Span(m, V(rest, k - m))
    ensures var e := Find(rest, k, i, m);
      Abs(e.value) == m && Offset(rest, k, e.value) + e.left == i + Below(rest, k, m) &&
      e.left < V(rest, k - Abs(e.value))
  {
    hide V;
    hide Below;
  }

  /** And the span of an entry leads back to it. */
  lemma {:induction false} FindOffset(rest: nat, k: nat, value: int, left: nat, m: nat)
    requires m <= Abs(value) <= k && left < V(rest, k - Abs(value))
    ensures Offset(rest, k, value) + left >= Below(rest, k, m)
    ensures Find(rest, k, Offset(rest, k, value) + left - Below(rest, k, m), m) == Entry(value, left)
    decreases Abs(value) - m
  {
    hide V;
    if m < Abs(value) {
      hide Span;
      FindOffset(rest, k, value, left, m + 1);
    } else {
      FindHere(rest, k, value, left);
    }
  }

  lemma FindHere(rest: nat, k: nat, value: int, left: nat)
    requires Abs(value) <= k && left < V(rest, k - Abs(value))
    ensures Find(rest, k, (if value > 0 then V(rest, k - Abs(value)) else 0) + left, Abs(value)) == Entry(value, left)
  {
    hide V;
  }

  lemma FindEnds(rest: nat, k: nat, i: nat, m: nat)
    requires m > k
    ensures Find(rest, k, i, m) == Entry(0, i)
  {
  }

  /** One magnitude looked at: it holds the rank, or is passed over. */
  lemma FindStep(rest: nat, k: nat, i: nat, m: nat)
    requires m <= k
    ensures var ways := V(rest, k - m);
      Find(rest, k, i, m) ==
        if i >= Span(m, ways) then Find(rest, k, i - Span(m, ways), m + 1)
        else if m == 0 then Entry(0, i)
        else if i < ways then Entry(-(m as int), i)
        else Entry(m, i - ways)
  {
    hide V;
  }

  /** Every rank of the codebook names a vector of the codebook, and that vector has that rank. */
  lemma {:induction false} RankOfUnrank(n: nat, k: nat, i: nat)
    requires i < V(n, k)
    ensures InBook(Unrank(n, k, i), n, k)
    ensures Rank(Unrank(n, k, i)) == i
    decreases n
  {
    hide Find;
    hide Offset;
    hide Rank;
    hide L1;
    if n > 0 {
      RankStarts(n - 1, k, i);
      FindHolds(n - 1, k, i, 0);
      var e := Find(n - 1, k, i, 0);
      RankOfUnrank(n - 1, k - Abs(e.value), e.left);
      hide V;
      hide Below;
      var tail := Unrank(n - 1, k - Abs(e.value), e.left);
      RankOfCons(e.value, tail);
    } else {
      NoRank(k);
    }
  }

  lemma NoRank(k: nat)
    ensures Rank([]) == 0 && L1([]) == 0
    ensures V(0, k) > 0 ==> V(0, k) == 1 && k == 0
  {
  }

  lemma RankOfCons(value: int, tail: seq<int>)
    ensures L1([value] + tail) == Abs(value) + L1(tail)
    ensures Rank([value] + tail) == Offset(|tail|, Abs(value) + L1(tail), value) + Rank(tail)
  {
    hide Offset;
    assert ([value] + tail)[1..] == tail;
  }

  lemma RankStarts(rest: nat, k: nat, i: nat)
    ensures i + Below(rest, k, 0) == i
  {
  }

  /** Every vector is the one at its own rank. */
  lemma {:induction false} UnrankOfRank(y: seq<int>)
    ensures Unrank(|y|, L1(y), Rank(y)) == y
  {
    hide Find;
    hide Offset;
    if y != [] {
      var tail := y[1..];
      RankInRange(tail);
      RankStarts(|tail|, L1(y), Rank(y));
      hide V;
      hide Below;
      FindOffset(|tail|, L1(y), y[0], Rank(tail), 0);
      UnrankOfRank(tail);
      assert y == [y[0]] + tail;
    }
  }

  /** Two vectors of one codebook never share an index. */
  lemma RankInjective(y: seq<int>, z: seq<int>)
    requires |y| == |z| && L1(y) == L1(z) && Rank(y) == Rank(z)
    ensures y == z
  {
    UnrankOfRank(y);
    UnrankOfRank(z);
  }

  // --- V counts ---

  function Book(n: nat, k: nat, upTo: nat): (s: set<seq<int>>)
    requires upTo <= V(n, k)
  {
    if upTo == 0 then {} else Book(n, k, upTo - 1) + {Unrank(n, k, upTo - 1)}
  }

  lemma {:induction false} BookIsRanksBelow(n: nat, k: nat, upTo: nat)
    requires upTo <= V(n, k)
    ensures forall y :: y in Book(n, k, upTo) <==> InBook(y, n, k) && Rank(y) < upTo
    ensures |Book(n, k, upTo)| == upTo
  {
    hide Unrank;
    hide Rank;
    hide L1;
    if upTo > 0 {
      BookIsRanksBelow(n, k, upTo - 1);
      RankOfUnrank(n, k, upTo - 1);
      forall y | InBook(y, n, k) && Rank(y) == upTo - 1 ensures y == Unrank(n, k, upTo - 1) {
        RankInjective(y, Unrank(n, k, upTo - 1));
      }
    }
  }

  /** The recursion counts exactly the integer vectors of that length and norm. */
  lemma VCounts(n: nat, k: nat)
    ensures forall y :: y in Book(n, k, V(n, k)) <==> InBook(y, n, k)
    ensures |Book(n, k, V(n, k))| == V(n, k)
  {
    BookIsRanksBelow(n, k, V(n, k));
    forall y | InBook(y, n, k) ensures y in Book(n, k, V(n, k)) {
      RankInRange(y);
    }
  }

  // --- the loops, in 64 bits ---

  /** A codebook the table counts exactly. Its every sub-codebook is counted exactly too. */
  ghost predicate Countable(n: nat, k: nat) {
    n <= MAX_N && k <= MAX_K && V(n, k) <= U64_MAX
  }

  lemma SubCountable(rest: nat, k: nat, m: nat)
    requires Countable(rest + 1, k) && m <= k
    ensures Countable(rest, k - m) && Count(rest, k - m) == V(rest, k - m)
    ensures Below(rest, k, m) + Span(m, V(rest, k - m)) <= V(rest + 1, k)
  {
    BlockFits(rest, k, m);
    BelowMonotone(rest, k, 0, m);
    if m == 0 {
      MoreRoom(rest, rest + 1, k);
    }
  }

  lemma L1Bounds(y: seq<int>, p: nat)
    requires p < |y|
    ensures Abs(y[p]) <= L1(y[p..]) && L1(y[p..]) == Abs(y[p]) + L1(y[p + 1..])
  {
    assert y[p..][1..] == y[p + 1..];
  }

  /** The offset of one entry, magnitude by magnitude; no sum leaves 64 bits. */
  method OffsetOf(rest: nat, k: nat, value: int) returns (i: U64)
    requires Countable(rest + 1, k) && Abs(value) <= k
    ensures i == Offset(rest, k, value)
  {
    hide V;
    var magnitude := Abs(value);
    i := 0;
    for smaller := 0 to magnitude
      invariant i == Below(rest, k, smaller)
    {
      SubCountable(rest, k, smaller);
      var ways: U64 := Count(rest, k - smaller);
      var block: U64 := if smaller == 0 then ways else 2 * ways;
      i := i + block;
    }
    SubCountable(rest, k, magnitude);
    if magnitude > 0 && value > 0 {
      var ways: U64 := Count(rest, k - magnitude);
      i := i + ways;
    }
  }

  lemma CountIs(n: nat, k: nat)
    requires Countable(n, k)
    ensures Count(n, k) == V(n, k)
  {
  }

  /** The position of `y` in the canonical ordering of its codebook. */
  method Index(y: seq<int>) returns (i: U64)
    requires Countable(|y|, L1(y))
    ensures i == Rank(y) && i < Count(|y|, L1(y))
  {
    hide V;
    hide Offset;
    var k := SumOf(y);
    i := 0;
    RankInRange(y);
    CountIs(|y|, L1(y));
    assert y[0..] == y;
    for position := 0 to |y|
      invariant k == L1(y[position..]) && Countable(|y| - position, k)
      invariant i + Rank(y[position..]) == Rank(y)
    {
      var tail := y[position..];
      L1Bounds(y, position);
      assert tail[1..] == y[position + 1..];
      var rest := |y| - position - 1;
      var magnitude := Abs(y[position]);
      var offset := OffsetOf(rest, k, y[position]);
      SubCountable(rest, k, magnitude);
      assert Rank(tail) == Offset(rest, k, y[position]) + Rank(y[position + 1..]);
      i := i + offset;
      k := k - magnitude;
    }
  }

  method SumOf(y: seq<int>) returns (k: nat)
    ensures k == L1(y)
  {
    k := 0;
    assert y[0..] == y;
    for p := 0 to |y|
      invariant k + L1(y[p..]) == L1(y)
    {
      L1Bounds(y, p);
      k := k + Abs(y[p]);
    }
  }

  /** One entry of a vector being recovered. */
  method FindEntry(rest: nat, k: nat, start: U64) returns (value: int, left: U64)
    requires Countable(rest + 1, k)
    ensures Entry(value, left) == Find(rest, k, start, 0)
  {
    value := 0;
    left := start;
    var magnitude := 0;
    hide Find;
    hide V;
    while true
      invariant magnitude <= k && value == 0
      invariant Find(rest, k, left, magnitude) == Find(rest, k, start, 0)
      decreases k - magnitude
    {
      SubCountable(rest, k, magnitude);
      FindStep(rest, k, left, magnitude);
      hide Count;
      hide Countable;
      hide Below;
      var ways: U64 := Count(rest, k - magnitude);
      var block: U64 := if magnitude == 0 then ways else 2 * ways;
      if left < block {
        if magnitude > 0 {
          if left < ways {
            value := -magnitude;
          } else {
            value := magnitude;
            left := left - ways;
          }
        }
        return;
      }
      left := left - block;
      magnitude := magnitude + 1;
      if magnitude > k {
        FindEnds(rest, k, left, magnitude);
        return;
      }
    }
  }

  /**
   * The vector at position `i`. Any 64 bit index at all yields a vector of
   * length n with at most k pulses; an index inside the codebook, exactly k.
   */
  method Deindex(n: nat, k: nat, i: U64) returns (y: seq<int>)
    requires Countable(n, k)
    ensures y == Unrank(n, k, i)
    ensures |y| == n && L1(y) <= k
    ensures i < Count(n, k) ==> InBook(y, n, k) && Rank(y) == i
  {
    if i < Count(n, k) {
      RankOfUnrank(n, k, i);
    }
    y := Walk(n, k, i);
  }

  method Walk(n: nat, k: nat, i: U64) returns (y: seq<int>)
    requires Countable(n, k)
    ensures y == Unrank(n, k, i)
  {
    hide V;
    hide Find;
    hide Countable;
    hide Unrank;
    hide L1;
    y := [];
    var pulses: nat, left: U64 := k, i;
    for position := 0 to n
      invariant Countable(n - position, pulses)
      invariant y + Unrank(n - position, pulses, left) == Unrank(n, k, i)
    {
      var rest: nat := n - position - 1;
      UnrankStep(y, rest, pulses, left);
      var value, next := FindEntry(rest, pulses, left);
      SubCountable(rest, pulses, Abs(value));
      y := y + [value];
      pulses := pulses - Abs(value);
      left := next;
    }
    NothingLeft(y, pulses, left);
  }

  lemma UnrankStep(y: seq<int>, rest: nat, k: nat, i: nat)
    ensures var e := Find(rest, k, i, 0);
      y + Unrank(rest + 1, k, i) == (y + [e.value]) + Unrank(rest, k - Abs(e.value), e.left)
  {
    hide Find;
    var e := Find(rest, k, i, 0);
    var tail := Unrank(rest, k - Abs(e.value), e.left);
    assert Unrank(rest + 1, k, i) == [e.value] + tail;
    Snoc(y, e.value, tail);
  }

  lemma Snoc(y: seq<int>, x: int, tail: seq<int>)
    ensures y + ([x] + tail) == (y + [x]) + tail
  {
  }

  lemma NothingLeft(y: seq<int>, k: nat, i: nat)
    ensures y + Unrank(0, k, i) == y
  {
  }
}
