/** Integer helpers: averages, medians and interpolation in machine arithmetic. */
module IntMath {
  import opened Basics
  import opened Arith
  import opened BigMath

  // ---- Parts per million ----

  /** Rounds down; `None` stands for the overflow panic, which happens exactly when the product does not fit. */
  method MulPpm(t: IntType, x: int, ppm: nat) returns (r: Option<int>)
    requires InRange(t, x) && InRange(Uint32, ppm)
    ensures r.Some? <==> InRange(t, x * ppm / 1_000_000)
    ensures r.Some? ==> IsFloor(r.value, x * ppm, 1_000_000)
  {
    var product := BigIntMulPpm(x, ppm);
    EuclideanIsFloor(x * ppm, 1_000_000);
    FloorUnique(product, x * ppm / 1_000_000, x * ppm, 1_000_000);
    r := if InRange(t, product) then Some(product) else None;
  }

  function AbsDiffUint64(x: nat, y: nat): (d: nat)
    ensures x + d == y || y + d == x
  {
    if x > y then x - y else y - x
  }

  /** How far the interpolation has moved from `v0`. */
  function Travel(v0: nat, v1: nat, cPpm: nat): nat {
    AbsDiffUint64(v0, v1) * cPpm / 1_000_000
  }

  function Interpolated(v0: nat, v1: nat, cPpm: nat): int {
    if v0 > v1 then v0 - Travel(v0, v1, cPpm) else v0 + Travel(v0, v1, cPpm)
  }

  lemma TravelBounded(v0: nat, v1: nat, cPpm: nat)
    requires cPpm <= 1_000_000
    ensures Travel(v0, v1, cPpm) <= AbsDiffUint64(v0, v1)
  {
    var d := AbsDiffUint64(v0, v1);
    MulMonotone(cPpm, 1_000_000, d);
    EuclideanIsFloor(d * cPpm, 1_000_000);
  }

  /** Never panics: an out-of-range `cPpm` is an error, every other one gives a value between `v0` and `v1`. */
  method Uint64LinearInterpolate(v0: nat, v1: nat, cPpm: nat) returns (r: Option<int>)
    requires InRange(Uint64, v0) && InRange(Uint64, v1) && InRange(Uint32, cPpm)
    ensures r.None? <==> cPpm > 1_000_000
    ensures r.Some? ==> r.value == Interpolated(v0, v1, cPpm) && InRange(Uint64, r.value)
    ensures r.Some? ==> v0 <= r.value <= v1 || v1 <= r.value <= v0
    ensures r.Some? ==> IsFloor(Abs(r.value - v0), Abs(v1 - v0) * cPpm, 1_000_000)
  {
    if cPpm > 1_000_000 {
      return None;
    }
    TravelBounded(v0, v1, cPpm);
    var absDelta := MulPpm(Uint64, AbsDiffUint64(v0, v1), cPpm);
    assert absDelta.Some?;
    ghost var product := AbsDiffUint64(v0, v1) * cPpm;
    EuclideanIsFloor(product, 1_000_000);
    FloorUnique(absDelta.value, product / 1_000_000, product, 1_000_000);
    if v0 > v1 {
      r := Some(Wrap(Uint64, v0 - absDelta.value));
    } else {
      r := Some(Wrap(Uint64, v0 + absDelta.value));
    }
  }

  /** A larger constant never moves less, and the two ends are hit exactly. */
  lemma InterpolationMonotone(v0: nat, v1: nat, c: nat, c': nat)
    requires c <= c' <= 1_000_000
    ensures v0 <= v1 ==> Interpolated(v0, v1, c) <= Interpolated(v0, v1, c')
    ensures v0 >= v1 ==> Interpolated(v0, v1, c) >= Interpolated(v0, v1, c')
    ensures Interpolated(v0, v1, 0) == v0 && Interpolated(v0, v1, 1_000_000) == v1
  {
    var d := AbsDiffUint64(v0, v1);
    MulMonotone(c, c', d);
    DivModUnique(d * 1_000_000, 1_000_000, d, 0);
    EuclideanIsFloor(d * c, 1_000_000);
    EuclideanIsFloor(d * c', 1_000_000);
    Between(d * c / 1_000_000, d * c' / 1_000_000, d * c', 1_000_000);
  }

  // ---- Average ----

  const MAX_LENGTH: nat := 0x1_0000_0000

  function Sum(s: seq<int>): int {
    if s == [] then 0 else Sum(s[..|s| - 1]) + s[|s| - 1]
  }

  predicate Within(s: seq<int>, lo: int, hi: int) {
    forall i :: 0 <= i < |s| ==> lo <= s[i] <= hi
  }

  lemma {:induction false} SumWithin(s: seq<int>, lo: int, hi: int)
    requires Within(s, lo, hi)
    ensures |s| * lo <= Sum(s) <= |s| * hi
  {
    if s == [] {
    } else {
      var n := |s| - 1;
      SumWithin(s[..n], lo, hi);
      assert (n + 1) * lo == n * lo + lo && (n + 1) * hi == n * hi + hi;
    }
  }

  /** A sum is the sum of its parts, down to single entries. */
  lemma {:induction false} SumSplit(a: seq<int>, b: seq<int>)
    ensures Sum(a + b) == Sum(a) + Sum(b)
    ensures |b| == 1 ==> Sum(b) == b[0]
    decreases |b|
  {
    if b == [] {
      assert a + b == a;
    } else {
      var n := |b| - 1;
      assert (a + b)[..|a + b| - 1] == a + b[..n];
      SumSplit(a, b[..n]);
      assert |b| == 1 ==> b[..n] == [];
    }
  }

  predicate Int32s(s: seq<int>) {
    Within(s, -TWO_31, TWO_31 - 1)
  }

  /** The running sum fits in 64 bits at every length the code accepts. */
  lemma SumFits(s: seq<int>)
    requires Int32s(s) && |s| <= MAX_LENGTH
    ensures InRange(Int64, Sum(s))
  {
    SumWithin(s, -TWO_31, TWO_31 - 1);
  }

  /** The bound is tight: at full length the lowest sum is the lowest 64-bit value, and one more entry would not fit. */
  lemma SumTight(n: nat)
    requires n == MAX_LENGTH || n == MAX_LENGTH + 1
    ensures var s := seq(n, i => -TWO_31);
            Int32s(s) && (Sum(s) == Lowest(Int64) <==> n == MAX_LENGTH) && (InRange(Int64, Sum(s)) <==> n == MAX_LENGTH)
  {
    var s := seq(n, i => -TWO_31);
    SumWithin(s, -TWO_31, -TWO_31);
  }

  /** `None` stands for a panic: a list too long, or an empty one (division by zero). The overflow panic on the
      result is unreachable. */
  method AvgInt32(nums: seq<int>) returns (r: Option<int>)
    requires Int32s(nums)
    ensures r.None? <==> nums == [] || |nums| > MAX_LENGTH
    ensures r.Some? ==> r.value == Quo(Sum(nums), |nums|) && InRange(Int32, r.value)
  {
    var sum := 0;
    if |nums| > MAX_LENGTH {
      return None;
    }
    for i := 0 to |nums|
      invariant sum == Sum(nums[..i])
    {
      assert nums[..i + 1][..i] == nums[..i];
      SumFits(nums[..i + 1]);
      sum := Wrap(Int64, sum + nums[i]);
    }
    assert nums[..|nums|] == nums;
    if nums == [] {
      return None;
    }
    AverageBetween(nums, -TWO_31, TWO_31 - 1);
    var avg := Quo(sum, |nums|);
    if avg > TWO_31 - 1 || avg < -TWO_31 {
      assert false;
    }
    r := Some(avg);
  }

  /** The average lies between any bounds of the entries, so between the least and the greatest. */
  lemma AverageBetween(s: seq<int>, lo: int, hi: int)
    requires s != [] && Within(s, lo, hi)
    ensures lo <= Quo(Sum(s), |s|) <= hi
  {
    SumWithin(s, lo, hi);
    Truncates(Sum(s), |s|);
    Bracketed(Quo(Sum(s), |s|), Rem(Sum(s), |s|), |s|, lo, hi);
  }

  lemma Bracketed(q: int, r: int, n: nat, lo: int, hi: int)
    requires Abs(r) < n && n * lo <= q * n + r <= n * hi
    ensures lo <= q <= hi
  {
    Between(lo, q, q * n + r, n);
    Between(q, hi, q * n + r + n - 1, n);
  }

  // ---- Median ----

  predicate Sorted(s: seq<int>) {
    forall i, j :: 0 <= i < j < |s| ==> s[i] <= s[j]
  }

  predicate SameElements(s: seq<int>, t: seq<int>) {
    multiset(s) == multiset(t)
  }

  /** `v` is the element at rank `k` when `s` is put in order. */
  ghost predicate Ranked(s: seq<int>, k: nat, v: int) {
    exists t: seq<int> :: Sorted(t) && SameElements(s, t) && k < |t| && t[k] == v
  }

  /** `m` is the mean of `x` and `y`, a half being rounded away from zero. */
  predicate MeanAway(m: int, x: int, y: int) {
    || 2 * m == x + y
    || (x + y > 0 && 2 * m == x + y + 1)
    || (x + y < 0 && 2 * m == x + y - 1)
  }

  /** `m` is the median of `s`. */
  ghost predicate IsMedian(s: seq<int>, m: int) {
    var mid := |s| / 2;
    if |s| % 2 == 1 then Ranked(s, mid, m)
    else mid > 0 && exists x, y :: Ranked(s, mid - 1, x) && Ranked(s, mid, y) && MeanAway(m, x, y)
  }

  /** The first `n + 1` elements are in order but for the one at `j`, which is not above those after it. */
  ghost predicate Sinking(s: seq<int>, n: nat, j: nat) {
    && j <= n < |s|
    && (forall i, k :: 0 <= i < k <= n && k != j && i != j ==> s[i] <= s[k])
    && (forall k :: j < k <= n ==> s[j] <= s[k])
  }

  function SwapDown(s: seq<int>, j: nat): seq<int>
    requires 0 < j < |s|
  {
    s[j - 1 := s[j]][j := s[j - 1]]
  }

  lemma SinkStep(s: seq<int>, n: nat, j: nat)
    requires Sinking(s, n, j) && 0 < j && s[j - 1] > s[j]
    ensures Sinking(SwapDown(s, j), n, j - 1) && SameElements(SwapDown(s, j), s)
  {
  }

  lemma SunkIsSorted(s: seq<int>, n: nat, j: nat)
    requires Sinking(s, n, j) && (j == 0 || s[j - 1] <= s[j])
    ensures Sorted(s[..n + 1])
  {
  }

  /** Moves the element at `n` down to its place in the ordered prefix below it. */
  method Sink(a: array<int>, n: nat)
    requires n < a.Length && Sorted(a[..n])
    modifies a
    ensures Sorted(a[..n + 1]) && SameElements(a[..], old(a[..]))
  {
    var j := n;
    assert forall i :: 0 <= i < n ==> a[..n][i] == a[..][i];
    while j > 0 && a[j - 1] > a[j]
      invariant 0 <= j <= n && Sinking(a[..], n, j)
      invariant SameElements(a[..], old(a[..]))
    {
      SinkStep(a[..], n, j);
      ghost var next := SwapDown(a[..], j);
      a[j - 1], a[j] := a[j], a[j - 1];
      assert a[..] == next;
      j := j - 1;
    }
    SunkIsSorted(a[..], n, j);
    assert a[..][..n + 1] == a[..n + 1];
  }

  /** Puts the array in order in place, by insertion; any sort gives the same result. */
  method SortSlice(a: array<int>)
    modifies a
    ensures Sorted(a[..]) && SameElements(a[..], old(a[..]))
  {
    for n := 0 to a.Length
      invariant Sorted(a[..n]) && SameElements(a[..], old(a[..]))
    {
      Sink(a, n);
    }
    assert a[..a.Length] == a[..];
  }

  /** The exact median, or an error for an empty input. */
  method Median(t: IntType, input: seq<int>) returns (r: Option<int>)
    requires forall i :: 0 <= i < |input| ==> InRange(t, input[i])
    ensures r.None? <==> input == []
    ensures r.Some? ==> InRange(t, r.value) && IsMedian(input, r.value)
  {
    var l := |input|;
    if l == 0 {
      return None;
    }
    var inputCopy := new int[l](i requires 0 <= i < l => input[i]);
    assert inputCopy[..] == input;
    SortSlice(inputCopy);
    forall i: nat | i < l
      ensures InRange(t, inputCopy[i])
    {
      ElementsKept(inputCopy[..], input, i);
    }
    var midIdx := l / 2;
    if l % 2 == 1 {
      return Some(inputCopy[midIdx]);
    }
    var x := inputCopy[midIdx - 1];
    var y := inputCopy[midIdx];
    MiddleExact(t, x, y);
    r := Some(Middle(t, x, y));
  }

  lemma ElementsKept(s: seq<int>, t: seq<int>, i: nat)
    requires SameElements(s, t) && i < |s|
    ensures s[i] in t
  {
    assert s[i] in multiset(s);
  }

  /** The rounded mean of the two middle elements, every step in the width of the input. */
  function Middle(t: IntType, x: int, y: int): int {
    if x <= 0 && y >= 0 then
      var sum := Wrap(t, x + y);
      Wrap(t, Wrap(t, Quo(sum, 2)) + Wrap(t, Rem(sum, 2)))
    else if y > 0 then
      Wrap(t, y - Wrap(t, Quo(Wrap(t, y - x), 2)))
    else
      Wrap(t, x + Wrap(t, Quo(Wrap(t, y - x), 2)))
  }

  /** Halving the sum of two numbers on either side of zero, and what is left. */
  lemma HalvesAcross(x: int, y: int)
    requires x <= 0 <= y
    ensures x <= x + y <= y && x <= Quo(x + y, 2) <= y && x <= Rem(x + y, 2) <= y
    ensures var m := Quo(x + y, 2) + Rem(x + y, 2); MeanAway(m, x, y) && x <= m <= y
  {
  }

  /** Moving half the gap from the end further from zero. */
  lemma HalvesAside(x: int, y: int)
    requires x <= y
    ensures var h := Quo(y - x, 2); 0 <= h <= y - x
    ensures x > 0 ==> MeanAway(y - Quo(y - x, 2), x, y)
    ensures y < 0 ==> MeanAway(x + Quo(y - x, 2), x, y)
  {
  }

  lemma RangeAroundZero(t: IntType, x: int, y: int, v: int)
    requires InRange(t, x) && InRange(t, y)
    ensures x <= v <= y ==> InRange(t, v)
    ensures 0 <= v <= y || 0 <= v < -x ==> InRange(t, v)
  {
  }

  /** No step of it overflows. */
  lemma MiddleExact(t: IntType, x: int, y: int)
    requires InRange(t, x) && InRange(t, y) && x <= y
    ensures MeanAway(Middle(t, x, y), x, y) && InRange(t, Middle(t, x, y))
  {
    if x <= 0 && y >= 0 {
      HalvesAcross(x, y);
      RangeAroundZero(t, x, y, x + y);
      RangeAroundZero(t, x, y, Quo(x + y, 2));
      RangeAroundZero(t, x, y, Rem(x + y, 2));
      RangeAroundZero(t, x, y, Quo(x + y, 2) + Rem(x + y, 2));
    } else {
      MiddleAside(t, x, y, Quo(y - x, 2));
    }
  }

  lemma MiddleAside(t: IntType, x: int, y: int, h: int)
    requires InRange(t, x) && InRange(t, y) && x <= y && (x > 0 || y < 0) && h == Quo(y - x, 2)
    ensures MeanAway(Middle(t, x, y), x, y) && InRange(t, Middle(t, x, y))
  {
    HalvesAside(x, y);
    RangeAroundZero(t, x, y, y - x);
    RangeAroundZero(t, x, y, h);
    RangeAroundZero(t, x, y, y - h);
    RangeAroundZero(t, x, y, x + h);
  }

  // ---- Order decides everything ----

  lemma {:induction false} SortedUnique(s: seq<int>, t: seq<int>)
    requires Sorted(s) && Sorted(t) && SameElements(s, t)
    ensures s == t
  {
    SameLength(s, t);
    if s == [] {
    } else {
      var n := |s| - 1;
      SameLast(s, t, n);
      WithoutLast(s, n);
      WithoutLast(t, n);
      SortedUnique(s[..n], t[..n]);
      assert s == s[..n] + [s[n]] && t == t[..n] + [t[n]];
    }
  }

  lemma SameLast(s: seq<int>, t: seq<int>, n: nat)
    requires Sorted(s) && Sorted(t) && SameElements(s, t) && |s| == |t| == n + 1
    ensures s[n] == t[n]
  {
    ElementsKept(s, t, n);
    ElementsKept(t, s, n);
  }

  lemma WithoutLast(s: seq<int>, n: nat)
    requires Sorted(s) && |s| == n + 1
    ensures Sorted(s[..n])
    ensures multiset(s[..n]) == multiset(s) - multiset{s[n]}
  {
    assert s == s[..n] + [s[n]];
  }

  lemma SameLength(s: seq<int>, t: seq<int>)
    requires SameElements(s, t)
    ensures |s| == |t|
  {
    assert |multiset(s)| == |s| && |multiset(t)| == |t|;
  }

  /** A rearranged input has the same median, and there is only one. */
  lemma MedianOfPermutation(s: seq<int>, t: seq<int>, m: int, m': int)
    requires SameElements(s, t) && IsMedian(s, m) && IsMedian(t, m')
    ensures m == m'
  {
    SameLength(s, t);
    var mid := |s| / 2;
    if |s| % 2 == 1 {
      RankUnique(s, t, mid, m, m');
    } else {
      var x, y :| Ranked(s, mid - 1, x) && Ranked(s, mid, y) && MeanAway(m, x, y);
      var x', y' :| Ranked(t, mid - 1, x') && Ranked(t, mid, y') && MeanAway(m', x', y');
      RankUnique(s, t, mid - 1, x, x');
      RankUnique(s, t, mid, y, y');
    }
  }

  lemma RankUnique(s: seq<int>, t: seq<int>, k: nat, v: int, w: int)
    requires SameElements(s, t) && Ranked(s, k, v) && Ranked(t, k, w)
    ensures v == w
  {
    var a: seq<int> :| Sorted(a) && SameElements(s, a) && k < |a| && a[k] == v;
    var b: seq<int> :| Sorted(b) && SameElements(t, b) && k < |b| && b[k] == w;
    SortedUnique(a, b);
  }
}
