/** Arbitrary-precision helpers. Go's `Quo`/`Rem` truncate towards zero; `Div`/`Mod` are Euclidean,
    which is what Dafny's `/` and `%` are. */
module BigMath {
  import opened Basics
  import opened Arith

  function Abs(x: int): nat { if x < 0 then -x else x }

  function Sign(x: int): int { if x < 0 then -1 else if x == 0 then 0 else 1 }

  /** Truncated division. */
  function Quo(a: int, b: int): int
    requires b != 0
  {
    Sign(a) * Sign(b) * (Abs(a) / Abs(b))
  }

  function Rem(a: int, b: int): int
    requires b != 0
  {
    a - Quo(a, b) * b
  }

  // ---- Floor and ceiling, for divisors of either sign ----

  /** `q` is the greatest integer not above `a / b`. */
  predicate IsFloor(q: int, a: int, b: int)
    requires b != 0
  {
    if b > 0 then q * b <= a < q * b + b else q * b >= a > q * b + b
  }

  /** `q` is the least integer not below `a / b`. */
  predicate IsCeil(q: int, a: int, b: int)
    requires b != 0
  {
    if b > 0 then q * b - b < a <= q * b else q * b - b > a >= q * b
  }

  lemma Between(p: int, q: int, a: int, b: int)
    requires b > 0 && p * b <= a < q * b + b
    ensures p <= q
  {
    assert (q + 1) * b == q * b + b;
    if q + 1 <= p {
      MulMonotone(q + 1, p, b);
    }
  }

  lemma Negated(q: int, b: int)
    ensures q * (-b) == -(q * b)
    ensures (-q) * b == -(q * b)
  {
  }

  lemma FloorUnique(p: int, q: int, a: int, b: int)
    requires b != 0 && IsFloor(p, a, b) && IsFloor(q, a, b)
    ensures p == q
  {
    if b > 0 {
      Between(p, q, a, b);
      Between(q, p, a, b);
    } else {
      Negated(p, b);
      Negated(q, b);
      Between(p, q, -a, -b);
      Between(q, p, -a, -b);
    }
  }

  lemma CeilIsNegatedFloor(q: int, a: int, b: int)
    requires b != 0
    ensures IsCeil(q, a, b) <==> IsFloor(-q, -a, b)
  {
    Negated(q, b);
  }

  lemma CeilUnique(p: int, q: int, a: int, b: int)
    requires b != 0 && IsCeil(p, a, b) && IsCeil(q, a, b)
    ensures p == q
  {
    CeilIsNegatedFloor(p, a, b);
    CeilIsNegatedFloor(q, a, b);
    FloorUnique(-p, -q, -a, b);
  }

  /** For a positive divisor Euclidean division is the floor. */
  lemma EuclideanIsFloor(a: int, b: int)
    requires b > 0
    ensures IsFloor(a / b, a, b)
  {
    assert a == (a / b) * b + a % b;
  }

  /** What truncation leaves over: less than the divisor, with the sign of the dividend. */
  lemma Truncates(a: int, b: int)
    requires b != 0
    ensures a == Quo(a, b) * b + Rem(a, b)
    ensures Abs(Rem(a, b)) < Abs(b)
    ensures Rem(a, b) == 0 || Sign(Rem(a, b)) == Sign(a)
  {
    var m := Abs(a) / Abs(b);
    EuclideanIsFloor(Abs(a), Abs(b));
    Negated(m, Abs(b));
  }

  method BigDivCeil(a: int, b: int) returns (result: int)
    requires b != 0
    ensures IsCeil(result, a, b)
  {
    result := Quo(a, b);
    var remainder := Rem(a, b);
    Truncates(a, b);
    if remainder != 0 && Sign(a) == Sign(b) {
      assert (result + 1) * b == result * b + b;
      result := result + 1;
    }
  }

  method BigDivFloor(a: int, b: int) returns (result: int)
    requires b != 0
    ensures IsFloor(result, a, b)
  {
    result := Quo(a, b);
    var remainder := Rem(a, b);
    Truncates(a, b);
    if remainder != 0 && Sign(a) != Sign(b) {
      assert (result - 1) * b == result * b - b;
      result := result - 1;
    }
  }

  /** `val * ppm / 1_000_000`, rounded as asked. */
  method BigMulPpm(val: int, ppm: int, roundUp: bool) returns (result: int)
    ensures if roundUp then IsCeil(result, val * ppm, 1_000_000) else IsFloor(result, val * ppm, 1_000_000)
  {
    result := val * ppm;
    if roundUp {
      result := BigDivCeil(result, 1_000_000);
    } else {
      EuclideanIsFloor(result, 1_000_000);
      result := result / 1_000_000;
    }
  }

  /** `input * ppm / 1_000_000`, always rounded down. */
  method BigIntMulPpm(input: int, ppm: nat) returns (result: int)
    requires ppm < UINT32
    ensures IsFloor(result, input * ppm, 1_000_000)
  {
    result := input * ppm;
    EuclideanIsFloor(result, 1_000_000);
    result := result / 1_000_000;
  }

  /** Rounds a fraction; a `big.Rat` keeps its denominator positive. */
  method BigRatRound(num: int, denom: int, roundUp: bool) returns (result: int)
    requires denom > 0
    ensures if roundUp then IsCeil(result, num, denom) else IsFloor(result, num, denom)
  {
    result := num / denom;
    var remainder := num % denom;
    EuclideanIsFloor(num, denom);
    assert num == result * denom + remainder;
    assert (result + 1) * denom == result * denom + denom;
    if remainder > 0 && roundUp {
      result := result + 1;
    }
  }

  // ---- Rounding to a multiple ----

  /** `r` is the greatest multiple of `m` that is not above `v`. */
  ghost predicate GreatestMultiple(r: int, v: int, m: int) {
    && (exists k :: r == k * m)
    && r <= v
    && forall k :: k * m <= v ==> k * m <= r
  }

  /** `r` is the least multiple of `m` that is not below `v`. */
  ghost predicate LeastMultiple(r: int, v: int, m: int) {
    && (exists k :: r == k * m)
    && v <= r
    && forall k :: v <= k * m ==> r <= k * m
  }

  lemma FloorGivesGreatest(q: int, v: int, m: int)
    requires m > 0 && q * m <= v < q * m + m
    ensures GreatestMultiple(q * m, v, m)
  {
    forall k | k * m <= v
      ensures k * m <= q * m
    {
      Between(k, q, v, m);
      MulMonotone(k, q, m);
    }
  }

  lemma CeilGivesLeast(q: int, v: int, m: int)
    requires m > 0 && q * m - m < v <= q * m
    ensures LeastMultiple(q * m, v, m)
  {
    forall k | v <= k * m
      ensures q * m <= k * m
    {
      assert (k - 1) * m == k * m - m && (q - 1) * m == q * m - m;
      Between(q - 1, k - 1, v - 1, m);
      MulMonotone(q, k, m);
    }
  }

  /** A non-positive multiple panics. */
  method BigIntRoundToMultiple(n: int, multiple: int, roundUp: bool) returns (result: int)
    requires multiple > 0
    ensures if roundUp then LeastMultiple(result, n, multiple) else GreatestMultiple(result, n, multiple)
  {
    result := n / multiple;
    var remainder := n % multiple;
    assert n == result * multiple + remainder;
    assert (result + 1) * multiple == result * multiple + multiple;
    if roundUp && remainder > 0 {
      result := result + 1;
    }
    if roundUp {
      CeilGivesLeast(result, n, multiple);
    } else {
      FloorGivesGreatest(result, n, multiple);
    }
    result := result * multiple;
  }

  lemma ExactOrFloor(q: int, v: int, m: int, r: int)
    requires m != 0 && v == q * m + r && 0 <= r < Abs(m)
    ensures GreatestMultiple(q * m, v, m)
    ensures r == 0 ==> LeastMultiple(q * m, v, m)
  {
    if m > 0 {
      FloorGivesGreatest(q, v, m);
    } else {
      FloorGivesGreatest(-q, v, -m);
      assert (-q) * (-m) == q * m;
      forall k | k * m <= v
        ensures k * m <= q * m
      {
        assert (-k) * (-m) == k * m;
      }
    }
  }

  lemma OneUp(q: int, v: int, m: int, r: int)
    requires m != 0 && v == q * m + r && 0 < r < Abs(m)
    ensures v + (m - r) == (q + 1) * m
    ensures LeastMultiple(v + (m - r), v, m) <==> m > 0
  {
    assert (q + 1) * m == q * m + m;
    if m > 0 {
      CeilGivesLeast(q + 1, v, m);
    }
  }

  /** What the code makes of the fraction `num / denom`: it rounds the floor of the value. */
  function Rounded(num: int, denom: int, multiple: int, roundUp: bool): int
    requires denom > 0 && multiple != 0
  {
    var v := num / denom;
    if roundUp && v % multiple != 0 then v + (multiple - v % multiple) else v - v % multiple
  }

  /** Rounding, as seen from the floor of the value. */
  lemma RoundsFloor(num: int, denom: int, multiple: int, roundUp: bool)
    requires denom > 0 && multiple != 0
    ensures var r := Rounded(num, denom, multiple, roundUp);
            && (!roundUp ==> GreatestMultiple(r, num / denom, multiple))
            && (roundUp ==>
                  (LeastMultiple(r, num / denom, multiple) <==> multiple > 0 || (num / denom) % multiple == 0))
  {
    var v := num / denom;
    var q, remainder := v / multiple, v % multiple;
    assert v == q * multiple + remainder;
    if roundUp && remainder != 0 {
      OneUp(q, v, multiple, remainder);
    } else {
      ExactOrFloor(q, v, multiple, remainder);
    }
  }

  // The same, for the fraction itself: `x` is not below `num / denom` when `num <= x * denom`.

  /** `r` is the greatest multiple of `m` that is not above the fraction. */
  ghost predicate GreatestUnder(r: int, num: int, denom: int, m: int) {
    && (exists k :: r == k * m)
    && r * denom <= num
    && forall k :: k * m * denom <= num ==> k * m <= r
  }

  /** `r` is the least multiple of `m` that is not below the fraction. */
  ghost predicate LeastOver(r: int, num: int, denom: int, m: int) {
    && (exists k :: r == k * m)
    && num <= r * denom
    && forall k :: num <= k * m * denom ==> r <= k * m
  }

  /** An integer is not above a fraction when it is not above its floor, and not below it when it is
      above its floor, or equal to an exact one. */
  lemma AgainstFraction(x: int, num: int, denom: int)
    requires denom > 0
    ensures x * denom <= num <==> x <= num / denom
    ensures num <= x * denom <==> num / denom < x || (num % denom == 0 && num / denom == x)
  {
    var v := num / denom;
    assert num == v * denom + num % denom;
    if x <= v {
      MulMonotone(x, v, denom);
      if x < v {
        MulMonotone(x + 1, v, denom);
        assert (x + 1) * denom == x * denom + denom;
      }
    } else {
      MulMonotone(v + 1, x, denom);
      assert (v + 1) * denom == v * denom + denom;
    }
  }

  /** Rounding down is right for every value. Rounding up is right exactly when the floor is no multiple
      and the multiple is positive, or the floor is a multiple and the value is an integer. */
  lemma RoundsFraction(num: int, denom: int, multiple: int, roundUp: bool)
    requires denom > 0 && multiple != 0
    ensures var r := Rounded(num, denom, multiple, roundUp);
            && (!roundUp ==> GreatestUnder(r, num, denom, multiple))
            && (roundUp ==>
                  (LeastOver(r, num, denom, multiple) <==>
                     if (num / denom) % multiple == 0 then num % denom == 0 else multiple > 0))
  {
    var r := Rounded(num, denom, multiple, roundUp);
    RoundsFloor(num, denom, multiple, roundUp);
    AgainstFraction(r, num, denom);
    if roundUp {
      if if (num / denom) % multiple == 0 then num % denom == 0 else multiple > 0 {
        LeastOfFloorSuffices(r, num, denom, multiple);
      } else {
        ShortOfFraction(num, denom, multiple);
      }
    } else {
      forall k | k * multiple * denom <= num
        ensures k * multiple <= r
      {
        AgainstFraction(k * multiple, num, denom);
      }
    }
  }

  lemma LeastOfFloorSuffices(r: int, num: int, denom: int, m: int)
    requires denom > 0 && m != 0 && LeastMultiple(r, num / denom, m) && num <= r * denom
    ensures LeastOver(r, num, denom, m)
  {
    forall k | num <= k * m * denom
      ensures r <= k * m
    {
      AgainstFraction(k * m, num, denom);
    }
  }

  lemma ShortOfFraction(num: int, denom: int, m: int)
    requires denom > 0 && m != 0
    requires if (num / denom) % m == 0 then num % denom != 0 else m < 0
    ensures Rounded(num, denom, m, true) * denom < num
  {
    AgainstFraction(Rounded(num, denom, m, true), num, denom);
  }

  /** For a positive multiple: rounding 11/2 up to a multiple of 5 gives 5. */
  lemma RoundedUpTooLow()
    ensures Rounded(11, 2, 5, true) == 5 && !LeastOver(5, 11, 2, 5)
  {
  }

  /** A zero multiple panics; a negative one is accepted. */
  method BigRatRoundToMultiple(num: int, denom: int, multiple: int, roundUp: bool) returns (valueInt: int)
    requires denom > 0 && multiple != 0
    ensures valueInt == Rounded(num, denom, multiple, roundUp)
    ensures !roundUp ==> GreatestUnder(valueInt, num, denom, multiple)
    ensures roundUp ==>
              (LeastOver(valueInt, num, denom, multiple) <==>
                 if (num / denom) % multiple == 0 then num % denom == 0 else multiple > 0)
  {
    valueInt := num / denom;
    var remainder := valueInt % multiple;
    if roundUp && remainder != 0 {
      valueInt := valueInt + (multiple - remainder);
    } else {
      valueInt := valueInt - remainder;
    }
    RoundsFraction(num, denom, multiple, roundUp);
  }

  /** When the multiple is positive, rounding a fraction is rounding its floor. */
  method RoundingsAgree(num: int, denom: int, multiple: int, roundUp: bool) returns (a: int, b: int)
    requires denom > 0 && multiple > 0
    ensures a == b && if roundUp then LeastMultiple(a, num / denom, multiple) else GreatestMultiple(a, num / denom, multiple)
  {
    a := BigRatRoundToMultiple(num, denom, multiple, roundUp);
    b := BigIntRoundToMultiple(num / denom, multiple, roundUp);
    RoundsFloor(num, denom, multiple, roundUp);
    var i :| a == i * multiple;
    var j :| b == j * multiple;
  }

  // ---- Powers of ten ----

  function Pow10(n: nat): (p: nat)
    ensures p > 0
  {
    if n == 0 then 1 else 10 * Pow10(n - 1)
  }

  lemma {:induction false} Pow10Add(a: nat, b: nat)
    ensures Pow10(a + b) == Pow10(a) * Pow10(b)
  {
    if b > 0 {
      Pow10Add(a, b - 1);
      assert Pow10(a) * (10 * Pow10(b - 1)) == 10 * (Pow10(a) * Pow10(b - 1));
    }
  }

  /** With `Pow10Add`, these fix every power. */
  lemma PowersOfTen()
    ensures Pow10(0) == 1 && Pow10(1) == 10
  {
  }

  lemma {:induction false} Pow10Grows(a: nat, b: nat)
    requires a < b
    ensures Pow10(a) < Pow10(b)
  {
    if a < b - 1 {
      Pow10Grows(a, b - 1);
    }
  }

  type Memo = map<nat, nat>

  const MEMO_SIZE: nat := 100

  /** The memo holds exactly the powers below `n`. */
  ghost predicate HoldsBelow(memo: Memo, n: nat) {
    && (forall i: nat :: i in memo <==> i < n)
    && (forall i: nat :: i in memo ==> memo[i] == Pow10(i))
  }

  ghost predicate Warm(memo: Memo) {
    HoldsBelow(memo, MEMO_SIZE)
  }

  /** Halving recursion over the memo. */
  function Pow10Helper(memo: Memo, exponent: nat): (p: nat)
    requires Warm(memo)
    ensures p == Pow10(exponent)
  {
    if exponent in memo then memo[exponent]
    else
      var e1 := exponent / 2;
      var e2 := exponent - e1;
      Pow10Add(e1, e2);
      Pow10Helper(memo, e1) * Pow10Helper(memo, e2)
  }

  predicate IsDigits(s: string) {
    s != [] && forall i :: 0 <= i < |s| ==> '0' <= s[i] <= '9'
  }

  /** The number a digit string stands for. */
  function Decimal(s: string): nat
    requires IsDigits(s)
  {
    (if |s| == 1 then 0 else 10 * Decimal(s[..|s| - 1])) + (s[|s| - 1] as int - '0' as int)
  }

  lemma AppendZero(digits: string)
    requires IsDigits(digits)
    ensures IsDigits(digits + "0") && Decimal(digits + "0") == 10 * Decimal(digits)
  {
    var longer := digits + "0";
    assert longer[..|longer| - 1] == digits;
  }

  lemma OneMore(memo: Memo, i: nat)
    requires HoldsBelow(memo, i)
    ensures HoldsBelow(memo[i := Pow10(i)], i + 1)
  {
  }

  /** Fills the memo by parsing "1", "10", "100", ... */
  method WarmCache() returns (memo: Memo)
    ensures Warm(memo) && forall i: nat :: i in memo <==> i < 100
  {
    var digits := "1";
    memo := map[];
    var i := 0;
    while i < MEMO_SIZE
      invariant i <= MEMO_SIZE
      invariant IsDigits(digits) && Decimal(digits) == Pow10(i)
      invariant HoldsBelow(memo, i)
    {
      OneMore(memo, i);
      memo := memo[i := Decimal(digits)];
      AppendZero(digits);
      digits := digits + "0";
      i := i + 1;
    }
  }

  // ---- Exponents of the machine integer types ----

  datatype IntType = Int32 | Int64 | Uint32 | Uint64

  const TWO_31: int := 0x8000_0000
  const TWO_63: int := 0x8000_0000_0000_0000
  const TWO_64: int := 0x1_0000_0000_0000_0000

  function Lowest(t: IntType): int {
    match t case Int32 => -TWO_31 case Int64 => -TWO_63 case Uint32 => 0 case Uint64 => 0
  }

  function Span(t: IntType): int {
    match t case Int32 => UINT32 case Int64 => TWO_64 case Uint32 => UINT32 case Uint64 => TWO_64
  }

  predicate InRange(t: IntType, x: int) {
    Lowest(t) <= x < Lowest(t) + Span(t)
  }

  /** Two's-complement wrap-around. */
  function Wrap(t: IntType, x: int): (r: int)
    ensures InRange(t, r)
    ensures InRange(t, x) ==> r == x
  {
    if InRange(t, x) then x else (x - Lowest(t)) % Span(t) + Lowest(t)
  }

  /** Wrapping changes a number by a multiple of the type's span only. */
  lemma WrapCongruent(t: IntType, x: int)
    ensures exists k :: Wrap(t, x) == x + k * Span(t)
  {
    if InRange(t, x) {
      assert Wrap(t, x) == x + 0 * Span(t);
    } else {
      var y := x - Lowest(t);
      assert y == (y / Span(t)) * Span(t) + y % Span(t);
      assert Wrap(t, x) == x + (-(y / Span(t))) * Span(t);
    }
  }

  /** The absolute exponent as the code computes it: negated in its own type, then converted to 64 bits. */
  function AbsExponent(t: IntType, e: int): nat {
    if e < 0 then Wrap(t, -e) % TWO_64 else e
  }

  function BigPow10(memo: Memo, t: IntType, e: int): (r: (nat, bool))
    requires Warm(memo) && InRange(t, e)
  {
    (Pow10Helper(memo, AbsExponent(t, e)), e < 0)
  }

  lemma AbsExponentExact(t: IntType, e: int)
    requires InRange(t, e)
    ensures AbsExponent(t, e) == Abs(e) <==> !(t == Int32 && e == -TWO_31)
  {
  }

  /** The result is 10^|e| for every exponent of every type except the smallest 32-bit one. */
  lemma BigPow10Exact(memo: Memo, t: IntType, e: int)
    requires Warm(memo) && InRange(t, e)
    ensures BigPow10(memo, t, e).0 == Pow10(Abs(e)) <==> !(t == Int32 && e == -TWO_31)
    ensures BigPow10(memo, t, e).1 <==> e < 0
  {
    AbsExponentExact(t, e);
    var n := AbsExponent(t, e);
    if n < Abs(e) {
      Pow10Grows(n, Abs(e));
    } else if Abs(e) < n {
      Pow10Grows(Abs(e), n);
    }
  }

  /** `input * 10^e`, rounded as asked when `e` is negative. The smallest 32-bit exponent divides by too
      high a power. */
  method BigIntMulPow10(memo: Memo, input: int, t: IntType, e: int, roundUp: bool) returns (result: int)
    requires Warm(memo) && InRange(t, e)
    ensures e >= 0 ==> result == input * Pow10(e)
    ensures var places := AbsExponent(t, e);
            && (e < 0 ==> if roundUp then IsCeil(result, input, Pow10(places)) else IsFloor(result, input, Pow10(places)))
            && (places == Abs(e) <==> !(t == Int32 && e == -TWO_31))
  {
    AbsExponentExact(t, e);
    var (p10, inverse) := BigPow10(memo, t, e);
    if inverse {
      if roundUp {
        result := BigDivCeil(input, p10);
      } else {
        EuclideanIsFloor(input, p10);
        result := input / p10;
      }
    } else {
      result := p10 * input;
    }
  }
}
