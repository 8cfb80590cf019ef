/** Conversions between base and quote quantums at an oracle price. */
module Quantums {
  import opened Basics
  import opened Arith
  import opened BigMath

  /** A quote quantum is a millionth of a quote coin. */
  const QUOTE_RESOLUTION: int := -6

  /** The scaling exponent, computed in 32-bit arithmetic. */
  function Exponent(baseResolution: int, priceExponent: int): int {
    Wrap(Int32, Wrap(Int32, priceExponent + baseResolution) - QUOTE_RESOLUTION)
  }

  /** The computed exponent is the real one exactly when the real one fits in 32 bits. */
  lemma ExponentExact(baseResolution: int, priceExponent: int)
    requires InRange(Int32, baseResolution) && InRange(Int32, priceExponent)
    ensures var e := priceExponent + baseResolution + 6;
            Exponent(baseResolution, priceExponent) == e <==> InRange(Int32, e)
  {
    var s := priceExponent + baseResolution;
    WrapOnce(s);
    WrapOnce(Wrap(Int32, s) - QUOTE_RESOLUTION);
  }

  /** A sum of two 32-bit values wraps at most once. */
  lemma WrapOnce(x: int)
    requires -UINT32 <= x < UINT32
    ensures Wrap(Int32, x) == if x < -TWO_31 then x + UINT32 else if x < TWO_31 then x else x - UINT32
  {
    DivModUnique(x + TWO_31, UINT32,
                 if x < -TWO_31 then -1 else if x < TWO_31 then 0 else 1,
                 if x < -TWO_31 then x + TWO_31 + UINT32 else if x < TWO_31 then x + TWO_31 else x + TWO_31 - UINT32);
  }

  /** `amount * price * 10^e`, towards zero. */
  function ToQuote(amount: int, price: nat, e: int): int {
    if e >= 0 then amount * price * Pow10(e) else Quo(amount * price, Pow10(-e))
  }

  /** `amount / (price * 10^e)` in a single division, towards zero. */
  function ToBase(amount: int, price: nat, e: int): int
    requires price > 0
  {
    if e >= 0 then
      Positive(Pow10(e), price);
      Quo(amount, Pow10(e) * price)
    else Quo(amount * Pow10(-e), price)
  }

  lemma Positive(a: nat, b: nat)
    requires a > 0 && b > 0
    ensures a * b > 0
  {
  }

  /** How many places the code shifts for an exponent: its size, except for the smallest exponent. */
  function Places(e: int): nat {
    AbsExponent(Int32, e)
  }

  lemma PlacesExact(e: int)
    requires InRange(Int32, e)
    ensures Places(e) == Abs(e) <==> e != -TWO_31
  {
    AbsExponentExact(Int32, e);
  }

  /** `e` stands for the 32-bit exponent. The smallest one shifts too many places. */
  method BaseToQuoteQuantums(memo: Memo, baseQuantums: int, baseResolution: int, price: nat, priceExponent: int)
      returns (numResult: int)
    requires Warm(memo) && InRange(Uint64, price)
    requires InRange(Int32, baseResolution) && InRange(Int32, priceExponent)
    ensures var e := Exponent(baseResolution, priceExponent);
            && (e != -TWO_31 ==> numResult == ToQuote(baseQuantums, price, e))
            && (e == -TWO_31 ==> numResult == Quo(baseQuantums * price, Pow10(Places(e))))
  {
    numResult := price;
    numResult := numResult * baseQuantums;
    var exponent := Exponent(baseResolution, priceExponent);
    PlacesExact(exponent);
    if exponent == 0 {
      return;
    }
    var (p10, inverse) := BigPow10(memo, Int32, exponent);
    if inverse {
      numResult := Quo(numResult, p10);
    } else {
      numResult := numResult * p10;
    }
  }

  /** A zero price divides by zero. The two divisions come to the single one of `ToBase`. */
  method QuoteToBaseQuantums(memo: Memo, quoteQuantums: int, baseResolution: int, price: nat, priceExponent: int)
      returns (result: int)
    requires Warm(memo) && InRange(Uint64, price) && price > 0
    requires InRange(Int32, baseResolution) && InRange(Int32, priceExponent)
    ensures var e := Exponent(baseResolution, priceExponent);
            && (e != -TWO_31 ==> result == ToBase(quoteQuantums, price, e))
            && (e == -TWO_31 ==> result == Quo(quoteQuantums * Pow10(Places(e)), price))
  {
    result := quoteQuantums;
    var exponent := Exponent(baseResolution, priceExponent);
    PlacesExact(exponent);
    var (p10, inverse) := BigPow10(memo, Int32, exponent);
    if inverse {
      result := result * p10;
    } else {
      QuoQuo(result, p10, price);
      result := Quo(result, p10);
    }
    result := Quo(result, price);
  }

  // ---- Truncated division ----

  /** Magnitude and sign of a truncated quotient. */
  lemma QuoSize(a: int, d: int)
    requires d > 0
    ensures Abs(Quo(a, d)) == Abs(a) / d
    ensures SameSide(Quo(a, d), a)
  {
  }

  /** `x` is zero or has the sign of `y`. */
  predicate SameSide(x: int, y: int) {
    x == 0 || Sign(x) == Sign(y)
  }

  lemma DivDiv(a: nat, d: nat, p: nat)
    requires d > 0 && p > 0
    ensures d * p > 0 && a / d / p == a / (d * p)
  {
    Positive(d, p);
    var q, r := a / d, a % d;
    var s, t := q / p, q % p;
    assert a == s * (d * p) + (t * d + r) by {
      assert a == q * d + r && q == s * p + t;
      assert (s * p + t) * d == s * (d * p) + t * d;
    }
    assert t * d + r < d * p by {
      MulMonotone(t, p - 1, d);
      assert (p - 1) * d == d * p - d;
    }
    DivModUnique(a, d * p, s, t * d + r);
  }

  lemma QuoQuo(a: int, d: int, p: int)
    requires d > 0 && p > 0
    ensures d * p > 0 && Quo(Quo(a, d), p) == Quo(a, d * p)
  {
    DivDiv(Abs(a), d, p);
    QuoSize(a, d);
    QuoSize(Quo(a, d), p);
    QuoSize(a, d * p);
  }

  // ---- Round trips ----

  /** The conversions on magnitudes. */
  function QuoteSize(n: int, price: nat, e: int): int {
    if e >= 0 then n * price * Pow10(e) else n * price / Pow10(-e)
  }

  function BaseSize(n: int, price: nat, e: int): int
    requires price > 0
  {
    if e >= 0 then
      Positive(Pow10(e), price);
      n / (Pow10(e) * price)
    else n * Pow10(-e) / price
  }

  lemma Sizes(amount: int, price: nat, e: int)
    requires price > 0
    ensures Abs(ToQuote(amount, price, e)) == QuoteSize(Abs(amount), price, e)
    ensures Abs(ToBase(amount, price, e)) == BaseSize(Abs(amount), price, e)
    ensures SameSide(ToQuote(amount, price, e), amount) && SameSide(ToBase(amount, price, e), amount)
  {
    Scaled(amount, price);
    if e >= 0 {
      Scaled(amount * price, Pow10(e));
      Positive(Pow10(e), price);
      QuoSize(amount, Pow10(e) * price);
    } else {
      QuoSize(amount * price, Pow10(-e));
      Scaled(amount, Pow10(-e));
      QuoSize(amount * Pow10(-e), price);
    }
  }

  lemma Scaled(a: int, k: nat)
    requires k > 0
    ensures Abs(a * k) == Abs(a) * k && Sign(a * k) == Sign(a)
  {
    if a < 0 {
      Negated(a, k);
      MulMonotone(a, -1, k);
    } else if a > 0 {
      MulMonotone(1, a, k);
    }
  }

  /** Multiplying up and dividing back loses nothing. */
  lemma TimesThenDivide(n: nat, k: nat)
    requires k > 0
    ensures n * k / k == n
  {
    DivModUnique(n * k, k, n, 0);
  }

  /** Scaling by `up/down` and back by `down/up`, each rounded down: never more, and less by under `down + up`. */
  lemma ThereAndBack(n: nat, up: nat, down: nat)
    requires up > 0 && down > 0
    ensures var back := n * up / down * down / up;
            back <= n && (n - back) * up < down + up
  {
    var there := n * up / down;
    var back := there * down / up;
    EuclideanIsFloor(n * up, down);
    EuclideanIsFloor(there * down, up);
    Between(back, n, n * up, up);
    assert (n - back) * up == n * up - back * up;
  }

  lemma BaseSizeTrip(n: nat, price: nat, e: int)
    requires price > 0
    ensures var back := BaseSize(QuoteSize(n, price, e), price, e);
            && back <= n
            && (e >= 0 ==> back == n)
            && (e < 0 ==> (n - back) * price < Pow10(-e) + price)
  {
    if e >= 0 {
      Positive(Pow10(e), price);
      assert n * price * Pow10(e) == n * (Pow10(e) * price);
      TimesThenDivide(n, Pow10(e) * price);
    } else {
      ThereAndBack(n, price, Pow10(-e));
    }
  }

  lemma QuoteSizeTrip(n: nat, price: nat, e: int)
    requires price > 0
    ensures var back := QuoteSize(BaseSize(n, price, e), price, e);
            && back <= n
            && (e >= 0 ==> n - back < Pow10(e) * price)
            && (e < 0 ==> (n - back) * Pow10(-e) < price + Pow10(-e))
  {
    if e >= 0 {
      var there := BaseSize(n, price, e);
      EuclideanIsFloor(n, Pow10(e) * price);
      assert there * price * Pow10(e) == there * (Pow10(e) * price);
    } else {
      ThereAndBack(n, Pow10(-e), price);
    }
  }

  /** `q` is `a / d` cut off towards zero. */
  predicate CutOff(q: int, a: int, d: int) {
    SameSide(q, a) && Abs(q) * d <= Abs(a) < Abs(q) * d + d
  }

  lemma QuoCutsOff(a: int, d: int)
    requires d > 0
    ensures CutOff(Quo(a, d), a, d)
  {
    QuoSize(a, d);
    EuclideanIsFloor(Abs(a), d);
  }

  /** Both conversions, said with multiplication only: up to the last quantum, quote quantums are base
      quantums times price times a power of ten, and the other way round. */
  lemma ConversionsExact(amount: int, price: nat, e: int)
    requires price > 0
    ensures e >= 0 ==> ToQuote(amount, price, e) == amount * price * Pow10(e)
    ensures e < 0 ==> CutOff(ToQuote(amount, price, e), amount * price, Pow10(-e))
    ensures e >= 0 ==> CutOff(ToBase(amount, price, e), amount, Pow10(e) * price)
    ensures e < 0 ==> CutOff(ToBase(amount, price, e), amount * Pow10(-e), price)
  {
    if e >= 0 {
      Positive(Pow10(e), price);
      QuoCutsOff(amount, Pow10(e) * price);
    } else {
      QuoCutsOff(amount * price, Pow10(-e));
      QuoCutsOff(amount * Pow10(-e), price);
    }
  }

  lemma SameSideTwice(x: int, y: int, z: int)
    requires SameSide(x, y) && SameSide(y, z)
    ensures SameSide(x, z)
    ensures Abs(x) == Abs(z) ==> x == z
  {
  }

  /** What going there and back may do to an amount: never grow, never change sign. */
  predicate Shrinks(back: int, amount: int) {
    Abs(back) <= Abs(amount) && SameSide(back, amount)
  }

  /** Base to quote and back: exact when the exponent is not negative, otherwise a bounded loss. */
  lemma BaseRoundTrip(base: int, price: nat, e: int, there: int, back: int)
    requires price > 0 && there == ToQuote(base, price, e) && back == ToBase(there, price, e)
    ensures Shrinks(back, base)
    ensures e >= 0 ==> back == base
    ensures e < 0 ==> (Abs(base) - Abs(back)) * price < Pow10(-e) + price
  {
    Sizes(base, price, e);
    Sizes(there, price, e);
    SameSideTwice(back, there, base);
    BaseSizeTrip(Abs(base), price, e);
  }

  /** Quote to base and back. */
  lemma QuoteRoundTrip(quote: int, price: nat, e: int, there: int, back: int)
    requires price > 0 && there == ToBase(quote, price, e) && back == ToQuote(there, price, e)
    ensures Shrinks(back, quote)
    ensures e >= 0 ==> Abs(quote) - Abs(back) < Pow10(e) * price
    ensures e < 0 ==> (Abs(quote) - Abs(back)) * Pow10(-e) < price + Pow10(-e)
  {
    Sizes(quote, price, e);
    Sizes(there, price, e);
    SameSideTwice(back, there, quote);
    QuoteSizeTrip(Abs(quote), price, e);
  }

  /** The comment promises rounding down. With a fraction to drop, that is what happens exactly for amounts
      that are not negative. */
  lemma RoundsDown(base: int, price: nat, e: int)
    requires price > 0 && e < 0
    ensures IsFloor(ToQuote(base, price, e), base * price, Pow10(-e))
            <==> base >= 0 || Rem(base * price, Pow10(-e)) == 0
  {
    Scaled(base, price);
    Truncates(base * price, Pow10(-e));
  }

  /** A tenth of a quantum below zero becomes zero, which is above it. */
  lemma RoundedTowardsZero()
    ensures ToQuote(-1, 1, -1) == 0 && !IsFloor(0, -1, Pow10(1))
  {
    assert Pow10(1) == 10;
  }
}
