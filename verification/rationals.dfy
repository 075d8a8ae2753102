/**
 * The rational arithmetic behind `float_to_rational`: `fractions.Fraction` in
 * lowest terms and its `limit_denominator` method, the continued-fraction
 * algorithm of Python's standard library.  Fractions here are non-negative,
 * because `float_to_rational` only ever builds `Fraction(abs(value))`.
 */
module Rationals {

  /** A non-negative fraction `num/den`, the pair that `pyexiv2.Rational` stores. */
  datatype Ratio = Ratio(num: nat, den: nat)

  function Value(r: Ratio): real
    requires r.den > 0
  {
    r.num as real / r.den as real
  }

  function AbsReal(x: real): real
  {
    if x < 0.0 then -x else x
  }

  /** Distance between the value of `r` and the value of `x`. */
  function Error(r: Ratio, x: Ratio): real
    requires r.den > 0 && x.den > 0
  {
    AbsReal(Value(r) - Value(x))
  }

  // ---------------------------------------------------------------------------
  // Divisibility and the greatest common divisor
  // ---------------------------------------------------------------------------

  ghost predicate Divides(k: nat, x: nat)
  {
    exists m: nat :: x == k * m
  }

  /** `num/den` is in lowest terms: no common divisor above 1. */
  ghost predicate Reduced(num: nat, den: nat)
  {
    forall k: nat :: Divides(k, num) && Divides(k, den) ==> k <= 1
  }

  lemma MulAtLeast(k: nat, t: int)
    requires t >= 1
    ensures k * t >= k
  {
  }

  lemma MulMonotone(k: nat, x: int, y: int)
    requires x <= y
    ensures k * x <= k * y
  {
    if x < y {
      MulAtLeast(k, y - x);
    }
  }

  lemma MulDivCancel(k: nat, m: nat)
    requires k > 0
    ensures (k * m) / k == m
  {
    var x := k * m;
    var q, r := x / k, x % k;
    assert k * (m - q) == r;
    if m - q >= 1 {
      MulAtLeast(k, m - q);
    } else if q - m >= 1 {
      MulAtLeast(k, q - m);
    }
  }

  lemma DividesSum(g: nat, q: nat, i: nat, j: nat)
    ensures q * (g * i) + g * j == g * (q * i + j)
  {
  }

  lemma DividesDifference(c: nat, q: nat, i: nat, j: nat)
    ensures c * i - q * (c * j) == c * (i - q * j)
  {
  }

  lemma ProductSign(c: nat, t: int)
    requires c > 0 && c * t >= 0
    ensures t >= 0
  {
    if t < 0 {
      MulAtLeast(c, -t);
    }
  }

  lemma DividesStep(a: nat, b: nat, g: nat)
    requires b > 0 && Divides(g, b) && Divides(g, a % b)
    ensures Divides(g, a)
  {
    var i: nat :| b == g * i;
    var j: nat :| a % b == g * j;
    var q := a / b;
    assert a == q * b + a % b;
    DividesSum(g, q, i, j);
    assert a == g * (q * i + j);
  }

  /** Euclid's algorithm, as `fractions.gcd` computes it for non-negative arguments. */
  function Gcd(a: nat, b: nat): (g: nat)
    ensures Divides(g, a) && Divides(g, b)
    ensures a > 0 || b > 0 ==> g > 0
    decreases b
  {
    if b == 0 then
      assert a == a * 1 && 0 == a * 0;
      a
    else
      var g := Gcd(b, a % b);
      DividesStep(a, b, g);
      g
  }

  lemma {:induction false} GcdGreatest(c: nat, a: nat, b: nat)
    requires c > 0 && Divides(c, a) && Divides(c, b)
    ensures Divides(c, Gcd(a, b))
    decreases b
  {
    if b != 0 {
      DividesRemainder(c, a, b);
      GcdGreatest(c, b, a % b);
    }
  }

  /** A common divisor of `a` and `b` divides `a % b`. */
  lemma DividesRemainder(c: nat, a: nat, b: nat)
    requires c > 0 && b > 0 && Divides(c, a) && Divides(c, b)
    ensures Divides(c, a % b)
  {
    var i: nat :| a == c * i;
    var j: nat :| b == c * j;
    var q := a / b;
    assert a % b == a - q * b;
    DividesDifference(c, q, i, j);
    ProductSign(c, i - q * j);
    assert a % b == c * (i - q * j);
  }

  lemma DivExact(g: nat, x: nat)
    requires g > 0 && Divides(g, x)
    ensures x == g * (x / g)
  {
    var i: nat :| x == g * i;
    MulDivCancel(g, i);
  }

  /**
   * `Fraction(num, den)`: the same value in lowest terms (the constructor
   * divides both parts by their greatest common divisor).
   */
  function Normalize(num: nat, den: nat): (r: Ratio)
    requires den > 0
    ensures r.den > 0 && r.den <= den && Reduced(r.num, r.den)
    ensures num * r.den == r.num * den
  {
    var g := Gcd(num, den);
    DivExact(g, num);
    DivExact(g, den);
    NormalizedIsReduced(num, den, g, num / g, den / g);
    NormalizedValue(num, den, g, num / g, den / g);
    Ratio(num / g, den / g)
  }

  lemma NormalizedValue(num: nat, den: nat, g: nat, i: nat, j: nat)
    requires den > 0 && g > 0 && num == g * i && den == g * j
    ensures 0 < j <= den && num * j == i * den
  {
    assert j != 0;
    MulAtLeast(g, j);
    assert j <= den by { MulAtLeast(j, g); }
  }

  lemma NormalizedIsReduced(num: nat, den: nat, g: nat, i: nat, j: nat)
    requires den > 0 && g == Gcd(num, den) && num == g * i && den == g * j
    ensures Reduced(i, j)
  {
    forall k: nat | Divides(k, i) && Divides(k, j)
      ensures k <= 1
    {
      if k > 1 {
        var a: nat :| i == k * a;
        var b: nat :| j == k * b;
        ScaledDivisor(num, g, k, a);
        ScaledDivisor(den, g, k, b);
        GcdGreatest(g * k, num, den);
        var m: nat :| g == (g * k) * m;
        LargerMultiple(g, k, m);
      }
    }
  }

  lemma ScaledDivisor(x: nat, g: nat, k: nat, a: nat)
    requires x == g * (k * a)
    ensures Divides(g * k, x)
  {
    assert x == (g * k) * a;
  }

  /** A positive `g` is no multiple of `g * k` for `k > 1`. */
  lemma LargerMultiple(g: nat, k: nat, m: nat)
    requires g > 0 && k > 1
    ensures (g * k) * m != g
  {
    if m > 0 {
      MulAtLeast(g * k, m);
      assert g * k == g + g * (k - 1);
      MulAtLeast(g, k - 1);
    }
  }

  // ---------------------------------------------------------------------------
  // limit_denominator
  // ---------------------------------------------------------------------------

  /**
   * The loop state of `limit_denominator` for the target `n0/d0`: `p0/q0` and
   * `p1/q1` are the last two convergents, adjacent (their determinant is plus
   * or minus one), and `n`, `d` the current pair of Euclid's remainders, so
   * that `n0 == p1*n + p0*d` and `d0 == q1*n + q0*d`.
   */
  ghost predicate LoopState(n0: nat, d0: nat, maxDen: nat, p0: nat, q0: nat, p1: nat, q1: nat, n: nat, d: nat)
  {
    && 1 <= maxDen < d0 && Reduced(n0, d0)
    && d > 0 && q0 <= maxDen && q1 <= maxDen
    && n0 == p1 * n + p0 * d
    && d0 == q1 * n + q0 * d
    && (p1 * q0 == p0 * q1 + 1 || p0 * q1 == p1 * q0 + 1)
  }

  /**
   * The `while True` loop of `limit_denominator` and the choice that follows
   * it: expand the continued fraction until the next convergent's denominator
   * would exceed `maxDen`, then return the nearer of the last convergent and
   * the best semiconvergent.
   */
  function Expand(n0: nat, d0: nat, maxDen: nat, p0: nat, q0: nat, p1: nat, q1: nat, n: nat, d: nat): (r: Ratio)
    requires LoopState(n0, d0, maxDen, p0, q0, p1, q1, n, d)
    ensures 1 <= r.den <= maxDen
    ensures Error(r, Ratio(n0, d0)) < 1.0 / maxDen as real
    decreases d
  {
    var a := n / d;
    if q0 + a * q1 > maxDen then
      Settle(n0, d0, maxDen, p0, q0, p1, q1, n, d, a)
    else
      var p2, q2 := Shifted(p0, a, p1), Shifted(q0, a, q1);
      NextState(n0, d0, maxDen, p0, q0, p1, q1, n, d, a, n % d, p2, q2);
      Expand(n0, d0, maxDen, p1, q1, p2, q2, d, n % d)
  }

  /** `x0 + a * x1`, the recurrence of the convergents' numerators and denominators. */
  function Shifted(x0: nat, a: nat, x1: nat): nat
  {
    x0 + a * x1
  }

  /**
   * After the loop: the last convergent `p1/q1`, unless the best
   * semiconvergent `(p0 + k*p1)/(q0 + k*q1)` with `k = (maxDen - q0) // q1`
   * is strictly nearer to the target.
   */
  function Settle(n0: nat, d0: nat, maxDen: nat, p0: nat, q0: nat, p1: nat, q1: nat, n: nat, d: nat,
                  a: nat): (r: Ratio)
    requires LoopState(n0, d0, maxDen, p0, q0, p1, q1, n, d)
    requires a == n / d && q0 + a * q1 > maxDen
    ensures 1 <= r.den <= maxDen
    ensures Error(r, Ratio(n0, d0)) < 1.0 / maxDen as real
  {
    PositiveFactor(a, q1, q0 + a * q1 - q0);
    var k := (maxDen - q0) / q1;
    SemiconvergentDenominator(maxDen, q0, q1, k);
    var bound1 := Ratio(Shifted(p0, k, p1), Shifted(q0, k, q1));
    var bound2 := Ratio(p1, q1);
    ConvergentError(n0, d0, maxDen, p0, q0, p1, q1, n, d, a);
    Nearer(bound2, bound1, Ratio(n0, d0))
  }

  lemma PositiveFactor(a: nat, q: nat, s: int)
    requires s == a * q && s > 0
    ensures q >= 1
  {
  }

  /** `bound2` unless `bound1` is strictly nearer to `x`. */
  function Nearer(bound2: Ratio, bound1: Ratio, x: Ratio): (r: Ratio)
    requires bound2.den > 0 && bound1.den > 0 && x.den > 0
    ensures r == bound2 || r == bound1
    ensures Error(r, x) <= Error(bound2, x) && Error(r, x) <= Error(bound1, x)
  {
    if Error(bound2, x) <= Error(bound1, x) then bound2 else bound1
  }

  lemma SemiconvergentDenominator(maxDen: nat, q0: nat, q1: nat, k: int)
    requires q0 <= maxDen && 1 <= q1 <= maxDen && k == (maxDen - q0) / q1
    ensures k >= 0 && 1 <= q0 + k * q1 <= maxDen
  {
    var s := maxDen - q0;
    var r := s % q1;
    assert s == q1 * k + r && 0 <= r < q1;
    ProductSign(q1, k + 1);
    if q0 == 0 {
      assert k >= 1;
      MulAtLeast(q1, k);
    } else {
      assert k * q1 >= 0;
    }
  }

  lemma ShiftIdentity(p0: nat, p1: nat, a: nat, d: nat, r: nat)
    ensures (p0 + a * p1) * d + p1 * r == p1 * (a * d + r) + p0 * d
  {
  }

  lemma DeterminantFlips(p0: nat, q0: nat, p1: nat, q1: nat, a: nat)
    ensures (p0 + a * p1) * q1 - p1 * (q0 + a * q1) == p0 * q1 - p1 * q0
  {
  }

  /** One more round of the loop, with partial quotient `a` and remainder `r` of `n` by `d`, keeps `LoopState`. */
  lemma NextState(n0: nat, d0: nat, maxDen: nat, p0: nat, q0: nat, p1: nat, q1: nat, n: nat, d: nat,
                  a: nat, r: nat, p2: nat, q2: nat)
    requires LoopState(n0, d0, maxDen, p0, q0, p1, q1, n, d)
    requires a == n / d && r == n % d
    requires p2 == p0 + a * p1 && q2 == q0 + a * q1 && q2 <= maxDen
    ensures r < d && LoopState(n0, d0, maxDen, p1, q1, p2, q2, d, r)
  {
    EuclidStep(n, d, a, r);
    ShiftIdentity(p0, p1, a, d, r);
    ShiftIdentity(q0, q1, a, d, r);
    DeterminantFlips(p0, q0, p1, q1, a);
    DeterminantFlips(q0, p0, q1, p1, a);
    assert n0 == p2 * d + p1 * r;
    assert d0 == q2 * d + q1 * r;
    assert r > 0 by {
      if r == 0 {
        // d divides both n0 and d0, which are coprime, so d == 1 and then
        // d0 == q2 <= maxDen, contradicting maxDen < d0.
        CommonFactorIsOne(n0, d0, p2, q2, d);
      }
    }
  }

  lemma EuclidStep(n: nat, d: nat, a: nat, r: nat)
    requires d > 0 && a == n / d && r == n % d
    ensures n == a * d + r && r < d
  {
  }

  lemma CommonFactorIsOne(n0: nat, d0: nat, p: nat, q: nat, d: nat)
    requires Reduced(n0, d0) && n0 == p * d && d0 == q * d
    ensures d <= 1
  {
    assert n0 == d * p && d0 == d * q;
    assert Divides(d, n0) && Divides(d, d0);
  }

  lemma ErrorNumerator(n0: nat, d0: nat, p0: nat, q0: nat, p1: nat, q1: nat, n: nat, d: nat)
    requires n0 == p1 * n + p0 * d && d0 == q1 * n + q0 * d
    ensures n0 * q1 - p1 * d0 == d * (p0 * q1 - p1 * q0)
  {
  }

  /**
   * At the exit of the loop the last convergent `p1/q1` is within
   * `1/(q1*(maxDen+1))` of the target, so strictly within `1/maxDen`.
   */
  lemma ConvergentError(n0: nat, d0: nat, maxDen: nat, p0: nat, q0: nat, p1: nat, q1: nat, n: nat, d: nat,
                        a: nat)
    requires LoopState(n0, d0, maxDen, p0, q0, p1, q1, n, d)
    requires a == n / d && q0 + a * q1 > maxDen && q1 >= 1
    ensures Error(Ratio(p1, q1), Ratio(n0, d0)) < 1.0 / maxDen as real
  {
    var e := n0 * q1 - p1 * d0;
    ErrorNumerator(n0, d0, p0, q0, p1, q1, n, d);
    var det := p0 * q1 - p1 * q0;
    UnitMultiple(d, det);
    var absE := if e < 0 then -e else e;
    ExitBound(d0, maxDen, q0, q1, n, d, a);
    IntegerErrorBound(p1, q1, n0, d0, e, absE, maxDen);
  }

  lemma UnitMultiple(d: nat, t: int)
    requires t == 1 || t == -1
    ensures (if d * t < 0 then -(d * t) else d * t) == d
  {
  }

  lemma ExitBound(d0: nat, maxDen: nat, q0: nat, q1: nat, n: nat, d: nat, a: nat)
    requires d > 0 && a == n / d && d0 == q1 * n + q0 * d
    requires q0 + a * q1 > maxDen && q1 >= 1
    ensures d * maxDen < d0 * q1
  {
    assert n >= a * d;
    MulMonotone(q1, a * d, n);
    assert d0 >= d * (q1 * a + q0);
    MulMonotone(d, maxDen + 1, q1 * a + q0);
    MulAtLeast(d0, q1);
  }

  /** The real-valued error of `p/q` against `n0/d0` from the integer `e = n0*q - p*d0`. */
  lemma IntegerErrorBound(p: nat, q: nat, n0: nat, d0: nat, e: int, absE: nat, maxDen: nat)
    requires q > 0 && d0 > 0 && maxDen > 0
    requires e == n0 * q - p * d0 && absE == (if e < 0 then -e else e)
    requires absE * maxDen < d0 * q
    ensures Error(Ratio(p, q), Ratio(n0, d0)) < 1.0 / maxDen as real
  {
    var pr, qr, nr, dr := p as real, q as real, n0 as real, d0 as real;
    CastProduct(n0, q);
    CastProduct(p, d0);
    CastProduct(absE, maxDen);
    CastProduct(d0, q);
    FractionDifference(pr, qr, nr, dr);
    assert Value(Ratio(p, q)) - Value(Ratio(n0, d0)) == (-e) as real / (qr * dr);
    assert Error(Ratio(p, q), Ratio(n0, d0)) == absE as real / (qr * dr);
    BelowReciprocal(absE as real, qr * dr, maxDen as real);
  }

  lemma CastProduct(x: int, y: int)
    ensures (x * y) as real == x as real * y as real
  {
  }

  lemma FractionDifference(a: real, b: real, c: real, d: real)
    requires b > 0.0 && d > 0.0
    ensures a / b - c / d == (a * d - c * b) / (b * d)
  {
  }

  lemma BelowReciprocal(x: real, y: real, m: real)
    requires y > 0.0 && m > 0.0 && x * m < y
    ensures x / y < 1.0 / m
  {
  }

  /**
   * `Fraction(num, den).limit_denominator(maxDen)`: the fraction is first put
   * in lowest terms; if its denominator is small enough it is returned as it
   * is, otherwise the continued-fraction loop runs from the initial state
   * `p0, q0, p1, q1 = 0, 1, 1, 0`.
   */
  function LimitDenominator(x: Ratio, maxDen: nat): (r: Ratio)
    requires x.den > 0 && maxDen >= 1
    ensures 1 <= r.den <= maxDen
    ensures Error(r, x) < 1.0 / maxDen as real
    ensures x.den <= maxDen ==> Value(r) == Value(x)
  {
    var f := Normalize(x.num, x.den);
    SameValue(f, x);
    if f.den <= maxDen then
      assert Error(f, x) == 0.0;
      f
    else
      Expand(f.num, f.den, maxDen, 0, 1, 1, 0, f.num, f.den)
  }

  lemma SameValue(f: Ratio, x: Ratio)
    requires f.den > 0 && x.den > 0 && x.num * f.den == f.num * x.den
    ensures Value(f) == Value(x)
  {
    var a, b, c, d := f.num as real, f.den as real, x.num as real, x.den as real;
    assert c * b == a * d;
  }
}
