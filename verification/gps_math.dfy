/**
 * The GPS math functions of `gg/utils.py`: degrees/minutes/seconds to decimal
 * degrees and back, the rational encoding of the seconds that photo metadata
 * needs, and the coordinate validity check.
 *
 * A finite Python float is an exact binary fraction, so a float that enters
 * the conversion to degrees/minutes/seconds is modelled by its exact value
 * `num/den`; the other functions take `real` values.
 */
module GpsMath {
  import opened Wrappers
  import opened Rationals

  /** A Python value passed where a coordinate is expected. */
  datatype PyValue =
    | PyNone
    | PyInt(i: int)        // type(v) is int
    | PyFloat(f: real)     // type(v) is float, finite
    | PyOther              // any other type: str, bool, long, Rational, ...

  predicate IsNumber(v: PyValue)
  {
    v.PyInt? || v.PyFloat?
  }

  function NumberValue(v: PyValue): real
    requires IsNumber(v)
  {
    if v.PyInt? then v.i as real else v.f
  }

  /**
   * `valid_coords(lat, lon)`: both values are an `int` or a `float` and lie
   * within the ranges of latitude and longitude.  Any other type, `None`
   * included, gives false instead of an exception.
   */
  function ValidCoords(lat: PyValue, lon: PyValue): (r: bool)
    ensures r <==> && IsNumber(lat) && IsNumber(lon)
                   && -90.0 <= NumberValue(lat) <= 90.0
                   && -180.0 <= NumberValue(lon) <= 180.0
    ensures lat.PyNone? || lon.PyNone? ==> !r
  {
    if !IsNumber(lat) then false
    else if !IsNumber(lon) then false
    else AbsReal(NumberValue(lat)) <= 90.0 && AbsReal(NumberValue(lon)) <= 180.0
  }

  // ---------------------------------------------------------------------------
  // Degrees, minutes, seconds
  // ---------------------------------------------------------------------------

  /** The hemisphere letters that make `dms_to_decimal` negative. */
  predicate IsSouthOrWest(c: char)
  {
    c == 'S' || c == 'W' || c == 's' || c == 'w'
  }

  /**
   * `dms_to_decimal(degrees, minutes, seconds, sign)`: the magnitude is
   * `degrees + minutes/60 + seconds/3600`, negated exactly when the first
   * character of `sign` is S, W, s or w.  An empty `sign` has no first
   * character: the source raises IndexError there, modelled as `None`.
   */
  function DmsToDecimal(degrees: real, minutes: real, seconds: real, sign: string): (r: Option<real>)
    ensures r.None? <==> sign == []
    ensures r.Some? && IsSouthOrWest(sign[0]) ==> r.value == -(degrees + minutes / 60.0 + seconds / 3600.0)
    ensures r.Some? && !IsSouthOrWest(sign[0]) ==> r.value == degrees + minutes / 60.0 + seconds / 3600.0
  {
    if sign == [] then None
    else
      var magnitude := degrees + minutes / 60.0 + seconds / 3600.0;
      Some(if IsSouthOrWest(sign[0]) then -magnitude else magnitude)
  }

  /** The exact value `num/den` of a finite Python float. */
  datatype Float = Float(num: int, den: nat)

  function RealOf(x: Float): real
    requires x.den > 0
  {
    x.num as real / x.den as real
  }

  function Abs(n: int): nat
  {
    if n < 0 then -n else n
  }

  /** The denominator bound `float_to_rational` passes to `limit_denominator`. */
  const MaxDenominator: nat := 99999

  /**
   * `float_to_rational(value)`: `Fraction(abs(value)).limit_denominator(99999)`
   * as a pyexiv2 Rational.  The denominator lies in 1..99999 and the value is
   * within 1/99999 of `abs(value)`; it is exact when `value` already has a
   * denominator within the bound.
   */
  function FloatToRational(x: Float): (r: Ratio)
    requires x.den > 0
    ensures 1 <= r.den <= MaxDenominator
    ensures AbsReal(Value(r) - AbsReal(RealOf(x))) < 1.0 / MaxDenominator as real
    ensures x.den <= MaxDenominator ==> Value(r) == AbsReal(RealOf(x))
  {
    var magnitude := Ratio(Abs(x.num), x.den);
    AbsValue(x);
    LimitDenominator(magnitude, MaxDenominator)
  }

  lemma AbsValue(x: Float)
    requires x.den > 0
    ensures Value(Ratio(Abs(x.num), x.den)) == AbsReal(RealOf(x))
  {
  }

  /** The list of three Rationals that `decimal_to_dms` returns. */
  datatype Dms = Dms(degrees: Ratio, minutes: Ratio, seconds: Ratio)

  /**
   * `decimal_to_dms(decimal)`: split `abs(decimal)` with `modf` into whole
   * degrees, whole minutes and the remaining seconds, the last encoded by
   * `float_to_rational`.  Whole degrees are the floor of `abs(decimal)`,
   * minutes are below 60, the seconds' denominator is at most 99999, and
   * converting the three back recovers `abs(decimal)` to within
   * 1/(99999*3600) degrees.
   */
  function DecimalToDms(x: Float): (r: Dms)
    requires x.den > 0
    ensures r.degrees.den == 1 && r.minutes.den == 1 && 1 <= r.seconds.den <= MaxDenominator
    ensures r.degrees.num as real <= AbsReal(RealOf(x)) < r.degrees.num as real + 1.0
    ensures r.minutes.num < 60
    ensures var fraction := AbsReal(RealOf(x)) - r.degrees.num as real;
            r.minutes.num as real <= fraction * 60.0 < r.minutes.num as real + 1.0
    ensures var fraction := AbsReal(RealOf(x)) - r.degrees.num as real;
            AbsReal(Value(r.seconds) - (fraction * 60.0 - r.minutes.num as real) * 60.0) < 1.0 / MaxDenominator as real
    ensures var back := DmsToDecimal(Value(r.degrees), Value(r.minutes), Value(r.seconds), " ");
            back.Some? && AbsReal(back.value - AbsReal(RealOf(x))) < 1.0 / (MaxDenominator as real * 3600.0)
  {
    var a := Abs(x.num);
    // modf(abs(decimal)): whole degrees and the remainder r1/den
    EuclideanDivision(a, x.den);
    var degrees, r1 := a / x.den, a % x.den;
    // modf(remainder * 60): whole minutes and the remainder r2/den
    EuclideanDivision(60 * r1, x.den);
    var minutes, r2 := (60 * r1) / x.den, (60 * r1) % x.den;
    var seconds := FloatToRational(Float(60 * r2, x.den));
    DmsFacts(x, a, degrees, r1, minutes, r2, seconds);
    MinutesAndSeconds(x, a, degrees, r1, minutes, r2, seconds);
    var r := Dms(Ratio(degrees, 1), Ratio(minutes, 1), seconds);
    DmsBack(x, r);
    r
  }

  /** The round trip of `DecimalToDms`, stated on the triple it returns. */
  lemma DmsBack(x: Float, r: Dms)
    requires x.den > 0 && r.degrees.den == 1 && r.minutes.den == 1 && r.seconds.den > 0
    requires AbsReal(r.degrees.num as real + r.minutes.num as real / 60.0 + Value(r.seconds) / 3600.0
                     - AbsReal(RealOf(x))) < 1.0 / (MaxDenominator as real * 3600.0)
    ensures var back := DmsToDecimal(Value(r.degrees), Value(r.minutes), Value(r.seconds), " ");
            back.Some? && AbsReal(back.value - AbsReal(RealOf(x))) < 1.0 / (MaxDenominator as real * 3600.0)
  {
    assert Value(r.degrees) == r.degrees.num as real && Value(r.minutes) == r.minutes.num as real;
  }

  /**
   * The minutes are the whole minutes of the fractional degree, and the
   * seconds encode what remains of it after those minutes.
   */
  lemma MinutesAndSeconds(x: Float, a: nat, degrees: nat, r1: nat, minutes: nat, r2: nat, seconds: Ratio)
    requires x.den > 0 && a == Abs(x.num)
    requires degrees == a / x.den && r1 == a % x.den
    requires minutes == (60 * r1) / x.den && r2 == (60 * r1) % x.den
    requires seconds == FloatToRational(Float(60 * r2, x.den))
    ensures var fraction := AbsReal(RealOf(x)) - degrees as real;
            && minutes as real <= fraction * 60.0 < minutes as real + 1.0
            && AbsReal(Value(seconds) - (fraction * 60.0 - minutes as real) * 60.0) < 1.0 / MaxDenominator as real
  {
    var D := x.den as real;
    EuclideanDivision(a, x.den);
    EuclideanDivision(60 * r1, x.den);
    AbsValue(x);
    assert AbsReal(RealOf(x)) == a as real / D;
    RealSplit(a, x.den, degrees, r1);
    RealSplit(60 * r1, x.den, minutes, r2);
    FractionBelowOne(r2, x.den);
    ScaledFraction(60, r1, x.den);
    ScaledFraction(60, r2, x.den);
    var fraction := AbsReal(RealOf(x)) - degrees as real;
    assert fraction == r1 as real / D;
    assert fraction * 60.0 == minutes as real + r2 as real / D;
    assert (fraction * 60.0 - minutes as real) * 60.0 == (60 * r2) as real / D;
    assert AbsReal(RealOf(Float(60 * r2, x.den))) == (60 * r2) as real / D;
  }

  lemma DmsFacts(x: Float, a: nat, degrees: nat, r1: nat, minutes: nat, r2: nat, seconds: Ratio)
    requires x.den > 0 && a == Abs(x.num)
    requires degrees == a / x.den && r1 == a % x.den
    requires minutes == (60 * r1) / x.den && r2 == (60 * r1) % x.den
    requires seconds == FloatToRational(Float(60 * r2, x.den))
    ensures degrees as real <= AbsReal(RealOf(x)) < degrees as real + 1.0
    ensures minutes < 60
    ensures AbsReal(degrees as real + minutes as real / 60.0 + Value(seconds) / 3600.0 - AbsReal(RealOf(x)))
            < 1.0 / (MaxDenominator as real * 3600.0)
  {
    EuclideanDivision(a, x.den);
    EuclideanDivision(60 * r1, x.den);
    SplitIsExact(a, x.den, degrees, r1, minutes, r2);
    AbsValue(x);
    var exact := (60 * r2) as real / x.den as real;
    assert AbsReal(RealOf(Float(60 * r2, x.den))) == exact;
    SecondsError(degrees as real, minutes as real, exact, Value(seconds), AbsReal(RealOf(x)));
  }

  lemma EuclideanDivision(a: nat, den: nat)
    requires den > 0
    ensures 0 <= a / den && 0 <= a % den < den
    ensures a == (a / den) * den + a % den
  {
  }

  /**
   * The two `modf` steps lose nothing: `a/den` is exactly degrees, plus
   * minutes over 60, plus the remaining seconds `60*r2/den` over 3600.
   */
  lemma SplitIsExact(a: nat, den: nat, degrees: nat, r1: nat, minutes: nat, r2: nat)
    requires den > 0
    requires a == degrees * den + r1 && r1 < den
    requires 60 * r1 == minutes * den + r2 && r2 < den
    ensures minutes < 60
    ensures degrees as real <= a as real / den as real < degrees as real + 1.0
    ensures a as real / den as real
         == degrees as real + minutes as real / 60.0 + (60 * r2) as real / den as real / 3600.0
  {
    MinutesBelowSixty(den, r1, minutes, r2);
    var D := den as real;
    RealSplit(a, den, degrees, r1);
    RealSplit(60 * r1, den, minutes, r2);
    FractionBelowOne(r1, den);
    ScaledFraction(60, r1, den);
    ScaledFraction(60, r2, den);
    Sexagesimal(a as real / D, degrees as real, r1 as real / D, minutes as real, r2 as real / D);
  }

  lemma MinutesBelowSixty(den: nat, r1: nat, minutes: nat, r2: nat)
    requires den > 0 && r1 < den && 60 * r1 == minutes * den + r2
    ensures minutes < 60
  {
    if minutes >= 60 {
      MulMonotone(den, 60, minutes);
    }
  }

  lemma FractionBelowOne(r: nat, den: nat)
    requires r < den
    ensures 0.0 <= r as real / den as real < 1.0
  {
  }

  lemma ScaledFraction(k: nat, r: nat, den: nat)
    requires den > 0
    ensures (k * r) as real / den as real == k as real * (r as real / den as real)
  {
    assert (k * r) as real == k as real * r as real;
  }

  /** Degrees plus a fraction `f1`, whose sixty-fold is minutes plus a fraction `f2`. */
  lemma Sexagesimal(x: real, degrees: real, f1: real, minutes: real, f2: real)
    requires x == degrees + f1 && 60.0 * f1 == minutes + f2
    ensures x == degrees + minutes / 60.0 + 60.0 * f2 / 3600.0
  {
  }

  /** `x == q*den + r` read as reals: `x/den == q + r/den`. */
  lemma RealSplit(x: nat, den: nat, q: nat, r: nat)
    requires den > 0 && x == q * den + r
    ensures x as real / den as real == q as real + r as real / den as real
  {
    var D := den as real;
    assert x as real == q as real * D + r as real;
  }

  lemma SecondsError(degrees: real, minutes: real, exact: real, approx: real, target: real)
    requires target == degrees + minutes / 60.0 + exact / 3600.0
    requires AbsReal(approx - exact) < 1.0 / MaxDenominator as real
    ensures AbsReal(degrees + minutes / 60.0 + approx / 3600.0 - target)
            < 1.0 / (MaxDenominator as real * 3600.0)
  {
    assert degrees + minutes / 60.0 + approx / 3600.0 - target == (approx - exact) / 3600.0;
  }

  /**
   * Round trip with the hemisphere: converting `x` to degrees, minutes and
   * seconds and back with "S" for a negative `x` ("N" otherwise) recovers
   * `x` itself to within 1/(99999*3600) degrees.
   */
  lemma {:induction false} DmsRoundTrip(x: Float)
    requires x.den > 0
    ensures var t := DecimalToDms(x);
            var back := DmsToDecimal(Value(t.degrees), Value(t.minutes), Value(t.seconds),
                                     if x.num < 0 then "S" else "N");
            back.Some? && AbsReal(back.value - RealOf(x)) < 1.0 / (MaxDenominator as real * 3600.0)
  {
    var t := DecimalToDms(x);
    var unsigned := DmsToDecimal(Value(t.degrees), Value(t.minutes), Value(t.seconds), " ");
    NegativeFloat(x);
    Mirror(unsigned.value, RealOf(x), 1.0 / (MaxDenominator as real * 3600.0));
  }

  lemma NegativeFloat(x: Float)
    requires x.den > 0
    ensures RealOf(x) < 0.0 <==> x.num < 0
  {
  }

  /** A magnitude within `eps` of `abs(v)`, given the sign of `v`, is within `eps` of `v`. */
  lemma Mirror(m: real, v: real, eps: real)
    requires AbsReal(m - AbsReal(v)) < eps
    ensures v < 0.0 ==> AbsReal(-m - v) < eps
    ensures v >= 0.0 ==> AbsReal(m - v) < eps
  {
  }

  /** `decimal_to_dms` works on `abs(decimal)`: x and -x give the same triple. */
  lemma DecimalToDmsIgnoresSign(x: Float)
    requires x.den > 0
    ensures DecimalToDms(Float(-x.num, x.den)) == DecimalToDms(x)
  {
  }
}
