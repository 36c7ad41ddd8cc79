/**
 * Real-number stand-ins for the parts of java.lang.Math the core uses.
 * Doubles are modelled as reals; the transcendental functions are left
 * uninterpreted and passed around as one record, with only the facts the
 * proofs need stated in Valid().
 */
module RealMath {

  /** Math.PI. */
  const Pi: real := 3.141592653589793

  /** Math.sin, Math.cos, Math.sqrt and Math.atan2, uninterpreted. */
  datatype Elementary = Elementary(
    sin: real -> real,
    cos: real -> real,
    sqrt: real -> real,
    atan2: (real, real) -> real)
  {
    /** The only facts assumed of the four functions. */
    ghost predicate Valid() {
      && (forall x :: 0.0 <= x ==> 0.0 <= sqrt(x) && sqrt(x) * sqrt(x) == x)
      && (forall t :: sin(t) * sin(t) + cos(t) * cos(t) == 1.0)
    }
  }

  /** Math.toRadians. */
  function ToRadians(deg: real): real { deg / 180.0 * Pi }

  /** Math.toDegrees. */
  function ToDegrees(rad: real): real { rad * 180.0 / Pi }

  function Abs(x: real): real { if x < 0.0 then -x else x }

  function Min(a: real, b: real): real { if a <= b then a else b }

  function Max(a: real, b: real): real { if a <= b then b else a }

  /** (int) Math.floor(x), ignoring the saturation of the int cast. */
  function Floor(x: real): (n: int)
    ensures n as real <= x < n as real + 1.0
  {
    x.Floor
  }

  /** (int) Math.ceil(x), ignoring the saturation of the int cast. */
  function Ceil(x: real): (n: int)
    ensures n as real - 1.0 < x <= n as real
  {
    -((-x).Floor)
  }

  /** Clamping to [0, 1] as two successive ifs, greater-than first. */
  function Clamp01(x: real): (r: real)
    ensures 0.0 <= r <= 1.0
    ensures 0.0 <= x <= 1.0 ==> r == x
  {
    var y := if x > 1.0 then 1.0 else x;
    if y < 0.0 then 0.0 else y
  }

  lemma Clamp01Monotone(x: real, y: real)
    requires x <= y
    ensures Clamp01(x) <= Clamp01(y)
  {
  }

  /** Java's % on doubles: the remainder of truncating division, signed like the dividend. */
  function JavaRem(a: real, m: real): (r: real)
    requires m > 0.0
    ensures -m < r < m
    ensures 0.0 <= a ==> 0.0 <= r
    ensures a <= 0.0 ==> r <= 0.0
    ensures -m < a < m ==> r == a
    ensures IsMultiple(a - r, m)
  {
    var q := a / m;
    var t := if q >= 0.0 then q.Floor else -((-q).Floor);
    TruncationBounds(a, m, q, t);
    assert a - (a - Times(t, m)) == Times(t, m);
    a - Times(t, m)
  }

  function Times(k: int, m: real): real { k as real * m }

  /** d is an integer multiple of m. */
  ghost predicate IsMultiple(d: real, m: real) {
    exists k: int :: d == Times(k, m)
  }

  lemma MulPositive(x: real, y: real)
    requires 0.0 < x && 0.0 < y
    ensures 0.0 < x * y
  {
  }

  lemma MulNonNegative(x: real, y: real)
    requires 0.0 <= x && 0.0 <= y
    ensures 0.0 <= x * y
  {
  }

  /** Only zero squares to zero (shown through the reciprocal, which keeps the solver linear). */
  lemma SquareZero(p: real)
    ensures 0.0 <= p * p
    ensures p * p == 0.0 ==> p == 0.0
  {
    if p != 0.0 {
      var r := 1.0 / p;
      assert p * r == 1.0;
      assert (p * p) * r == p * (p * r) == p;
    }
  }

  /** A sum of two squares vanishes exactly when both terms do. */
  lemma SumOfSquaresZero(p: real, q: real)
    ensures 0.0 <= p * p + q * q
    ensures p * p + q * q == 0.0 <==> p == 0.0 && q == 0.0
  {
    SquareZero(p);
    SquareZero(q);
  }

  /** A fraction in [0, 1) of a positive m lies in [0, m). */
  lemma FractionOf(f: real, m: real)
    requires 0.0 <= f < 1.0 && 0.0 < m
    ensures 0.0 <= f * m < m
  {
    MulNonNegative(f, m);
    MulPositive(1.0 - f, m);
  }

  /** A fraction in (-1, 0] of a positive m lies in (-m, 0]. */
  lemma NegativeFractionOf(f: real, m: real)
    requires -1.0 < f <= 0.0 && 0.0 < m
    ensures -m < f * m <= 0.0
  {
    MulNonNegative(-f, m);
    MulPositive(1.0 + f, m);
  }

  lemma TruncationBounds(a: real, m: real, q: real, t: int)
    requires m > 0.0 && q == a / m
    requires t == if q >= 0.0 then q.Floor else -((-q).Floor)
    ensures -m < a - Times(t, m) < m
    ensures 0.0 <= a ==> 0.0 <= a - Times(t, m)
    ensures a <= 0.0 ==> a - Times(t, m) <= 0.0
    ensures -m < a < m ==> t == 0
  {
    var f := q - t as real;
    TruncatedFraction(q, t);
    RemainderIsFraction(a, m, q, t, f);
    if q >= 0.0 {
      FractionOf(f, m);
    } else {
      NegativeFractionOf(f, m);
    }
    SignOfQuotient(a, m, q);
    if -m < a < m {
      TruncationOfSmall(a, m, q, t);
    }
  }

  lemma TruncatedFraction(q: real, t: int)
    requires t == if q >= 0.0 then q.Floor else -((-q).Floor)
    ensures q >= 0.0 ==> 0.0 <= q - t as real < 1.0
    ensures q < 0.0 ==> -1.0 < q - t as real <= 0.0
  {
  }

  lemma RemainderIsFraction(a: real, m: real, q: real, t: int, f: real)
    requires m > 0.0 && q == a / m && f == q - t as real
    ensures a - Times(t, m) == f * m
  {
  }

  lemma SignOfQuotient(a: real, m: real, q: real)
    requires m > 0.0 && q == a / m
    ensures 0.0 <= a <==> 0.0 <= q
    ensures a <= 0.0 <==> q <= 0.0
  {
    assert a == q * m;
    if q < 0.0 { MulPositive(-q, m); }
    else if q > 0.0 { MulPositive(q, m); }
  }

  lemma TruncationOfSmall(a: real, m: real, q: real, t: int)
    requires m > 0.0 && q == a / m && -m < a < m
    requires t == if q >= 0.0 then q.Floor else -((-q).Floor)
    ensures t == 0
  {
    assert a == q * m;
    if q >= 1.0 {
      MulNonNegative(q - 1.0, m);
    } else if q <= -1.0 {
      MulNonNegative(-1.0 - q, m);
    }
  }

  /** sqrt squares back to its argument. */
  lemma SqrtSquared(e: Elementary, x: real)
    requires e.Valid() && 0.0 <= x
    ensures e.sqrt(x) * e.sqrt(x) == x
  {
  }

  /** sqrt is positive on positive arguments. */
  lemma SqrtPositive(e: Elementary, x: real)
    requires e.Valid() && 0.0 < x
    ensures 0.0 < e.sqrt(x)
  {
  }

  /** sqrt vanishes only at 0. */
  lemma SqrtNonZero(e: Elementary, x: real)
    requires e.Valid() && 0.0 <= x && x != 0.0
    ensures e.sqrt(x) != 0.0
  {
  }

  /** Squaring is strictly increasing on the non-negative reals. */
  lemma SquareStrictlyIncreasing(x: real, y: real)
    requires 0.0 <= y < x
    ensures y * y < x * x
  {
    assert x * x - y * y == (x - y) * (x + y);
    MulPositive(x - y, x + y);
  }

  /** sqrt is monotone: this follows from the two defining facts alone. */
  lemma SqrtMonotone(e: Elementary, x: real, y: real)
    requires e.Valid() && 0.0 <= x <= y
    ensures e.sqrt(x) <= e.sqrt(y)
  {
    var a, b := e.sqrt(x), e.sqrt(y);
    if a > b {
      SquareStrictlyIncreasing(a, b);
    }
  }

  /** sqrt of a square is the absolute value. */
  lemma SqrtOfSquare(e: Elementary, x: real)
    requires e.Valid()
    ensures e.sqrt(x * x) == Abs(x)
  {
    var s := e.sqrt(x * x);
    var a := Abs(x);
    assert a * a == x * x;
    if s < a {
      SquareStrictlyIncreasing(a, s);
    } else if a < s {
      SquareStrictlyIncreasing(s, a);
    }
  }
}
