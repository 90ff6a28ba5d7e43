/**
 * Numeric helpers shared by the calculators: Java's `double` arithmetic is
 * modelled over `real`, and the operators whose Java meaning differs from
 * Dafny's (the truncating `%`, `/` on `int` and the `(long)` cast) are written
 * out here once.
 *
 * The transcendental functions (sin, cos, ...) are NOT given values: they are
 * the fields of a `Trig` bundle of function values, and `Lawful` states the
 * only facts the model ever uses about them (their ranges on their domains
 * and a few identities, each true of the exact functions). Every result
 * proved about a calculator therefore holds for any implementation of these
 * functions that has those properties.
 */
module Maths {

  /** Java's `Math.PI`. */
  const PI: real := 3.141592653589793

  /** Java's `Double.MAX_VALUE`. */
  const DOUBLE_MAX: real := 1.7976931348623157e308

  /** `Math.toRadians`: degrees times PI/180. */
  function ToRadians(deg: real): real
  {
    deg * (PI / 180.0)
  }

  /** `Math.toDegrees`: radians times 180/PI. */
  function ToDegrees(rad: real): real
  {
    rad * (180.0 / PI)
  }

  lemma DegreesRadiansRoundTrip(deg: real)
    ensures ToDegrees(ToRadians(deg)) == deg
  {
    calc {
      ToDegrees(ToRadians(deg));
      deg * (PI / 180.0) * (180.0 / PI);
      deg * ((PI / 180.0) * (180.0 / PI));
    }
  }

  /** The cast `(long) x` (and `(int) x`): truncation toward zero. */
  function Truncate(x: real): (r: int)
    ensures x >= 0.0 ==> 0 <= r && r as real <= x < r as real + 1.0
    ensures x < 0.0 ==> r <= 0 && r as real - 1.0 < x <= r as real
  {
    if x >= 0.0 then x.Floor else -((-x).Floor)
  }

  /** Truncation commutes with negation (unlike `Floor`). */
  lemma TruncateNegate(x: real)
    ensures Truncate(-x) == -Truncate(x)
  {
  }

  /** Java's `/` on `int`: the quotient is truncated toward zero. */
  function JavaDiv(a: int, b: int): (q: int)
    requires b > 0
    ensures a >= 0 ==> q == a / b
    ensures a < 0 ==> q == -((-a) / b)
  {
    if a >= 0 then a / b else -((-a) / b)
  }

  lemma MulLeft(a: real, b: real, m: real)
    requires m > 0.0 && a <= b
    ensures a * m <= b * m
  {
  }

  lemma MulStrict(a: real, b: real, m: real)
    requires m > 0.0 && a < b
    ensures a * m < b * m
  {
  }

  /** Squaring is strictly increasing on the non-negative reals. */
  lemma SquareMonotone(a: real, b: real)
    requires 0.0 <= a < b
    ensures a * a < b * b
  {
    MulStrict(0.0, b - a, b + a);
    assert (b - a) * (b + a) == b * b - a * a;
  }

  /**
   * Java's `%` on doubles: `x - m * trunc(x / m)`. The result keeps the sign
   * of the dividend and is smaller than the divisor in magnitude.
   */
  function JavaRem(x: real, m: real): (r: real)
    requires m > 0.0
    ensures x >= 0.0 ==> 0.0 <= r < m
    ensures x < 0.0 ==> -m < r <= 0.0
    ensures Turns(x, r, m, -Truncate(x / m))
  {
    RemBounds(x, m);
    x - Truncate(x / m) as real * m
  }

  lemma RemBounds(x: real, m: real)
    requires m > 0.0
    ensures x >= 0.0 ==> 0.0 <= x - (Truncate(x / m) as real) * m < m
    ensures x < 0.0 ==> -m < x - (Truncate(x / m) as real) * m <= 0.0
  {
    var q := x / m;
    assert q * m == x;
    var t: real := Truncate(q) as real;
    if x >= 0.0 {
      ScaledBetween(x, m, q, t);
    } else {
      ScaledBetween(x, m, q, t - 1.0);
    }
  }

  /** If `x = q * m` and `lo <= q <= lo + 1` then `x` lies as far between `lo * m` and `lo * m + m`. */
  lemma ScaledBetween(x: real, m: real, q: real, lo: real)
    requires m > 0.0 && x == q * m && lo <= q <= lo + 1.0
    ensures lo * m <= x <= lo * m + m
    ensures lo < q ==> lo * m < x
    ensures q < lo + 1.0 ==> x < lo * m + m
  {
    var hi := lo * m + m;
    assert (lo + 1.0) * m == hi;
    MulLeft(lo, q, m);
    MulLeft(q, lo + 1.0, m);
    assert x <= hi;
    if lo < q {
      MulStrict(lo, q, m);
    }
    if q < lo + 1.0 {
      MulStrict(q, lo + 1.0, m);
      assert x < hi;
    }
  }

  /** `y` is `x` shifted by a whole number `k` of periods `p`. */
  predicate Turns(x: real, y: real, p: real, k: int)
  {
    y == x + k as real * p
  }

  /**
   * The source's recurring normalisation `x = x % p; if (x < 0) x += p;`,
   * used for angles in degrees (p = 360), hours (p = 24) and radians
   * (p = 2 PI).
   */
  function Wrap(x: real, p: real): (r: real)
    requires p > 0.0
    ensures 0.0 <= r < p
    ensures exists k: int :: Turns(x, r, p, k)
  {
    var m := JavaRem(x, p);
    if m < 0.0 then
      assert Turns(x, m + p, p, -Truncate(x / p) + 1);
      m + p
    else
      m
  }

  /** A value already in `[0, p)` is left unchanged by `Wrap`. */
  lemma WrapIdentity(x: real, p: real)
    requires p > 0.0 && 0.0 <= x < p
    ensures Wrap(x, p) == x
  {
    var q := x / p;
    assert q * p == x;
    if q >= 1.0 {
      MulLeft(1.0, q, p);
      assert false;
    }
    assert Truncate(q) == 0;
  }

  /** Wrapping twice is wrapping once. */
  lemma WrapIdempotent(x: real, p: real)
    requires p > 0.0
    ensures Wrap(Wrap(x, p), p) == Wrap(x, p)
  {
    WrapIdentity(Wrap(x, p), p);
  }

  /** `Math.abs` on doubles. */
  function Abs(x: real): real
  {
    if x < 0.0 then -x else x
  }

  /** `Math.min` and `Math.max` on doubles (NaN aside). */
  function Min(a: real, b: real): real
  {
    if a <= b then a else b
  }

  function Max(a: real, b: real): real
  {
    if a >= b then a else b
  }

  /**
   * The transcendental functions of `java.lang.Math` that the calculators
   * call, as function values whose only known properties are those that
   * `Lawful` states.
   */
  datatype Trig = Trig(
    sin: real -> real,
    cos: real -> real,
    tan: real -> real,
    asin: real -> real,
    acos: real -> real,
    atan2: (real, real) -> real,
    sqrt: real -> real,
    log10: real -> real)

  /**
   * The angular separation term of the haversine formula for latitudes
   * `lat1`, `lat2` and a longitude difference `dLon`, all in radians:
   * `sin^2((lat2 - lat1) / 2) + cos lat1 cos lat2 sin^2(dLon / 2)`.
   */
  function HalfChord(t: Trig, lat1: real, lat2: real, dLon: real): real
  {
    var dLat := lat2 - lat1;
    t.sin(dLat / 2.0) * t.sin(dLat / 2.0) + t.cos(lat1) * t.cos(lat2) * t.sin(dLon / 2.0) * t.sin(dLon / 2.0)
  }

  /**
   * The facts about `Math.sin`, `Math.cos`, `Math.asin`, `Math.acos`,
   * `Math.atan2` and `Math.sqrt` that the model uses, each true of the exact
   * real functions: the ranges of sin and cos, sin 0 = 0, cos 0 = 1 and
   * sin^2 + cos^2 = 1; asin and acos only on their domain [-1, 1], where
   * they lie in [-PI/2, PI/2] and [0, PI] and asin is non-negative on
   * [0, 1]; atan2 in [-PI, PI]; sqrt only on non-negative arguments, where
   * it is the non-negative square root; `log10` increasing on the positive
   * reals; and the haversine term of any two points, the squared sine of
   * half their separation, in [0, 1]. Outside
   * those domains Java returns NaN, and nothing is assumed there.
   */
  ghost predicate Lawful(t: Trig)
  {
    (forall x :: -1.0 <= t.sin(x) <= 1.0) &&
    (forall x :: -1.0 <= t.cos(x) <= 1.0) &&
    t.sin(0.0) == 0.0 && t.cos(0.0) == 1.0 &&
    (forall x :: t.sin(x) * t.sin(x) + t.cos(x) * t.cos(x) == 1.0) &&
    (forall x | -1.0 <= x <= 1.0 :: -PI / 2.0 <= t.asin(x) <= PI / 2.0) &&
    (forall x | 0.0 <= x <= 1.0 :: 0.0 <= t.asin(x)) &&
    (forall x | -1.0 <= x <= 1.0 :: 0.0 <= t.acos(x) <= PI) &&
    (forall y, x :: -PI <= t.atan2(y, x) <= PI) &&
    (forall x | 0.0 <= x :: 0.0 <= t.sqrt(x) && t.sqrt(x) * t.sqrt(x) == x) &&
    (forall x, y | 0.0 < x <= y :: t.log10(x) <= t.log10(y)) &&
    (forall lat1, lat2, dLon :: 0.0 <= HalfChord(t, lat1, lat2, dLon) <= 1.0)
  }

  /** A square root of a value in [0, 1] lies in [0, 1]. */
  lemma SqrtUnit(t: Trig, x: real)
    requires Lawful(t) && 0.0 <= x <= 1.0
    ensures 0.0 <= t.sqrt(x) <= 1.0
  {
    var s := t.sqrt(x);
    if s > 1.0 {
      MulStrict(1.0, s, s);
      assert false;
    }
  }

  /** A product of two values in [-1, 1] lies in [-1, 1]. */
  lemma ProductUnit(a: real, b: real)
    requires -1.0 <= a <= 1.0 && -1.0 <= b <= 1.0
    ensures -1.0 <= a * b <= 1.0
  {
    var pa, pb := Abs(a), Abs(b);
    if pa > 0.0 {
      MulLeft(pb, 1.0, pa);
    }
    assert pa * pb <= 1.0;
    assert a * b == pa * pb || a * b == -(pa * pb);
  }

  /**
   * The Cauchy-Schwarz bound behind every spherical-to-equatorial
   * conversion: for unit pairs `(a1, a2)` and `(b1, b2)` and `k` in [-1, 1],
   * `a1 b1 + a2 b2 k` lies in [-1, 1], since
   * `1 - (a1 b1 + a2 b2 k)^2 = (a1 b2 - a2 b1 k)^2 + a2^2 (1 - k^2)`.
   */
  lemma UnitCombination(a1: real, a2: real, b1: real, b2: real, k: real)
    requires a1 * a1 + a2 * a2 == 1.0 && b1 * b1 + b2 * b2 == 1.0 && -1.0 <= k <= 1.0
    ensures -1.0 <= a1 * b1 + a2 * b2 * k <= 1.0
  {
    var u := a1 * b1 + a2 * b2 * k;
    var w := a1 * b2 - a2 * b1 * k;
    var b := b1 * b1 + b2 * b2;
    assert u * u + w * w == a1 * a1 * b + a2 * a2 * (k * k) * b;
    ProductUnit(k, k);
    var a22 := a2 * a2;
    assert u * u + w * w == a1 * a1 + a22 * (k * k);
    if a22 > 0.0 {
      MulLeft(k * k, 1.0, a22);
    }
    assert u * u <= 1.0;
    if u > 1.0 {
      MulStrict(1.0, u, u);
    } else if u < -1.0 {
      MulStrict(1.0, -u, -u);
    }
  }

  /** `sin p sin q + cos p cos q k` lies in [-1, 1] for `k` in [-1, 1]. */
  lemma UnitSine(t: Trig, p: real, q: real, k: real)
    requires Lawful(t) && -1.0 <= k <= 1.0
    ensures -1.0 <= t.sin(p) * t.sin(q) + t.cos(p) * t.cos(q) * k <= 1.0
  {
    UnitCombination(t.sin(p), t.cos(p), t.sin(q), t.cos(q), k);
  }

  /** `sin p cos q + cos p sin q k` lies in [-1, 1] for `k` in [-1, 1]. */
  lemma UnitSineCross(t: Trig, p: real, q: real, k: real)
    requires Lawful(t) && -1.0 <= k <= 1.0
    ensures -1.0 <= t.sin(p) * t.cos(q) + t.cos(p) * t.sin(q) * k <= 1.0
  {
    assert t.cos(q) * t.cos(q) + t.sin(q) * t.sin(q) == 1.0;
    UnitCombination(t.sin(p), t.cos(p), t.cos(q), t.sin(q), k);
  }
}

/** The usual optional value, standing in for Java's `null` and Python's `None`. */
module Options {
  datatype Option<T> = None | Some(value: T)
}
