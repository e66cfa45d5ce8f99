/** Two-dimensional positions and directions (`Position` in class.ts), the distance
    and direction helpers of `Character`, and the turn decision of homing shots. */
module Geometry {

  datatype Vec = Vec(x: real, y: real)

  /** The host's `Math.sqrt`, `Math.sin`, `Math.cos` and `Math.PI`, which the model
      treats as inputs: nothing about the game's bookkeeping depends on their values. */
  datatype Host = Host(sqrt: real -> real, sin: real -> real, cos: real -> real, pi: real)

  /** The exponentiation operator `t ** n` for a natural exponent. */
  function Pow(t: real, n: nat): real
  {
    if n == 0 then 1.0 else t * Pow(t, n - 1)
  }

  /** The host's square root is a square root. */
  ghost predicate ValidSqrt(host: Host)
  {
    forall s: real :: 0.0 <= s ==> 0.0 <= host.sqrt(s) && Pow(host.sqrt(s), 2) == s
  }

  function Add(a: Vec, b: Vec): Vec { Vec(a.x + b.x, a.y + b.y) }

  function Sub(a: Vec, b: Vec): Vec { Vec(a.x - b.x, a.y - b.y) }

  function Scale(v: Vec, k: real): Vec { Vec(v.x * k, v.y * k) }

  lemma MulPositive(a: real, b: real)
    requires 0.0 < a && 0.0 < b
    ensures 0.0 < a * b
  {}

  lemma MulNonNegative(a: real, b: real)
    requires 0.0 <= a && 0.0 <= b
    ensures 0.0 <= a * b
  {}

  lemma {:induction false} PowPositive(t: real, n: nat)
    requires 0.0 < t
    ensures 0.0 < Pow(t, n)
  {
    if n > 0 {
      PowPositive(t, n - 1);
      MulPositive(t, Pow(t, n - 1));
    }
  }

  lemma {:induction false} PowNonNegative(t: real, n: nat)
    requires 0.0 <= t
    ensures 0.0 <= Pow(t, n)
  {
    if n > 0 {
      PowNonNegative(t, n - 1);
      MulNonNegative(t, Pow(t, n - 1));
    }
  }

  lemma {:induction false} PowAtMostOne(t: real, n: nat)
    requires 0.0 <= t <= 1.0
    ensures Pow(t, n) <= 1.0
  {
    if n > 0 {
      PowAtMostOne(t, n - 1);
      PowNonNegative(t, n - 1);
      MulNonNegative(1.0 - t, Pow(t, n - 1));
    }
  }

  lemma {:induction false} PowMonotone(a: real, b: real, n: nat)
    requires 0.0 <= a <= b
    ensures Pow(a, n) <= Pow(b, n)
  {
    if n > 0 {
      PowMonotone(a, b, n - 1);
      PowNonNegative(a, n - 1);
      MulNonNegative(b - a, Pow(a, n - 1));
      MulNonNegative(b, Pow(b, n - 1) - Pow(a, n - 1));
    }
  }

  lemma PowStrict(a: real, b: real, n: nat)
    requires 0.0 <= a < b && n > 0
    ensures Pow(a, n) < Pow(b, n)
  {
    PowMonotone(a, b, n - 1);
    PowNonNegative(a, n - 1);
    PowPositive(b, n - 1);
    MulNonNegative(a, Pow(b, n - 1) - Pow(a, n - 1));
    MulPositive(b - a, Pow(b, n - 1));
  }

  lemma SquareEven(t: real)
    ensures Pow(-t, 2) == Pow(t, 2)
  {
    assert Pow(-t, 1) == -t && Pow(t, 1) == t;
    assert Pow(-t, 2) == (-t) * (-t);
  }

  /** A square is non-negative, and positive unless its base is zero. */
  lemma SquareSign(t: real)
    ensures 0.0 <= Pow(t, 2)
    ensures t != 0.0 ==> 0.0 < Pow(t, 2)
  {
    if t > 0.0 {
      PowPositive(t, 2);
    } else if t < 0.0 {
      SquareEven(t);
      PowPositive(-t, 2);
    }
  }

  /** Squared Euclidean distance between two centres: `dx ** 2 + dy ** 2`. */
  function DistanceSquared(a: Vec, b: Vec): (r: real)
    ensures 0.0 <= r
    ensures r == 0.0 <==> a == b
  {
    SquareSign(a.x - b.x);
    SquareSign(a.y - b.y);
    Pow(a.x - b.x, 2) + Pow(a.y - b.y, 2)
  }

  /** `Character.calcDistance`: the host's square root of the squared distance. */
  function Distance(a: Vec, b: Vec, host: Host): real
  {
    host.sqrt(DistanceSquared(a, b))
  }

  /** A valid square root is zero exactly at zero. */
  lemma RootZero(s: real, host: Host)
    requires 0.0 <= s
    ensures ValidSqrt(host) ==> (host.sqrt(s) == 0.0 <==> s == 0.0)
  {
    if ValidSqrt(host) {
      var m := host.sqrt(s);
      assert 0.0 <= m && Pow(m, 2) == s;
      if m > 0.0 {
        PowPositive(m, 2);
      }
    }
  }

  /** calcDistance is symmetric, non-negative and zero exactly for equal positions. */
  lemma DistanceProperties(a: Vec, b: Vec, host: Host)
    requires ValidSqrt(host)
    ensures Distance(a, b, host) == Distance(b, a, host)
    ensures 0.0 <= Distance(a, b, host)
    ensures Distance(a, b, host) == 0.0 <==> a == b
  {
    SquareEven(a.x - b.x);
    SquareEven(a.y - b.y);
    assert -(a.x - b.x) == b.x - a.x && -(a.y - b.y) == b.y - a.y;
    assert DistanceSquared(a, b) == DistanceSquared(b, a);
    RootZero(DistanceSquared(a, b), host);
  }

  /** Collision test `distance < widthSum / divisor`, compared on squares so that no
      square root is needed. A non-positive bound never collides. */
  predicate Touching(a: Vec, b: Vec, widthSum: real, divisor: real)
    requires divisor > 0.0
  {
    var bound := widthSum / divisor;
    0.0 < bound && DistanceSquared(a, b) < Pow(bound, 2)
  }

  /** The squared test agrees with the test on the square root: both sides of the
      comparison are non-negative. */
  lemma TouchingIffCloser(a: Vec, b: Vec, widthSum: real, divisor: real, host: Host)
    requires ValidSqrt(host) && divisor > 0.0
    ensures Touching(a, b, widthSum, divisor) <==> Distance(a, b, host) < widthSum / divisor
  {
    var bound := widthSum / divisor;
    var s := DistanceSquared(a, b);
    var d := host.sqrt(s);
    assert 0.0 <= d && Pow(d, 2) == s;
    if d < bound {
      PowStrict(d, bound, 2);
    } else if 0.0 < bound {
      PowMonotone(bound, d, 2);
    }
  }

  /** `Character.normalize`: the direction from `from` towards `to`, divided by the
      distance. The source divides by zero for equal positions (NaN); the model returns
      the zero vector there. */
  function Normalize(from: Vec, to: Vec, host: Host): (r: Vec)
    ensures ValidSqrt(host) && from != to ==>
              0.0 < Distance(from, to, host)
              && r == Scale(Sub(to, from), 1.0 / Distance(from, to, host))
    ensures ValidSqrt(host) && from == to ==> r == Vec(0.0, 0.0)
  {
    var m := host.sqrt(DistanceSquared(from, to));
    if m == 0.0 then Vec(0.0, 0.0)
    else
      var r := Vec((to.x - from.x) / m, (to.y - from.y) / m);
      RootZero(DistanceSquared(from, to), host);
      r
  }

  /** The vector scaled to unit length (the heading normalisation of a homing shot). */
  function Unit(v: Vec, host: Host): Vec
  {
    Normalize(Vec(0.0, 0.0), v, host)
  }

  /** `Pow(t, 2)` is `t * t`. */
  lemma Square(t: real)
    ensures Pow(t, 2) == t * t
  {
    assert Pow(t, 1) == t;
  }

  /** Squaring a quotient: `(d / m)^2 * m^2 == d^2`. */
  lemma QuotientSquare(d: real, m: real)
    requires m != 0.0
    ensures Pow(d / m, 2) * Pow(m, 2) == Pow(d, 2)
  {
    var a := d / m;
    Square(a);
    Square(m);
    Square(d);
    assert a * m == d;
    assert a * a * (m * m) == (a * m) * (a * m);
  }

  /** Two shares of a positive `k` that add up to `k` come from fractions adding up to 1. */
  lemma SharesOfOne(a: real, b: real, c: real, d: real, k: real)
    requires 0.0 < k && a * k == c && b * k == d && k == c + d
    ensures a + b == 1.0
  {
    assert (a + b - 1.0) * k == 0.0;
  }

  /** The direction between two distinct points has unit length, so a shot fired along
      it moves exactly `speed` per update. */
  lemma NormalizeUnit(from: Vec, to: Vec, host: Host)
    requires ValidSqrt(host) && from != to
    ensures Pow(Normalize(from, to, host).x, 2) + Pow(Normalize(from, to, host).y, 2) == 1.0
  {
    var s := DistanceSquared(from, to);
    var m := host.sqrt(s);
    RootZero(s, host);
    var dx, dy := to.x - from.x, to.y - from.y;
    SquareEven(dx);
    SquareEven(dy);
    assert from.x - to.x == -dx && from.y - to.y == -dy;
    assert 0.0 < m && Pow(m, 2) == Pow(dx, 2) + Pow(dy, 2);
    assert Normalize(from, to, host) == Vec(dx / m, dy / m);
    QuotientSquare(dx, m);
    QuotientSquare(dy, m);
    PowPositive(m, 2);
    SharesOfOne(Pow(dx / m, 2), Pow(dy / m, 2), Pow(dx, 2), Pow(dy, 2), Pow(m, 2));
  }

  /** `Unit` of a non-zero vector is a unit vector. */
  lemma UnitLength(v: Vec, host: Host)
    requires ValidSqrt(host) && v != Vec(0.0, 0.0)
    ensures Pow(Unit(v, host).x, 2) + Pow(Unit(v, host).y, 2) == 1.0
  {
    NormalizeUnit(Vec(0.0, 0.0), v, host);
  }

  /** Scalar 2D cross product. `Position` has no `cross`; this is the usual definition
      `vx * ny - vy * nx`, an assumption of the model. */
  function Cross(v: Vec, n: Vec): real
  {
    v.x * n.y - v.y * n.x
  }

  /** Homing turn decision in whole degrees: toward the side the cross product names. */
  function TurnDegrees(cross: real): (d: int)
    ensures -1 <= d <= 1
    ensures d == 1 <==> cross > 0.0
    ensures d == -1 <==> cross < 0.0
    ensures d == 0 <==> cross == 0.0
  {
    if cross > 0.0 then 1 else if cross < 0.0 then -1 else 0
  }

  /** The turn decision does not depend on the lengths of the two vectors. */
  lemma TurnIgnoresLength(v: Vec, n: Vec, a: real, b: real)
    requires 0.0 < a && 0.0 < b
    ensures TurnDegrees(Cross(Scale(v, a), Scale(n, b))) == TurnDegrees(Cross(v, n))
  {
    var c := Cross(v, n);
    assert Cross(Scale(v, a), Scale(n, b)) == (a * b) * c;
    MulPositive(a, b);
    if c > 0.0 {
      MulPositive(a * b, c);
    } else if c < 0.0 {
      MulPositive(a * b, -c);
    }
  }

  /** Turning a homing shot on normalised vectors decides as the raw heading and the raw
      direction to the target would: its sign is that of the cross product of the two. */
  lemma TurnOnUnitVectors(v: Vec, from: Vec, to: Vec, host: Host)
    requires ValidSqrt(host) && v != Vec(0.0, 0.0) && from != to
    ensures TurnDegrees(Cross(Unit(v, host), Normalize(from, to, host)))
         == TurnDegrees(Cross(v, Sub(to, from)))
  {
    var a := 1.0 / Distance(Vec(0.0, 0.0), v, host);
    var b := 1.0 / Distance(from, to, host);
    assert Sub(v, Vec(0.0, 0.0)) == v;
    TurnIgnoresLength(v, Sub(to, from), a, b);
  }

  /** Rotation by `angle` radians. `Position` has no `rotate`; the standard rotation is
      assumed. */
  function Rotate(v: Vec, angle: real, host: Host): Vec
  {
    Vec(v.x * host.cos(angle) - v.y * host.sin(angle), v.x * host.sin(angle) + v.y * host.cos(angle))
  }
}
