/** How far the points of a traced arc are from the exact ones. */
module ArcAccuracy {
  import opened Arc
  import opened ArcTrace

  /** What the exact functions satisfy besides Pythagoras. */
  ghost predicate Angles(trig: Trig) {
    && trig.cos(0.0) == 1.0 && trig.sin(0.0) == 0.0
    && (forall x, y :: trig.cos(x + y) == trig.cos(x) * trig.cos(y) - trig.sin(x) * trig.sin(y))
    && (forall x, y :: trig.sin(x + y) == trig.sin(x) * trig.cos(y) + trig.cos(x) * trig.sin(y))
  }

  /** One approximate turn errs by at most `epsilon` of the radius. */
  ghost predicate ErrsBy(trig: Trig, t: real, epsilon: real) {
    epsilon >= 0.0 &&
    Norm(1.0 - t * t / 2.0 - trig.cos(t), t - t * t * t / 6.0 - trig.sin(t)) <= Square(epsilon)
  }

  /** With the usual remainders of the two series, that is t⁴/24 + |t|⁵/120. */
  lemma SeriesError(trig: Trig, t: real)
    requires Abs(1.0 - t * t / 2.0 - trig.cos(t)) <= Square(Square(t)) / 24.0
    requires Abs(t - t * t * t / 6.0 - trig.sin(t)) <= Product(Square(Square(t)), Abs(t)) / 120.0
    ensures ErrsBy(trig, t, Square(Square(t)) / 24.0 + Product(Square(Square(t)), Abs(t)) / 120.0)
  {
    var a, b := Square(Square(t)) / 24.0, Product(Square(Square(t)), Abs(t)) / 120.0;
    var x, y := 1.0 - t * t / 2.0 - trig.cos(t), t - t * t * t / 6.0 - trig.sin(t);
    hide Product;
    SquareFacts(x);
    SquareFacts(y);
    SquareMonotone(Abs(x), a);
    SquareMonotone(Abs(y), b);
    SquareOfSum(a, b);
  }

  lemma SquareOfSum(a: real, b: real)
    requires a >= 0.0 && b >= 0.0
    ensures Square(a) + Square(b) <= Square(a + b)
  {
    assert Square(a + b) == Square(a) + 2.0 * Product(a, b) + Square(b);
    ProductMonotone(a, 0.0, b);
  }

  // ----- The triangle inequality, without square roots -------------------------------------

  lemma CauchySchwarz(a: real, b: real, x: real, y: real)
    ensures Square(a * x + b * y) <= Product(Norm(a, b), Norm(x, y))
  {
    SquareFacts(a * y - b * x);
    assert (a * x + b * y) * (a * x + b * y) + (a * y - b * x) * (a * y - b * x) == (a * a + b * b) * (x * x + y * y);
  }

  lemma BelowBySquares(d: real, m: real)
    requires m >= 0.0 && Square(d) <= Square(m)
    ensures d <= m
  {
    assert Product(d - m, d + m) == Square(d) - Square(m);
    if d > m {
      ProductPositive(d - m, d + m);
      assert false;
    }
  }

  /** Vectors of length at most p and q (in units of the square root of `m`) add up to one of
      length at most p + q. */
  lemma Triangle(a: real, b: real, x: real, y: real, p: real, q: real, m: real)
    requires p >= 0.0 && q >= 0.0 && m >= 0.0
    requires Norm(a, b) <= Product(Square(p), m) && Norm(x, y) <= Product(Square(q), m)
    ensures Norm(a + x, b + y) <= Product(Square(p + q), m)
  {
    var dot, bound := a * x + b * y, Product(Product(p, q), m);
    CauchySchwarz(a, b, x, y);
    SquareFacts(a);
    SquareFacts(b);
    SquareFacts(x);
    SquareFacts(y);
    ProductsOfBounds(Norm(a, b), Product(Square(p), m), Norm(x, y), Product(Square(q), m));
    SquaresOfProducts(p, q, m);
    NonNegativeProducts(p, q, m);
    BelowBySquares(dot, bound);
    SumOfSquares(a, b, x, y);
    SquareOfSumTimes(p, q, m);
  }

  lemma ProductsOfBounds(a: real, p: real, b: real, q: real)
    requires 0.0 <= a <= p && 0.0 <= b <= q
    ensures Product(a, b) <= Product(p, q)
  {
    ProductMonotone(a, b, q);
    ProductMonotone(q, a, p);
    assert Product(a, q) == Product(q, a) && Product(p, q) == Product(q, p);
  }

  lemma SquaresOfProducts(p: real, q: real, m: real)
    ensures Product(Product(Square(p), m), Product(Square(q), m)) == Square(Product(Product(p, q), m))
  {
    assert p * p * m * (q * q * m) == p * q * m * (p * q * m);
  }

  lemma NonNegativeProducts(p: real, q: real, m: real)
    requires p >= 0.0 && q >= 0.0 && m >= 0.0
    ensures Product(Product(p, q), m) >= 0.0
  {
    ProductMonotone(p, 0.0, q);
    ProductMonotone(m, 0.0, Product(p, q));
  }

  lemma SumOfSquares(a: real, b: real, x: real, y: real)
    ensures Norm(a + x, b + y) == Norm(a, b) + Norm(x, y) + 2.0 * (a * x + b * y)
  {
    assert (a + x) * (a + x) == a * a + x * x + 2.0 * (a * x);
    assert (b + y) * (b + y) == b * b + y * y + 2.0 * (b * y);
  }

  lemma SquareOfSumTimes(p: real, q: real, m: real)
    ensures Product(Square(p + q), m)
         == Product(Square(p), m) + Product(Square(q), m) + 2.0 * Product(Product(p, q), m)
  {
    assert (p + q) * (p + q) == p * p + q * q + 2.0 * (p * q);
  }

  // ----- One turn --------------------------------------------------------------------------

  lemma AngleSum(trig: Trig, a: real, t: real)
    requires Angles(trig)
    ensures trig.cos(a + t) == trig.cos(a) * trig.cos(t) - trig.sin(a) * trig.sin(t)
    ensures trig.sin(a + t) == trig.sin(a) * trig.cos(t) + trig.cos(a) * trig.sin(t)
  {}

  lemma RotatedFurther(trig: Trig, j: Job, a: real, t: real)
    requires Angles(trig)
    ensures Rotated(trig, j, a + t) == Rotate(Rotated(trig, j, a).0, Rotated(trig, j, a).1, trig.cos(t), trig.sin(t))
  {
    hide Rotate;
    hide Rotated;
    hide Angles;
    AngleSum(trig, a, t);
    RotateTwice(-j.offset0, -j.offset1, trig.cos(a), trig.sin(a), trig.cos(t), trig.sin(t),
                trig.cos(a + t), trig.sin(a + t));
    RotatedIsRotate(trig, j, a);
    RotatedIsRotate(trig, j, a + t);
  }

  /** The exact k-th radius vector. */
  function Exact(trig: Trig, j: Job, k: nat): (real, real) {
    Rotated(trig, j, AngleAt(j, k))
  }

  /** The exact point one angle further on. */
  lemma ExactTurns(trig: Trig, j: Job, k: nat)
    requires Angles(trig)
    ensures var (x, y) := Exact(trig, j, k);
            Exact(trig, j, k + 1) == Rotate(x, y, trig.cos(j.theta), trig.sin(j.theta))
  {
    hide Rotate;
    hide Rotated;
    hide Angles;
    OneMoreAngle(j, k);
    RotatedFurther(trig, j, AngleAt(j, k), j.theta);
    hide AngleAt;
  }

  lemma OneMoreAngle(j: Job, k: nat)
    ensures AngleAt(j, k + 1) == AngleAt(j, k) + j.theta
  {}

  lemma RotatedIsRotate(trig: Trig, j: Job, a: real)
    ensures Rotated(trig, j, a) == Rotate(-j.offset0, -j.offset1, trig.cos(a), trig.sin(a))
  {
    var r, e := Rotated(trig, j, a), Rotate(-j.offset0, -j.offset1, trig.cos(a), trig.sin(a));
    RotateOpposite(j.offset0, j.offset1, trig.cos(a), trig.sin(a));
    assert r.0 == e.0;
    assert r.1 == e.1;
  }

  lemma RotateOpposite(p: real, q: real, c: real, s: real)
    ensures Rotate(-p, -q, c, s) == (-p * c + q * s, -p * s - q * c)
  {
    assert -p * c - (-q) * s == -p * c + q * s;
    assert -p * s + (-q) * c == -p * s - q * c;
  }

  lemma RotateTwice(x: real, y: real, c: real, s: real, d: real, r: real, e: real, f: real)
    requires e == c * d - s * r && f == s * d + c * r
    ensures var (a, b) := Rotate(x, y, c, s); Rotate(a, b, d, r) == Rotate(x, y, e, f)
  {
    TwiceFirst(x, y, c, s, d, r);
    TwiceSecond(x, y, c, s, d, r);
    var (a, b) := (x * c - y * s, x * s + y * c);
    var once, twice := Rotate(a, b, d, r), Rotate(x, y, e, f);
    assert once.0 == twice.0;
    assert once.1 == twice.1;
  }

  lemma TwiceFirst(x: real, y: real, c: real, s: real, d: real, r: real)
    ensures (x * c - y * s) * d - (x * s + y * c) * r == x * (c * d - s * r) - y * (s * d + c * r)
  {}

  lemma TwiceSecond(x: real, y: real, c: real, s: real, d: real, r: real)
    ensures (x * c - y * s) * r + (x * s + y * c) * d == x * (s * d + c * r) + y * (c * d - s * r)
  {}

  /** Turning differs from turning exactly by the turn of the error so far and the error of this
      turn. */
  lemma ErrorAfterTurn(x: real, y: real, u: real, v: real, c: real, s: real, d: real, r: real)
    ensures var (a, b) := Rotate(x, y, c, s);
            var (e, f) := Rotate(u, v, d, r);
            var (g, h) := Rotate(x - u, y - v, c, s);
            var (k, l) := Rotate(u, v, c - d, s - r);
            a - e == g + k && b - f == h + l
  {}

  /** How far apart two vectors are, squared. */
  function Gap(p: (real, real), q: (real, real)): real {
    Norm(p.0 - q.0, p.1 - q.1)
  }

  lemma OneTurn(trig: Trig, t: real, from: (real, real), to: (real, real), exact: (real, real),
                n: nat, epsilon: real, m: real)
    requires ErrsBy(trig, t, epsilon) && Square(t) <= 3.0 && Turned(t, from.0, from.1, to.0, to.1)
    requires Norm(exact.0, exact.1) == m && Gap(from, exact) <= Product(Square(Product(n as real, epsilon)), m)
    ensures Gap(to, Rotate(exact.0, exact.1, trig.cos(t), trig.sin(t)))
         <= Product(Square(Product((n + 1) as real, epsilon)), m)
  {
    var c, s, d, r := 1.0 - t * t / 2.0, t - t * t * t / 6.0, trig.cos(t), trig.sin(t);
    var (g, h) := Rotate(from.0 - exact.0, from.1 - exact.1, c, s);
    var (k, l) := Rotate(exact.0, exact.1, c - d, s - r);
    RotateProducts(from.0, from.1, c, s);
    ErrorAfterTurn(from.0, from.1, exact.0, exact.1, c, s, d, r);
    RotationScales(from.0 - exact.0, from.1 - exact.1, c, s);
    RotationScales(exact.0, exact.1, c - d, s - r);
    Polynomials(t);
    ApproximationNorm(t);
    ShrinkBounds(t);
    hide Rotate;
    hide CosT;
    hide SinT;
    hide Shrink;
    NormsAreLengths(from.0 - exact.0, from.1 - exact.1);
    NormsAreLengths(exact.0, exact.1);
    ProductMonotone(Gap(from, exact), Norm(c, s), 1.0);
    assert Product(Gap(from, exact), 1.0) == Gap(from, exact);
    ProductMonotone(m, Norm(c - d, s - r), Square(epsilon));
    assert Product(m, Square(epsilon)) == Product(Square(epsilon), m);
    var p := Product(n as real, epsilon);
    ProductMonotone(epsilon, 0.0, n as real);
    assert Product(epsilon, n as real) == p;
    Triangle(g, h, k, l, p, epsilon, m);
    assert p + epsilon == Product((n + 1) as real, epsilon);
  }

  lemma NormsAreLengths(x: real, y: real)
    ensures Norm(x, y) >= 0.0
  {
    SquareFacts(x);
    SquareFacts(y);
  }

  // ----- A whole arc -----------------------------------------------------------------------

  lemma ExactNorm(trig: Trig, j: Job, k: nat)
    requires Pythagorean(trig)
    ensures Norm(Exact(trig, j, k).0, Exact(trig, j, k).1) == Norm(j.offset0, j.offset1)
  {
    var a := AngleAt(j, k);
    RotatedIsRotate(trig, j, a);
    RotationScales(-j.offset0, -j.offset1, trig.cos(a), trig.sin(a));
    SquareFacts(j.offset0);
    SquareFacts(j.offset1);
    assert Norm(trig.cos(a), trig.sin(a)) == 1.0;
  }

  lemma StartIsExact(trig: Trig, j: Job)
    requires Angles(trig)
    ensures Exact(trig, j, 0) == (-j.offset0, -j.offset1)
  {
    assert AngleAt(j, 0) == 0.0;
    var r := Rotated(trig, j, 0.0);
    assert r.0 == -j.offset0 * 1.0 + j.offset1 * 0.0 == -j.offset0;
    assert r.1 == -j.offset0 * 0.0 - j.offset1 * 1.0 == -j.offset1;
  }

  /** Point k of a traced arc is within k % 13 errors of one turn, so at most twelve, of the exact
      point: the start's radius vector turned by k times the angle per line. */
  ghost predicate PointIsNear(trig: Trig, j: Job, lines: seq<Segment>, k: nat, epsilon: real)
    requires ValidJob(j)
  {
    && k <= |lines| && (k > 0 ==> |lines[k - 1].to| == |j.start|)
    && Near(trig, j, k, Radius(j, lines, k), epsilon)
  }

  /** Every point of every traced arc is, when t² ≤ 3. */
  lemma {:induction false} PointsStayNearExact(trig: Trig, j: Job, feed: real, lines: seq<Segment>, n: nat, k: nat,
                                               epsilon: real)
    requires ValidJob(j) && j.segments > 0 && TraceOk(trig, j, feed, lines, n) && k <= n
    requires Pythagorean(trig) && Angles(trig) && ErrsBy(trig, j.theta, epsilon) && Square(j.theta) <= 3.0
    ensures PointIsNear(trig, j, lines, k, epsilon)
    decreases k
  {
    hide *;
    if k == 0 {
      FirstPointIsNear(trig, j, lines, epsilon);
    } else {
      PointsStayNearExact(trig, j, feed, lines, n, k - 1, epsilon);
      NextPointIsNear(trig, j, feed, lines, n, k - 1, epsilon);
    }
  }

  lemma FirstPointIsNear(trig: Trig, j: Job, lines: seq<Segment>, epsilon: real)
    requires ValidJob(j) && Angles(trig)
    ensures PointIsNear(trig, j, lines, 0, epsilon)
  {
    hide Near;
    hide Angles;
    StartIsNear(trig, j, epsilon);
  }

  lemma NextPointIsNear(trig: Trig, j: Job, feed: real, lines: seq<Segment>, n: nat, k: nat, epsilon: real)
    requires ValidJob(j) && j.segments > 0 && TraceOk(trig, j, feed, lines, n) && k < n
    requires PointIsNear(trig, j, lines, k, epsilon)
    requires Pythagorean(trig) && Angles(trig) && ErrsBy(trig, j.theta, epsilon) && Square(j.theta) <= 3.0
    ensures PointIsNear(trig, j, lines, k + 1, epsilon)
  {
    hide Near;
    hide TraceOk;
    hide TurnOk;
    hide Radius;
    hide Pythagorean;
    hide Angles;
    hide ErrsBy;
    hide Square;
    PointsHaveAxes(trig, j, feed, lines, n, k + 1);
    StaysNear(trig, j, k, Radius(j, lines, k), Radius(j, lines, k + 1), epsilon);
  }

  lemma PointsHaveAxes(trig: Trig, j: Job, feed: real, lines: seq<Segment>, n: nat, k: nat)
    requires ValidJob(j) && j.segments > 0 && TraceOk(trig, j, feed, lines, n) && k <= n
    ensures k <= |lines| && (k > 0 ==> |lines[k - 1].to| == |j.start|)
    ensures k == 0 ==> Radius(j, lines, k) == (-j.offset0, -j.offset1)
    ensures k > 0 ==> |lines[k - 1].to| == |j.start| && (k > 1 ==> |lines[k - 2].to| == |j.start|)
    ensures k > 0 ==> TurnOk(trig, j, k - 1, Radius(j, lines, k - 1), Radius(j, lines, k))
  {
    hide TurnOk;
    hide PointOk;
    hide Chained;
    if k > 0 {
      assert |lines[k - 1].to| == |j.start|;
      if k > 1 {
        assert |lines[k - 2].to| == |j.start|;
      }
      var i := k - 1;
      assert TurnOk(trig, j, i, Radius(j, lines, i), Radius(j, lines, i + 1));
    }
  }

  /** Within k % 13 times epsilon, as a part of the radius, of the exact k-th radius vector. */
  ghost predicate Near(trig: Trig, j: Job, k: nat, p: (real, real), epsilon: real) {
    Gap(p, Exact(trig, j, k))
    <= Product(Square(Product((k % 13) as real, epsilon)), Norm(j.offset0, j.offset1))
  }

  lemma StartIsNear(trig: Trig, j: Job, epsilon: real)
    requires Angles(trig)
    ensures Near(trig, j, 0, (-j.offset0, -j.offset1), epsilon)
  {
    hide Gap;
    hide Exact;
    hide Product;
    hide Norm;
    hide Square;
    hide Angles;
    StartIsExact(trig, j);
    NoGap((-j.offset0, -j.offset1), Norm(j.offset0, j.offset1), epsilon);
  }

  lemma StaysNear(trig: Trig, j: Job, k: nat, from: (real, real), to: (real, real), epsilon: real)
    requires TurnOk(trig, j, k, from, to) && Near(trig, j, k, from, epsilon)
    requires Pythagorean(trig) && Angles(trig) && ErrsBy(trig, j.theta, epsilon) && Square(j.theta) <= 3.0
    ensures Near(trig, j, k + 1, to, epsilon)
  {
    hide Pythagorean;
    hide Angles;
    hide ErrsBy;
    hide Gap;
    hide Exact;
    hide Rotate;
    hide Turned;
    hide Product;
    hide Norm;
    hide Square;
    var m := Norm(j.offset0, j.offset1);
    if (k + 1) % 13 == 0 {
      CorrectedIsExact(trig, j, k, from, to);
      NoGap(to, m, epsilon);
    } else {
      ExactNorm(trig, j, k);
      ExactTurns(trig, j, k);
      OneTurn(trig, j.theta, from, to, Exact(trig, j, k), k % 13, epsilon, m);
      assert (k + 1) % 13 == k % 13 + 1;
    }
  }

  lemma CorrectedIsExact(trig: Trig, j: Job, k: nat, from: (real, real), to: (real, real))
    requires TurnOk(trig, j, k, from, to) && (k + 1) % 13 == 0
    ensures to == Exact(trig, j, k + 1)
  {}

  lemma NoGap(p: (real, real), m: real, epsilon: real)
    ensures Gap(p, p) == 0.0 == Product(Square(Product(0 as real, epsilon)), m)
  {
    assert p.0 - p.0 == 0.0 && p.1 - p.1 == 0.0;
    NoProduct(epsilon);
    NoProduct(0.0);
    NoProduct(m);
    hide Product;
  }

  lemma NoProduct(x: real)
    ensures Product(0.0, x) == 0.0
  {}

  // ----- The travel and the number of lines ------------------------------------------------

  lemma CrossDotRotate(x: real, y: real, a: real, b: real)
    ensures x * (x * a + y * b) - y * (x * b - y * a) == Product(Norm(x, y), a)
    ensures x * (x * b - y * a) + y * (x * a + y * b) == Product(Norm(x, y), b)
  {
    assert x * (x * a + y * b) == x * x * a + x * y * b && y * (x * b - y * a) == x * y * b - y * y * a;
    assert x * (x * b - y * a) == x * x * b - x * y * a && y * (x * a + y * b) == x * y * a + y * y * b;
  }

  /** The cross and dot product from which mc_arc takes its arctangent: an angle `a` that has them
      as sine and cosine, times a length h, turns the start's radius vector into the direction of
      the target's. */
  lemma TravelTurnsStartOntoTarget(j: Job, c: real, s: real, h: real)
    requires ValidJob(j) && Dot(j) == Product(h, c) && Cross(j) == Product(h, s)
    ensures var (x, y) := Rotate(-j.offset0, -j.offset1, c, s);
            var (a, b) := (j.target[j.plane.axis0] - Centre0(j), j.target[j.plane.axis1] - Centre1(j));
            && Product(h, x) == Product(Norm(j.offset0, j.offset1), a)
            && Product(h, y) == Product(Norm(j.offset0, j.offset1), b)
  {
    hide Rotate;
    hide Norm;
    hide Product;
    var a, b := j.target[j.plane.axis0] - Centre0(j), j.target[j.plane.axis1] - Centre1(j);
    OppositeOffsets(j.offset0, j.offset1, a, b);
    OppositeNorm(j.offset0, j.offset1);
    TurnOnto(-j.offset0, -j.offset1, a, b, c, s, h);
  }

  lemma OppositeNorm(p: real, q: real)
    ensures Norm(-p, -q) == Norm(p, q)
  {
    SquareFacts(p);
    SquareFacts(q);
  }

  lemma TurnOnto(u: real, v: real, a: real, b: real, c: real, s: real, h: real)
    requires u * a + v * b == Product(h, c) && u * b - v * a == Product(h, s)
    ensures Product(h, Rotate(u, v, c, s).0) == Product(Norm(u, v), a)
    ensures Product(h, Rotate(u, v, c, s).1) == Product(Norm(u, v), b)
  {
    CrossDotRotate(u, v, a, b);
    ScaledRotate(u, v, c, s, h, u * a + v * b, u * b - v * a);
    hide Rotate;
    hide Norm;
    hide Product;
  }

  lemma OppositeOffsets(p: real, q: real, a: real, b: real)
    ensures -p * b + q * a == -p * b - -q * a && -p * a - q * b == -p * a + -q * b
  {}

  lemma ScaledRotate(u: real, v: real, c: real, s: real, h: real, d: real, r: real)
    requires d == Product(h, c) && r == Product(h, s)
    ensures Product(h, Rotate(u, v, c, s).0) == u * d - v * r
    ensures Product(h, Rotate(u, v, c, s).1) == u * r + v * d
  {
    assert h * (u * c - v * s) == u * (h * c) - v * (h * s);
    assert h * (u * s + v * c) == u * (h * s) + v * (h * c);
  }

  /** The number of lines: as many whole chords of the tolerance as the arc's length holds.  The
      half chord is that of a sagitta equal to the tolerance. */
  lemma LinesFitTolerance(sqrt: real -> real, travel: real, radius: real, tolerance: real)
    requires IsSqrt(sqrt) && 0.0 < tolerance < 2.0 * radius && HalfChord(sqrt, radius, tolerance) > 0.0
    ensures var h, n := HalfChord(sqrt, radius, tolerance), SegmentCount(sqrt, travel, radius, tolerance);
            && Square(radius - tolerance) + Square(h) == Square(radius)
            && Product(n as real, 2.0 * h) <= Abs(Product(travel, radius)) < Product((n + 1) as real, 2.0 * h)
  {
    var h, n := HalfChord(sqrt, radius, tolerance), SegmentCount(sqrt, travel, radius, tolerance);
    ProductPositive(tolerance, 2.0 * radius - tolerance);
    SqrtSquares(sqrt, Product(tolerance, 2.0 * radius - tolerance));
    assert Square(radius - tolerance) + Product(tolerance, 2.0 * radius - tolerance) == Square(radius);
    FloorBounds(Abs(0.5 * Product(travel, radius)), h);
    Doubled(n, h);
  }

  lemma FloorBounds(a: real, h: real)
    requires h > 0.0
    ensures var n := (a / h).Floor; Product(n as real, h) <= a < Product((n + 1) as real, h)
  {
    var q := a / h;
    var n := q.Floor;
    assert q * h == a;
    ProductMonotone(h, n as real, q);
    assert Product(h, q) == a && Product(h, n as real) == Product(n as real, h);
    ProductPositive(h, (n + 1) as real - q);
    assert Product(h, (n + 1) as real - q) == Product((n + 1) as real, h) - a;
  }

  lemma Doubled(n: int, h: real)
    ensures Product(n as real, 2.0 * h) == 2.0 * Product(n as real, h)
    ensures Product((n + 1) as real, 2.0 * h) == 2.0 * Product((n + 1) as real, h)
  {}

  /** On every axis outside the arc's plane the k-th of n points divides the way from the start to
      the target as k to n - k. */
  lemma PointsAreEven(trig: Trig, j: Job, k: nat, p: seq<real>, axis: nat)
    requires ValidJob(j) && j.segments > 0 && PointOk(trig, j, k, p)
    requires axis < |p| && axis != j.plane.axis0 && axis != j.plane.axis1
    ensures Product(j.segments as real, p[axis])
         == Product((j.segments - k) as real, j.start[axis]) + Product(k as real, j.target[axis])
  {
    hide RadiiOk;
    EvenStep(j.start[axis], j.target[axis], j.segments, k, p[axis]);
  }

  lemma EvenStep(start: real, target: real, n: nat, k: nat, p: real)
    requires n > 0 && p == start + Product(k as real, (target - start) / n as real)
    ensures Product(n as real, p) == Product((n - k) as real, start) + Product(k as real, target)
  {
    var step := (target - start) / n as real;
    assert step * n as real == target - start;
    assert n as real * (start + k as real * step) == n as real * start + k as real * (step * n as real);
    assert (n - k) as real == n as real - k as real;
  }
}
