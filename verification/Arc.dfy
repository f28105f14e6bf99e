/** Arcs: the centre of a radius-format arc, the angle travelled, and the tracing of an arc by
    line segments.  Lengths and angles are real numbers; square root, sine, cosine and
    arctangent enter only through the identities stated. */
module Arc {

  // ----- Radius-format centre --------------------------------------------------------------

  ghost predicate IsSqrt(sqrt: real -> real) {
    forall a :: a >= 0.0 ==> sqrt(a) >= 0.0 && sqrt(a) * sqrt(a) == a
  }

  function Product(a: real, b: real): real { a * b }

  function Square(a: real): real { Product(a, a) }

  /** `Undefined`: a division by the zero distance between start and target in the plane. */
  datatype Centre = InvalidTarget | RadiusError | Undefined | Centre(i: real, j: real, r: real)

  /** The point off the middle of the chord (x, y) by h/2 of its length, to its left. */
  function Bisector(x: real, y: real, h: real): (real, real) {
    (0.5 * (x - y * h), 0.5 * (y + x * h))
  }

  /** Positive when (i, j) lies left of the direction (x, y). */
  function Side(x: real, y: real, i: real, j: real): real { x * j - y * i }

  /** The centre, relative to the start, of the arc of radius `radius` to the target (x, y). */
  function RadiusCentre(sqrt: real -> real, x: real, y: real, radius: real, ccw: bool): Centre {
    var disc := 4.0 * Square(radius) - Square(x) - Square(y);
    if disc < 0.0 then RadiusError else
    var d := sqrt(Square(x) + Square(y));
    if d == 0.0 then Undefined else
    var h0 := -sqrt(disc) / d;
    var h1 := if ccw then -h0 else h0;
    var h := if radius < 0.0 then -h1 else h1;
    Centre(Bisector(x, y, h).0, Bisector(x, y, h).1, if radius < 0.0 then -radius else radius)
  }

  /** A radius-format arc between two positions: refused when they agree on all axes. */
  function RadiusArc(sqrt: real -> real, start: seq<real>, target: seq<real>, axis0: nat, axis1: nat,
                     radius: real, ccw: bool): Centre
    requires axis0 < |start| == |target| && axis1 < |start|
  {
    if start == target then InvalidTarget
    else RadiusCentre(sqrt, target[axis0] - start[axis0], target[axis1] - start[axis1], radius, ccw)
  }

  lemma SquareFacts(a: real)
    ensures Square(a) >= 0.0 && Square(-a) == Square(a)
    ensures Square(a) == 0.0 <==> a == 0.0
  {
    if a != 0.0 {
      SquarePositive(if a > 0.0 then a else -a);
    }
  }

  lemma SquarePositive(a: real)
    requires a > 0.0
    ensures Square(a) > 0.0
  {
    ProductPositive(a, a);
  }

  lemma ProductPositive(a: real, b: real)
    requires a > 0.0 && b > 0.0
    ensures Product(a, b) > 0.0
  {}

  /** With h² · (x² + y²) = disc, the centre is at squared distance r² from both ends, and its
      side of the travel direction is the sign of h. */
  lemma CentreAlgebra(x: real, y: real, h: real, dd: real, disc: real)
    requires dd == Square(x) + Square(y) && Product(Square(h), dd) == disc
    ensures var (i, j) := Bisector(x, y, h);
            && 4.0 * (Square(i) + Square(j)) == dd + disc
            && 4.0 * (Square(x - i) + Square(y - j)) == dd + disc
            && 2.0 * Side(x, y, i, j) == Product(h, dd)
  {
    var a, b := x - y * h, y + x * h;
    assert a * a == x * x - 2.0 * (x * y * h) + h * h * (y * y);
    assert b * b == y * y + 2.0 * (x * y * h) + h * h * (x * x);
    var p, q := x + y * h, y - x * h;
    assert p * p == x * x + 2.0 * (x * y * h) + h * h * (y * y);
    assert q * q == y * y - 2.0 * (x * y * h) + h * h * (x * x);
    var i, j := 0.5 * a, 0.5 * b;
    assert x - i == 0.5 * p && y - j == 0.5 * q;
    assert 4.0 * (i * i) == a * a && 4.0 * (j * j) == b * b;
    assert 4.0 * ((x - i) * (x - i)) == p * p && 4.0 * ((y - j) * (y - j)) == q * q;
    assert 2.0 * (x * j) == x * y + h * (x * x) && 2.0 * (y * i) == y * x - h * (y * y);
  }

  lemma QuotientSquare(s: real, d: real, h: real)
    requires d > 0.0 && (h == s / d || h == -(s / d))
    ensures Product(Square(h), Square(d)) == Square(s)
  {
    var q := s / d;
    assert q * d == s;
    assert h * h == q * q;
    assert q * q * (d * d) == (q * d) * (q * d);
  }

  lemma RadiusCentreAccepts(sqrt: real -> real, x: real, y: real, radius: real, ccw: bool)
    requires IsSqrt(sqrt)
    ensures var c := RadiusCentre(sqrt, x, y, radius, ccw);
            && !c.InvalidTarget?
            && (c.RadiusError? <==> 4.0 * Square(radius) < Square(x) + Square(y))
            && (c.Undefined? <==> x == 0.0 && y == 0.0)
  {
    SquareFacts(x);
    SquareFacts(y);
    SquareFacts(radius);
    SquareFacts(sqrt(Square(x) + Square(y)));
    assert Square(sqrt(Square(x) + Square(y))) == Square(x) + Square(y);
  }

  /** Which radius-format arcs are accepted.  An arc is an invalid target exactly when its ends
      agree on all axes, and an arc radius error exactly when they are further apart in the
      plane than a diameter; but ends that agree in the plane and differ on another axis reach
      the division by their distance.  Every other arc gets a centre. */
  lemma RadiusArcAccepts(sqrt: real -> real, start: seq<real>, target: seq<real>, axis0: nat, axis1: nat,
                         radius: real, ccw: bool)
    requires IsSqrt(sqrt) && axis0 < |start| == |target| && axis1 < |start|
    ensures var c := RadiusArc(sqrt, start, target, axis0, axis1, radius, ccw);
            var chord := Square(target[axis0] - start[axis0]) + Square(target[axis1] - start[axis1]);
            var meet := start[axis0] == target[axis0] && start[axis1] == target[axis1];
            && (c.InvalidTarget? <==> forall a :: 0 <= a < |start| ==> start[a] == target[a])
            && (c.RadiusError? <==> 4.0 * Square(radius) < chord)
            && (c.Undefined? <==> meet && exists a :: 0 <= a < |start| && start[a] != target[a])
            && (c.Centre? <==> !meet && chord <= 4.0 * Square(radius))
  {
    var x, y := target[axis0] - start[axis0], target[axis1] - start[axis1];
    SquareFacts(radius);
    SquareFacts(x);
    SquareFacts(y);
    RadiusCentreAccepts(sqrt, x, y, radius, ccw);
  }

  /** Every accepted radius-format arc whose ends differ in the plane: the centre is at
      distance |R| from both ends, and left of travel exactly when counter-clockwise xor
      R < 0 (on the line of travel when the two ends are a diameter apart). */
  lemma RadiusCentreIsCentre(sqrt: real -> real, x: real, y: real, radius: real, ccw: bool)
    requires IsSqrt(sqrt) && RadiusCentre(sqrt, x, y, radius, ccw).Centre?
    ensures var c := RadiusCentre(sqrt, x, y, radius, ccw);
            && c.r >= 0.0 && Square(c.r) == Square(radius)
            && Square(c.i) + Square(c.j) == Square(radius)
            && Square(x - c.i) + Square(y - c.j) == Square(radius)
            && var side := Side(x, y, c.i, c.j);
               if 4.0 * Square(radius) == Square(x) + Square(y) then side == 0.0
               else side != 0.0 && (side > 0.0 <==> ccw != (radius < 0.0))
  {
    hide Square;
    hide Bisector;
    hide Side;
    hide Product;
    var dd := Square(x) + Square(y);
    var disc := 4.0 * Square(radius) - Square(x) - Square(y);
    SquareFacts(x);
    SquareFacts(y);
    SquareFacts(radius);
    SqrtSquares(sqrt, dd);
    SqrtSquares(sqrt, disc);
    var c := RadiusCentre(sqrt, x, y, radius, ccw);
    var d, s := sqrt(dd), sqrt(disc);
    var left := ccw != (radius < 0.0);
    var h := if left then s / d else -(s / d);
    assert -s / d == -(s / d);
    assert c.i == Bisector(x, y, h).0 && c.j == Bisector(x, y, h).1;
    QuotientSquare(s, d, h);
    CentreAlgebra(x, y, h, dd, disc);
    SideSign(h, s, d, left);
  }

  lemma SqrtSquares(sqrt: real -> real, a: real)
    requires IsSqrt(sqrt) && a >= 0.0
    ensures sqrt(a) >= 0.0 && Square(sqrt(a)) == a
  {}

  lemma SideSign(h: real, s: real, d: real, left: bool)
    requires d > 0.0 && s >= 0.0
    requires h == if left then s / d else -(s / d)
    ensures Square(s) == 0.0 ==> Product(h, Square(d)) == 0.0
    ensures Square(s) != 0.0 ==> Product(h, Square(d)) != 0.0 && (Product(h, Square(d)) > 0.0 <==> left)
  {
    var q := s / d;
    assert q * d == s;
    assert q * (d * d) == (q * d) * d == s * d;
    assert Product(h, Square(d)) == if left then Product(s, d) else -Product(s, d);
    SquareFacts(s);
    if s > 0.0 {
      ProductPositive(s, d);
    }
  }

  /** The same of every accepted arc between two positions, whatever their other axes. */
  lemma RadiusArcHasCentre(sqrt: real -> real, start: seq<real>, target: seq<real>, axis0: nat, axis1: nat,
                           radius: real, ccw: bool)
    requires IsSqrt(sqrt) && axis0 < |start| == |target| && axis1 < |start|
    requires RadiusArc(sqrt, start, target, axis0, axis1, radius, ccw).Centre?
    ensures var c := RadiusArc(sqrt, start, target, axis0, axis1, radius, ccw);
            var (c0, c1) := (start[axis0] + c.i, start[axis1] + c.j);
            && c.r >= 0.0 && Square(c.r) == Square(radius)
            && Square(c0 - start[axis0]) + Square(c1 - start[axis1]) == Square(radius)
            && Square(target[axis0] - c0) + Square(target[axis1] - c1) == Square(radius)
            && var (x, y) := (target[axis0] - start[axis0], target[axis1] - start[axis1]);
               if 4.0 * Square(radius) == Square(x) + Square(y) then Side(x, y, c.i, c.j) == 0.0
               else Side(x, y, c.i, c.j) != 0.0 && (Side(x, y, c.i, c.j) > 0.0 <==> ccw != (radius < 0.0))
  {
    hide Square;
    hide Side;
    hide RadiusCentre;
    var x, y := target[axis0] - start[axis0], target[axis1] - start[axis1];
    var c := RadiusArc(sqrt, start, target, axis0, axis1, radius, ccw);
    RadiusCentreIsCentre(sqrt, x, y, radius, ccw);
    assert target[axis0] - (start[axis0] + c.i) == x - c.i && target[axis1] - (start[axis1] + c.j) == y - c.j;
    assert start[axis0] + c.i - start[axis0] == c.i && start[axis1] + c.j - start[axis1] == c.j;
  }
}
