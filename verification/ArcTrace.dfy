/** mc_arc(): an arc traced by line segments whose end points come from approximate rotations,
    corrected exactly after every twelve. */
module ArcTrace {
  import opened Arc

  const N_ARC_CORRECTION := 12
  const UINT16 := 0x1_0000

  // ----- The angle travelled ---------------------------------------------------------------

  function Turns(n: int, pi: real): real { Product(n as real, 2.0 * pi) }

  /** mc_arc's correction of the arctangent for the direction and the extra turns of P. */
  function AngularTravel(atan: real, pi: real, epsilon: real, clockwise: bool, turns: int): real {
    if clockwise then
      var a := if atan >= -epsilon then atan - 2.0 * pi else atan;
      if turns > 1 then a - Turns(turns - 1, pi) else a
    else
      var a := if atan <= epsilon then atan + 2.0 * pi else atan;
      if turns > 1 then a + Turns(turns - 1, pi) else a
  }

  /** The travel has the programmed direction, leads to the same point (a whole number `n` of
      turns away from the arctangent), and makes `turns` turns, the last possibly partial. */
  lemma TravelFollowsDirection(atan: real, pi: real, epsilon: real, clockwise: bool, turns: int) returns (n: int)
    requires -pi <= atan <= pi && 0.0 < epsilon < pi
    ensures var a := AngularTravel(atan, pi, epsilon, clockwise, turns);
            var p := if turns > 1 then turns else 1;
            && a == atan + Turns(n, pi)
            && if clockwise then -Turns(p, pi) - epsilon <= a < -Turns(p - 1, pi) - epsilon
               else Turns(p - 1, pi) + epsilon < a <= Turns(p, pi) + epsilon
  {
    var p := if turns > 1 then turns else 1;
    if clockwise {
      n := if atan >= -epsilon then -p else -(p - 1);
    } else {
      n := if atan <= epsilon then p else p - 1;
    }
    OneMoreTurn(p - 1, pi);
    OppositeTurns(p, pi);
    OppositeTurns(p - 1, pi);
    NoTurn(pi);
  }

  lemma OneMoreTurn(n: int, pi: real)
    ensures Turns(n + 1, pi) == Turns(n, pi) + 2.0 * pi
  {}

  lemma OppositeTurns(n: int, pi: real)
    ensures Turns(-n, pi) == -Turns(n, pi)
  {}

  lemma NoTurn(pi: real)
    ensures Turns(0, pi) == 0.0
  {}

  // ----- The approximate rotation ----------------------------------------------------------

  /** The third-order approximations of cosine and sine. */
  function CosT(t: real): real { (2.0 - t * t) * 0.5 }

  function SinT(t: real): real { t * (1.0 / 6.0) * ((2.0 - t * t) + 4.0) }

  /** What one approximate rotation does to the squared radius. */
  function Shrink(t: real): real {
    var q := Square(t);
    1.0 - Square(q) / 12.0 + Product(Square(q), q) / 36.0
  }

  function Pow(k: real, n: nat): real {
    if n == 0 then 1.0 else Product(k, Pow(k, n - 1))
  }

  function Norm(x: real, y: real): real { Square(x) + Square(y) }

  /** The vector (x, y) times the rotation matrix of cosine c and sine s. */
  function Rotate(x: real, y: real, c: real, s: real): (real, real) {
    (x * c - y * s, x * s + y * c)
  }

  lemma RotationScales(x: real, y: real, c: real, s: real)
    ensures var (a, b) := Rotate(x, y, c, s); Norm(a, b) == Product(Norm(x, y), Norm(c, s))
  {
    var a, b := x * c - y * s, x * s + y * c;
    assert a * a == x * x * (c * c) - 2.0 * (x * y * (c * s)) + y * y * (s * s);
    assert b * b == x * x * (s * s) + 2.0 * (x * y * (c * s)) + y * y * (c * c);
  }

  lemma ApproximationNorm(t: real)
    ensures Norm(CosT(t), SinT(t)) == Shrink(t)
  {
    var q := t * t;
    assert CosT(t) * CosT(t) == 1.0 - q + q * q / 4.0;
    var u := 1.0 - q / 6.0;
    assert SinT(t) == t * u;
    assert (t * u) * (t * u) == q * (u * u);
    assert u * u == 1.0 - q / 3.0 + q * q / 36.0;
    assert q * (u * u) == q - q * q / 3.0 + q * q * q / 36.0;
  }

  lemma ShrinkBounds(t: real)
    requires Square(t) <= 3.0
    ensures 0.0 <= 1.0 - Square(Square(t)) / 12.0 <= Shrink(t) <= 1.0
  {
    var q := Square(t);
    SquareFacts(t);
    var qq := Square(q);
    SquareFacts(q);
    assert Product(qq, q) <= 3.0 * qq && Product(qq, q) >= 0.0 && qq <= 9.0 by {
      ProductMonotone(qq, q, 3.0);
      ProductMonotone(q, q, 3.0);
      ProductMonotone(qq, 0.0, q);
    }
  }

  lemma ProductMonotone(a: real, x: real, y: real)
    requires a >= 0.0 && x <= y
    ensures Product(a, x) <= Product(a, y)
  {
    assert a * (y - x) >= 0.0;
  }

  /** Bernoulli's inequality, for a factor between 1 - u and 1. */
  lemma {:induction false} Bernoulli(k: real, u: real, n: nat)
    requires 0.0 <= 1.0 - u <= k <= 1.0
    ensures 0.0 <= Pow(k, n) <= 1.0 && Pow(k, n) >= 1.0 - Product(n as real, u)
  {
    if n > 0 {
      Bernoulli(k, u, n - 1);
      var p := Pow(k, n - 1);
      assert Product(n as real, u) == Product((n - 1) as real, u) + u;
      ProductMonotone(k, 0.0, p);
      ProductMonotone(k, p, 1.0);
      ProductMonotone(p, 1.0 - u, k);
      ProductMonotone(u, p, 1.0);
      assert Product(p, 1.0 - u) == p - Product(u, p);
      assert Product(k, p) == Product(p, k);
    }
  }

  /** Up to twelve approximate rotations keep the squared radius within a factor
      [1 - t⁴, 1] of the exact one. */
  lemma RadiusBound(t: real, n: nat)
    requires Square(t) <= 3.0 && n <= N_ARC_CORRECTION
    ensures 1.0 - Square(Square(t)) <= Pow(Shrink(t), n) <= 1.0
  {
    var u := Square(Square(t)) / 12.0;
    ShrinkBounds(t);
    Bernoulli(Shrink(t), u, n);
    SquareFacts(Square(t));
    ProductMonotone(u, n as real, 12.0);
    assert Product(n as real, u) == Product(u, n as real);
    assert Product(u, 12.0) == Square(Square(t));
  }

  // ----- The trace -------------------------------------------------------------------------

  datatype Trig = Trig(cos: real -> real, sin: real -> real)

  ghost predicate Pythagorean(trig: Trig) {
    forall x :: Norm(trig.cos(x), trig.sin(x)) == 1.0
  }

  /** A line handed to the planner: where it believes it starts, where it ends, its feed. */
  datatype Segment = Segment(from: seq<real>, to: seq<real>, feed: real)

  datatype Plane = Plane(axis0: nat, axis1: nat, linear: nat)

  /** The three plane axes are X, Y and Z in some order; the others are rotary. */
  predicate ValidPlane(p: Plane) {
    p.axis0 < 3 && p.axis1 < 3 && p.linear < 3 && p.axis0 != p.axis1 && p.axis1 != p.linear && p.axis0 != p.linear
  }

  /** The arc to trace, with its segment count and angle per segment. */
  datatype Job = Job(
    plane: Plane, start: seq<real>, target: seq<real>,
    offset0: real, offset1: real, theta: real, segments: nat)

  predicate ValidJob(j: Job) {
    ValidPlane(j.plane) && 3 <= |j.start| == |j.target|
  }

  function Centre0(j: Job): real requires ValidJob(j) { j.start[j.plane.axis0] + j.offset0 }

  function Centre1(j: Job): real requires ValidJob(j) { j.start[j.plane.axis1] + j.offset1 }

  predicate IsLinear(j: Job, axis: nat) { axis == j.plane.linear || axis >= 3 }

  function StepOf(j: Job, axis: nat): real
    requires ValidJob(j) && axis < |j.start| && j.segments > 0
  {
    (j.target[axis] - j.start[axis]) / j.segments as real
  }

  /** How many approximate rotations have run since the last exact one, at point k. */
  function Drift(k: nat): nat { k % (N_ARC_CORRECTION + 1) }

  /** The exact angle of point k. */
  function AngleAt(j: Job, k: nat): real { Product(k as real, j.theta) }

  ghost predicate RadiiOk(trig: Trig, j: Job, k: nat, x: real, y: real) {
    && Norm(x, y) == Product(Norm(j.offset0, j.offset1), Pow(Shrink(j.theta), Drift(k)))
    && (k > 0 && Drift(k) == 0 ==> (x, y) == Rotated(trig, j, AngleAt(j, k)))
  }

  /** The start's radius vector (the opposite of the offset) rotated by `a`. */
  function Rotated(trig: Trig, j: Job, a: real): (real, real) {
    (-j.offset0 * trig.cos(a) + j.offset1 * trig.sin(a), -j.offset0 * trig.sin(a) - j.offset1 * trig.cos(a))
  }

  /** The k-th intermediate point: on a circle shrunk by as many approximate rotations as ran
      since the last exact one, exactly rotated when none did, and evenly spaced on the
      linear and rotary axes. */
  ghost predicate PointOk(trig: Trig, j: Job, k: nat, p: seq<real>)
    requires ValidJob(j) && j.segments > 0
  {
    && |p| == |j.start|
    && RadiiOk(trig, j, k, p[j.plane.axis0] - Centre0(j), p[j.plane.axis1] - Centre1(j))
    && (forall a: nat :: a < |p| && IsLinear(j, a) ==> p[a] == j.start[a] + Product(k as real, StepOf(j, a)))
  }

  lemma CorrectedRotation(trig: Trig, j: Job, k: nat)
    requires Pythagorean(trig) && Drift(k) == 0
    ensures var (x, y) := Rotated(trig, j, AngleAt(j, k)); RadiiOk(trig, j, k, x, y)
  {
    var a := AngleAt(j, k);
    var c, s := trig.cos(a), trig.sin(a);
    RotationScales(-j.offset0, -j.offset1, c, s);
    assert -j.offset0 * c + j.offset1 * s == -j.offset0 * c - (-j.offset1) * s;
    assert -j.offset0 * s - j.offset1 * c == -j.offset0 * s + (-j.offset1) * c;
    SquareFacts(j.offset0);
    SquareFacts(j.offset1);
    assert Norm(c, s) == 1.0;
  }

  /** (a, b) is (x, y) turned by the third-order approximation of the angle t. */
  ghost predicate Turned(t: real, x: real, y: real, a: real, b: real) {
    && a == Product(x, 1.0 - t * t / 2.0) - Product(y, t - t * t * t / 6.0)
    && b == Product(x, t - t * t * t / 6.0) + Product(y, 1.0 - t * t / 2.0)
  }

  lemma RotateTurns(t: real, x: real, y: real)
    ensures var (a, b) := Rotate(x, y, CosT(t), SinT(t)); Turned(t, x, y, a, b)
  {
    Polynomials(t);
    RotateProducts(x, y, CosT(t), SinT(t));
    hide CosT;
    hide SinT;
    hide Rotate;
    hide Product;
  }

  lemma RotateProducts(x: real, y: real, c: real, s: real)
    ensures Rotate(x, y, c, s) == (Product(x, c) - Product(y, s), Product(x, s) + Product(y, c))
  {}

  lemma Polynomials(t: real)
    ensures CosT(t) == 1.0 - t * t / 2.0 && SinT(t) == t - t * t * t / 6.0
  {
    assert t * (1.0 / 6.0) * ((2.0 - t * t) + 4.0) == t - t * (t * t) / 6.0;
    assert t * (t * t) == t * t * t;
  }

  /** From (x, y) to (a, b): their cross and dot products are those of vectors at the angle of the
      approximation, so that for 0 < t² < 6 the turn is in the direction of t. */
  lemma TurnDirection(t: real, x: real, y: real, a: real, b: real)
    requires Turned(t, x, y, a, b)
    ensures x * b - y * a == Product(Norm(x, y), t - t * t * t / 6.0)
    ensures x * a + y * b == Product(Norm(x, y), 1.0 - t * t / 2.0)
    ensures 0.0 < t * t < 6.0 && Norm(x, y) > 0.0 ==> (x * b - y * a > 0.0 <==> t > 0.0) && x * b - y * a != 0.0
  {
    TurnProducts(x, y, a, b, 1.0 - t * t / 2.0, t - t * t * t / 6.0);
    if 0.0 < t * t < 6.0 && Norm(x, y) > 0.0 {
      SineSign(t);
      SignOfProduct(Norm(x, y), t - t * t * t / 6.0);
    }
    hide Product;
    hide Norm;
  }

  lemma TurnProducts(x: real, y: real, a: real, b: real, c: real, s: real)
    requires a == Product(x, c) - Product(y, s) && b == Product(x, s) + Product(y, c)
    ensures x * b - y * a == Product(Norm(x, y), s) && x * a + y * b == Product(Norm(x, y), c)
  {
    CrossDot(x, y, c, s);
  }

  lemma SignOfProduct(n: real, s: real)
    requires n > 0.0 && s != 0.0
    ensures Product(n, s) != 0.0 && (Product(n, s) > 0.0 <==> s > 0.0)
  {
    ProductPositive(n, if s > 0.0 then s else -s);
  }

  lemma SineSign(t: real)
    requires 0.0 < t * t < 6.0
    ensures t - t * t * t / 6.0 != 0.0 && (t - t * t * t / 6.0 > 0.0 <==> t > 0.0)
  {
    var u := 1.0 - t * t / 6.0;
    assert t - t * t * t / 6.0 == Product(u, t);
    SignOfProduct(u, t);
  }

  lemma CrossDot(x: real, y: real, c: real, s: real)
    ensures x * (Product(x, s) + Product(y, c)) - y * (Product(x, c) - Product(y, s)) == Product(Norm(x, y), s)
    ensures x * (Product(x, c) - Product(y, s)) + y * (Product(x, s) + Product(y, c)) == Product(Norm(x, y), c)
  {
    assert x * (x * s + y * c) == x * x * s + x * y * c && y * (x * c - y * s) == x * y * c - y * y * s;
    assert x * (x * c - y * s) == x * x * c - x * y * s && y * (x * s + y * c) == x * y * s + y * y * c;
  }

  lemma ApproximateRotation(trig: Trig, j: Job, k: nat, x: real, y: real)
    requires RadiiOk(trig, j, k, x, y) && Drift(k) < N_ARC_CORRECTION
    ensures var (a, b) := Rotate(x, y, CosT(j.theta), SinT(j.theta)); RadiiOk(trig, j, k + 1, a, b)
  {
    hide CosT;
    hide SinT;
    hide Shrink;
    hide Norm;
    hide Rotate;
    var t := j.theta;
    RotationScales(x, y, CosT(t), SinT(t));
    ApproximationNorm(t);
    var r, p, f := Norm(j.offset0, j.offset1), Pow(Shrink(t), Drift(k)), Shrink(t);
    assert Product(Product(r, p), f) == Product(r, Product(f, p));
    DriftStep(k);
    assert Pow(f, Drift(k + 1)) == Product(f, p);
  }

  lemma DriftStep(k: nat)
    ensures Drift(k + 1) == (k + 1) % 13
    ensures Drift(k + 1) == if Drift(k) < N_ARC_CORRECTION then Drift(k) + 1 else 0
  {}

  /** The radius vector of point `k` of the trace; the start's is the opposite of the offset. */
  function Radius(j: Job, lines: seq<Segment>, k: nat): (real, real)
    requires ValidJob(j) && k <= |lines| && (k > 0 ==> |lines[k - 1].to| == |j.start|)
  {
    if k == 0 then (-j.offset0, -j.offset1)
    else (lines[k - 1].to[j.plane.axis0] - Centre0(j), lines[k - 1].to[j.plane.axis1] - Centre1(j))
  }

  /** From one point to the next: an approximate turn, or the exact rotation of the start after
      every twelve of them. */
  ghost predicate TurnOk(trig: Trig, j: Job, k: nat, from: (real, real), to: (real, real)) {
    if (k + 1) % 13 == 0 then to == Rotated(trig, j, AngleAt(j, k + 1))
    else Turned(j.theta, from.0, from.1, to.0, to.1)
  }

  lemma TurnsApproximately(trig: Trig, j: Job, k: nat, x: real, y: real)
    requires Drift(k) < N_ARC_CORRECTION
    ensures TurnOk(trig, j, k, (x, y), Rotate(x, y, CosT(j.theta), SinT(j.theta)))
  {
    DriftStep(k);
    RotateTurns(j.theta, x, y);
    hide Turned;
  }

  lemma TurnsExactly(trig: Trig, j: Job, k: nat, from: (real, real))
    requires Drift(k) >= N_ARC_CORRECTION
    ensures TurnOk(trig, j, k, from, Rotated(trig, j, AngleAt(j, k + 1)))
  {
    DriftStep(k);
  }

  lemma AngleIs(j: Job, k: nat)
    ensures k as real * j.theta == AngleAt(j, k)
  {}

  /** Each line starts where the one before ended on the plane's axes; on the rotary axes the
      code never advances its idea of the previous position. */
  ghost predicate Chained(j: Job, lines: seq<Segment>)
    requires ValidJob(j)
  {
    forall k {:trigger Before(j, lines, k)} :: 0 <= k < |lines| ==> LinkOk(j, lines[k].from, Before(j, lines, k))
  }

  /** Where line `k` should start. */
  function Before(j: Job, lines: seq<Segment>, k: nat): seq<real>
    requires k <= |lines|
  {
    if k == 0 then j.start else lines[k - 1].to
  }

  ghost predicate LinkOk(j: Job, from: seq<real>, before: seq<real>)
    requires ValidJob(j)
  {
    && |from| == |before| == |j.start|
    && (forall a :: 0 <= a < |j.start| ==> from[a] == if a < 3 then before[a] else j.start[a])
  }

  /** The previous position after a line: only the plane's axes catch up. */
  function Caught(previous: seq<real>, now: seq<real>, p: Plane): (s: seq<real>)
    requires ValidPlane(p) && 3 <= |previous| == |now|
    ensures |s| == |now|
  {
    previous[p.axis0 := now[p.axis0]][p.axis1 := now[p.axis1]][p.linear := now[p.linear]]
  }

  lemma LinkNext(j: Job, from: seq<real>, before: seq<real>, now: seq<real>)
    requires ValidJob(j) && LinkOk(j, from, before) && |now| == |j.start|
    ensures LinkOk(j, Caught(from, now, j.plane), now)
  {}

  /** Adds one step to every rotary axis. */
  method AdvanceRotary(j: Job, position: array<real>)
    requires ValidJob(j) && position.Length == |j.start| && j.segments > 0
    modifies position
    ensures forall a :: 0 <= a < position.Length ==>
              position[a] == if a >= 3 then old(position[a]) + StepOf(j, a) else old(position[a])
  {
    for i := 3 to position.Length
      invariant forall a :: 0 <= a < position.Length ==>
                  position[a] == if 3 <= a < i then old(position[a]) + StepOf(j, a) else old(position[a])
    {
      position[i] := position[i] + StepOf(j, i);
    }
  }

  /** Moves `position` to the next point of the arc. */
  method NextPoint(ghost trig: Trig, j: Job, position: array<real>, x: real, y: real, ghost k: nat)
    requires ValidJob(j) && j.segments > 0 && k > 0
    requires PointOk(trig, j, k - 1, position[..]) && RadiiOk(trig, j, k, x, y)
    modifies position
    ensures PointOk(trig, j, k, position[..])
    ensures position[j.plane.axis0] == Centre0(j) + x && position[j.plane.axis1] == Centre1(j) + y
  {
    hide RadiiOk;
    position[j.plane.axis0] := Centre0(j) + x;
    position[j.plane.axis1] := Centre1(j) + y;
    position[j.plane.linear] := position[j.plane.linear] + StepOf(j, j.plane.linear);
    AdvanceRotary(j, position);
    assert Centre0(j) + x - Centre0(j) == x && Centre1(j) + y - Centre1(j) == y;
    forall a: nat | a < position.Length && IsLinear(j, a)
      ensures position[a] == j.start[a] + Product(k as real, StepOf(j, a))
    {
      OneMoreStep(k, StepOf(j, a));
    }
  }

  lemma OneMoreStep(k: nat, step: real)
    requires k > 0
    ensures Product(k as real, step) == Product((k - 1) as real, step) + step
  {}

  /** What every line of an arc satisfies; the first `n` lines are intermediate ones. */
  ghost predicate TraceOk(trig: Trig, j: Job, feed: real, lines: seq<Segment>, n: nat)
    requires ValidJob(j) && j.segments > 0
  {
    && n <= |lines| && Chained(j, lines)
    && (forall k :: 0 <= k < n ==> PointOk(trig, j, k + 1, lines[k].to) && lines[k].feed == feed)
    && (forall k :: 0 <= k < n ==> |lines[k].to| == |j.start|)
    && (forall k :: 0 <= k < n ==> TurnOk(trig, j, k, Radius(j, lines, k), Radius(j, lines, k + 1)))
  }

  lemma TraceExtends(trig: Trig, j: Job, feed: real, lines: seq<Segment>, line: Segment, n: nat)
    requires ValidJob(j) && j.segments > 0 && TraceOk(trig, j, feed, lines, |lines|)
    requires LinkOk(j, line.from, Before(j, lines, |lines|))
    requires n == |lines| || (n == |lines| + 1 && PointOk(trig, j, n, line.to) && line.feed == feed)
    requires n > |lines| ==> |line.to| == |j.start| && (|lines| > 0 ==> |lines[|lines| - 1].to| == |j.start|)
    requires n > |lines| ==>
               TurnOk(trig, j, |lines|, Radius(j, lines, |lines|),
                      (line.to[j.plane.axis0] - Centre0(j), line.to[j.plane.axis1] - Centre1(j)))
    ensures TraceOk(trig, j, feed, lines + [line], n)
  {
    hide PointOk;
    hide LinkOk;
    var all := lines + [line];
    forall k | 0 <= k < |all| ensures LinkOk(j, all[k].from, Before(j, all, k)) {
      if k < |lines| {
        assert all[k] == lines[k] && (k > 0 ==> all[k - 1] == lines[k - 1]);
        assert LinkOk(j, lines[k].from, Before(j, lines, k));
      } else {
        assert all[k] == line && (k > 0 ==> all[k - 1] == lines[|lines| - 1]);
      }
    }
    hide TurnOk;
    forall k | 0 <= k < n ensures TurnOk(trig, j, k, Radius(j, all, k), Radius(j, all, k + 1)) {
      if k < |lines| {
        assert Radius(j, all, k) == Radius(j, lines, k) && Radius(j, all, k + 1) == Radius(j, lines, k + 1);
      } else {
        assert Radius(j, all, k) == Radius(j, lines, |lines|);
      }
    }
  }

  /** The next radius vector: an approximate turn of the last one, or after every twelve of these
      an exact turn of the first. */
  method NextRadius(trig: Trig, j: Job, i: nat, x: real, y: real, count: nat, cosT: real, sinT: real)
    returns (x': real, y': real, count': nat)
    requires Pythagorean(trig) && i > 0 && count == Drift(i - 1) && cosT == CosT(j.theta) && sinT == SinT(j.theta)
    requires RadiiOk(trig, j, i - 1, x, y)
    ensures RadiiOk(trig, j, i, x', y') && TurnOk(trig, j, i - 1, (x, y), (x', y')) && count' == Drift(i)
  {
    hide Rotate;
    hide Rotated;
    hide Norm;
    hide RadiiOk;
    hide TurnOk;
    hide AngleAt;
    hide CosT;
    hide SinT;
    DriftStep(i - 1);
    if count < N_ARC_CORRECTION {
      ApproximateRotation(trig, j, i - 1, x, y);
      TurnsApproximately(trig, j, i - 1, x, y);
      var rotated := Rotate(x, y, cosT, sinT);
      return rotated.0, rotated.1, count + 1;
    } else {
      CorrectedRotation(trig, j, i);
      TurnsExactly(trig, j, i - 1, (x, y));
      AngleIs(j, i);
      var angle := i as real * j.theta;
      var exact := Rotated(trig, j, angle);
      return exact.0, exact.1, 0;
    }
  }

  /** mc_arc() from the computed travel and segment count on.  The kinematics behind a line
      may change the planner's feed, each line in its own way (`alter`), and a system abort
      may be seen after any intermediate line. */
  method TraceArc(trig: Trig, alter: (nat, real) -> real, abort: nat -> bool, target: seq<real>, position: array<real>,
                  offset0: real, offset1: real, plane: Plane, travel: real, segments: nat,
                  feed: real, inverseTime: bool)
    returns (lines: seq<Segment>, aborted: bool)
    requires ValidPlane(plane) && 3 <= position.Length == |target| && Pythagorean(trig)
    modifies position
    ensures segments == 0 ==> !aborted && lines == [Segment(old(position[..]), target, feed)]
    ensures segments > 0 ==>
              var j := Job(plane, old(position[..]), target, offset0, offset1, travel / segments as real, segments);
              var rate := if inverseTime then feed * segments as real else feed;
              if aborted then 0 < |lines| < segments && abort(|lines|) && TraceOk(trig, j, rate, lines, |lines|)
              else
                && |lines| == segments && lines[segments - 1].to == target
                && lines[segments - 1].feed == (if segments == 1 then rate else alter(segments - 1, rate))
                && TraceOk(trig, j, rate, lines, segments - 1)
    ensures aborted <==> exists k :: 0 < k < segments && abort(k)
  {
    hide Rotate;
    hide Rotated;
    hide Norm;
    hide PointOk;
    hide RadiiOk;
    hide TraceOk;
    hide Drift;
    hide LinkOk;
    hide Caught;
    hide TurnOk;
    hide AngleAt;
    lines, aborted := [], false;
    var previous := position[..];
    var rate := feed;
    if segments > 0 {
      if inverseTime {
        rate := rate * segments as real;
      }
      var original := rate;
      var j := Job(plane, position[..], target, offset0, offset1, travel / segments as real, segments);
      var cosT, sinT := CosT(j.theta), SinT(j.theta);
      var radius0, radius1 := -offset0, -offset1;
      var count := 0;
      StartOk(trig, j, original);
      for i := 1 to segments
        invariant |lines| == i - 1 && count == Drift(i - 1)
        invariant RadiiOk(trig, j, i - 1, radius0, radius1)
        invariant PointOk(trig, j, i - 1, position[..])
        invariant TraceOk(trig, j, original, lines, i - 1)
        invariant LinkOk(j, previous, Before(j, lines, i - 1))
        invariant |previous| == position.Length
        invariant i > 1 ==> |lines[i - 2].to| == |j.start|
        invariant (radius0, radius1) == Radius(j, lines, i - 1)
        invariant rate == if i == 1 then original else alter(i - 1, original)
        invariant forall k :: 0 < k < i ==> !abort(k)
      {
        ghost var from := (radius0, radius1);
        radius0, radius1, count := NextRadius(trig, j, i, radius0, radius1, count, cosT, sinT);
        NextPoint(trig, j, position, radius0, radius1, i);
        rate := original;
        ReachedRadius(j, position[j.plane.axis0], position[j.plane.axis1], radius0, radius1);
        var line := Segment(previous, position[..], rate);
        TraceExtends(trig, j, original, lines, line, i);
        LinkNext(j, previous, Before(j, lines, i - 1), position[..]);
        lines := lines + [line];
        rate := alter(i, rate);
        previous := Caught(previous, position[..], plane);
        if abort(i) {
          aborted := true;
          return;
        }
      }
      TraceExtends(trig, j, original, lines, Segment(previous, target, rate), segments - 1);
    }
    lines := lines + [Segment(previous, target, rate)];
  }

  lemma ReachedRadius(j: Job, p0: real, p1: real, x: real, y: real)
    requires ValidJob(j) && p0 == Centre0(j) + x && p1 == Centre1(j) + y
    ensures (p0 - Centre0(j), p1 - Centre1(j)) == (x, y)
  {}

  lemma StartOk(trig: Trig, j: Job, feed: real)
    requires ValidJob(j) && j.segments > 0
    ensures RadiiOk(trig, j, 0, -j.offset0, -j.offset1) && PointOk(trig, j, 0, j.start)
    ensures LinkOk(j, j.start, j.start) && TraceOk(trig, j, feed, [], 0) && Drift(0) == 0
  {
    SquareFacts(j.offset0);
    SquareFacts(j.offset1);
    assert j.start[j.plane.axis0] - Centre0(j) == -j.offset0;
    assert j.start[j.plane.axis1] - Centre1(j) == -j.offset1;
  }

  /** Every intermediate point of every arc whose angle per segment satisfies t² ≤ 3 is at a
      squared distance between R²(1 - t⁴) and R² from the centre. */
  lemma PointStaysNearCircle(trig: Trig, j: Job, k: nat, p: seq<real>)
    requires ValidJob(j) && j.segments > 0 && PointOk(trig, j, k, p) && Square(j.theta) <= 3.0
    ensures var r2 := Norm(j.offset0, j.offset1);
            var d2 := Norm(p[j.plane.axis0] - Centre0(j), p[j.plane.axis1] - Centre1(j));
            r2 - Product(r2, Square(Square(j.theta))) <= d2 <= r2
  {
    var r2 := Norm(j.offset0, j.offset1);
    SquareFacts(j.offset0);
    SquareFacts(j.offset1);
    var f := Pow(Shrink(j.theta), Drift(k));
    RadiusBound(j.theta, Drift(k));
    ProductMonotone(r2, f, 1.0);
    ProductMonotone(r2, 1.0 - Square(Square(j.theta)), f);
    assert Product(r2, 1.0) == r2;
    assert Product(r2, 1.0 - Square(Square(j.theta))) == r2 - Product(r2, Square(Square(j.theta)));
  }

  // ----- From the programmed arc -----------------------------------------------------------

  function Abs(x: real): real { if x < 0.0 then -x else x }

  /** Half of the longest chord that stays within the tolerance of the circle. */
  function HalfChord(sqrt: real -> real, radius: real, tolerance: real): real {
    sqrt(Product(tolerance, 2.0 * radius - tolerance))
  }

  function SegmentCount(sqrt: real -> real, travel: real, radius: real, tolerance: real): int
    requires HalfChord(sqrt, radius, tolerance) > 0.0
  {
    (Abs(0.5 * Product(travel, radius)) / HalfChord(sqrt, radius, tolerance)).Floor
  }

  /** The arctangent's arguments: cross and dot product of the radius vectors to the ends. */
  function Cross(j: Job): real requires ValidJob(j) {
    -j.offset0 * (j.target[j.plane.axis1] - Centre1(j)) + j.offset1 * (j.target[j.plane.axis0] - Centre0(j))
  }

  function Dot(j: Job): real requires ValidJob(j) {
    -j.offset0 * (j.target[j.plane.axis0] - Centre0(j)) - j.offset1 * (j.target[j.plane.axis1] - Centre1(j))
  }

  /** mc_arc(): the kinematics may refuse the arc; otherwise the angle and the number of lines
      are computed from the ends, the radius and the tolerance, which must leave a chord to
      step along.  `cut` is C's conversion of the count to 16 bits. */
  method McArc(trig: Trig, atan2: (real, real) -> real, sqrt: real -> real, pi: real, epsilon: real, tolerance: real,
               alter: (nat, real) -> real, abort: nat -> bool, cut: int -> nat, refused: bool,
               target: seq<real>, position: array<real>, offset0: real, offset1: real, radius: real, plane: Plane,
               clockwise: bool, turns: int, feed: real, inverseTime: bool)
    returns (lines: seq<Segment>, aborted: bool)
    requires ValidPlane(plane) && 3 <= position.Length == |target| && Pythagorean(trig)
    requires HalfChord(sqrt, radius, tolerance) > 0.0
    requires forall k :: 0 <= k < UINT16 ==> cut(k) == k
    modifies position
    ensures refused ==> !aborted && lines == [] && position[..] == old(position[..])
    ensures var ends := Job(plane, old(position[..]), target, offset0, offset1, 0.0, 0);
            var travel := AngularTravel(atan2(Cross(ends), Dot(ends)), pi, epsilon, clockwise, turns);
            var count := SegmentCount(sqrt, travel, radius, tolerance);
            var n := cut(count);
            && (0 <= count < UINT16 ==> n == count)
            && (!refused ==>
                  if n == 0 then !aborted && lines == [Segment(old(position[..]), target, feed)]
                  else
                    var j := ends.(theta := travel / n as real, segments := n);
                    var rate := if inverseTime then feed * n as real else feed;
                    && (aborted <==> exists k :: 0 < k < n && abort(k))
                    && if aborted then 0 < |lines| < n && TraceOk(trig, j, rate, lines, |lines|)
                       else |lines| == n && lines[n - 1].to == target && TraceOk(trig, j, rate, lines, n - 1))
  {
    hide Cross;
    hide Dot;
    hide PointOk;
    hide LinkOk;
    if refused {
      return [], false;
    }
    var ends := Job(plane, position[..], target, offset0, offset1, 0.0, 0);
    var travel := AngularTravel(atan2(Cross(ends), Dot(ends)), pi, epsilon, clockwise, turns);
    var segments := cut(SegmentCount(sqrt, travel, radius, tolerance));
    lines, aborted := TraceArc(trig, alter, abort, target, position, offset0, offset1, plane, travel, segments,
                               feed, inverseTime);
  }

  /** When the tolerance is at most 3/32 of the radius, the computed number of lines keeps the
      angle of each within the range where the radius bound holds. */
  lemma SmallToleranceBoundsAngle(sqrt: real -> real, travel: real, radius: real, tolerance: real)
    requires IsSqrt(sqrt) && tolerance > 0.0 && 32.0 * tolerance <= 3.0 * radius
    ensures HalfChord(sqrt, radius, tolerance) > 0.0
    ensures var n := SegmentCount(sqrt, travel, radius, tolerance);
            n >= 1 ==> Square(travel / n as real) <= 3.0
  {
    ProductPositive(tolerance, 2.0 * radius - tolerance);
    var s := HalfChord(sqrt, radius, tolerance);
    SqrtSquares(sqrt, Product(tolerance, 2.0 * radius - tolerance));
    SquareFacts(s);
    var n := SegmentCount(sqrt, travel, radius, tolerance);
    if n >= 1 {
      var t, a := travel / n as real, Abs(0.5 * Product(travel, radius));
      QuotientBelow(a, s, n);
      ArcPerSegment(travel, radius, n);
      var arc := Product(Abs(t), radius);
      assert arc <= 4.0 * s;
      SquareMonotone(arc, 4.0 * s);
      assert Square(4.0 * s) == 16.0 * Square(s);
      assert Product(tolerance, 2.0 * radius - tolerance) <= 2.0 * Product(tolerance, radius) by {
        SquareFacts(tolerance);
        assert Product(tolerance, 2.0 * radius - tolerance) == 2.0 * Product(tolerance, radius) - Square(tolerance);
      }
      assert 32.0 * Product(tolerance, radius) <= 3.0 * Square(radius) by {
        ProductMonotone(radius, 32.0 * tolerance, 3.0 * radius);
        assert Product(radius, 32.0 * tolerance) == 32.0 * Product(tolerance, radius);
        assert Product(radius, 3.0 * radius) == 3.0 * Square(radius);
      }
      assert Square(arc) == Product(Square(t), Square(radius));
      SquarePositive(radius);
      ProductCancels(Square(t), 3.0, Square(radius));
    }
  }

  /** A quotient whose floor is n >= 1 is below 2n. */
  lemma QuotientBelow(a: real, s: real, n: int)
    requires s > 0.0 && n == (a / s).Floor && n >= 1
    ensures a <= 2.0 * Product(n as real, s)
  {
    var q := a / s;
    assert q * s == a;
    assert q <= 2.0 * (n as real);
    assert (2.0 * (n as real) - q) * s >= 0.0;
  }

  lemma ArcPerSegment(travel: real, radius: real, n: int)
    requires n >= 1 && radius > 0.0
    ensures 0.0 <= Product(Abs(travel / n as real), radius)
    ensures Product(n as real, Product(Abs(travel / n as real), radius)) == 2.0 * Abs(0.5 * Product(travel, radius))
  {
    var t := travel / n as real;
    assert t * n as real == travel;
  }

  lemma SquareMonotone(a: real, b: real)
    requires 0.0 <= a <= b
    ensures Square(a) <= Square(b)
  {
    ProductMonotone(a, a, b);
    ProductMonotone(b, a, b);
    assert Product(a, b) == Product(b, a);
  }

  lemma ProductCancels(x: real, y: real, a: real)
    requires a > 0.0 && Product(x, a) <= Product(y, a)
    ensures x <= y
  {
    assert Product(x - y, a) == Product(x, a) - Product(y, a);
    if x > y {
      ProductPositive(x - y, a);
      assert false;
    }
  }
}
