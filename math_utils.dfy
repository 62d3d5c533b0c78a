/**
 * 2D/3D vector helpers and the infinite-line intersection of mmcore's
 * mmmath. Doubles are modelled as exact reals. The square root behind
 * `length` is not modelled: operations that need a vector's magnitude take
 * it as an argument that is required to be the non-negative root of the
 * squared length.
 */
module MathUtils {

  datatype Point2 = Point2(x: real, y: real)
  datatype Vector3 = Vector3(x: real, y: real, z: real)
  datatype Line2 = Line2(pointA: Point2, pointB: Point2)
  datatype LinePair2 = LinePair2(lineA: Line2, lineB: Line2)

  function Abs(r: real): real { if r < 0.0 then -r else r }

  /** Linear blend from `minValue` (mix 0) to `maxValue` (mix 1). */
  function Lerp(minValue: real, maxValue: real, mix: real): (r: real)
    ensures mix == 0.0 ==> r == minValue
    ensures mix == 1.0 ==> r == maxValue
  {
    (1.0 - mix) * minValue + mix * maxValue
  }

  /** For a mix in [0, 1] the blend stays between its two end values. */
  lemma LerpBetween(minValue: real, maxValue: real, mix: real)
    requires minValue <= maxValue && 0.0 <= mix <= 1.0
    ensures minValue <= Lerp(minValue, maxValue, mix) <= maxValue
  {
    var span := maxValue - minValue;
    assert Lerp(minValue, maxValue, mix) == minValue + mix * span;
    MulLeftMono(mix, 0.0, span);
    MulLeftMono(span, mix, 1.0);
  }

  function Subtract2(a: Point2, b: Point2): Point2 { Point2(a.x - b.x, a.y - b.y) }

  function Dot2(a: Point2, b: Point2): real { a.x * b.x + a.y * b.y }

  function Dot3(a: Vector3, b: Vector3): real { a.x * b.x + a.y * b.y + a.z * b.z }

  /** The z component of the 3D cross product of two 2D vectors. */
  function Cross2(a: Point2, b: Point2): real { a.x * b.y - a.y * b.x }

  /**
   * `mag` is the length of `v`: the non-negative root of its squared
   * length, zero exactly when the squared length is zero.
   */
  ghost predicate IsLength2(v: Point2, mag: real)
  {
    mag >= 0.0 && mag * mag == Dot2(v, v) && (mag == 0.0 <==> Dot2(v, v) == 0.0)
  }

  ghost predicate IsLength3(v: Vector3, mag: real)
  {
    mag >= 0.0 && mag * mag == Dot3(v, v) && (mag == 0.0 <==> Dot3(v, v) == 0.0)
  }

  lemma MulLeftMono(c: real, a: real, b: real)
    requires c >= 0.0 && a <= b
    ensures c * a <= c * b
  {
  }

  /**
   * The vector `v` divided by its magnitude; the zero vector when the
   * magnitude is zero (the division by zero is avoided).
   */
  function Normalize2(v: Point2, mag: real): (r: Point2)
    requires IsLength2(v, mag)
    ensures v == Point2(0.0, 0.0) ==> r == Point2(0.0, 0.0)
    ensures mag == 0.0 ==> r == Point2(0.0, 0.0)
    ensures mag != 0.0 ==> r.x * mag == v.x && r.y * mag == v.y
  {
    if mag == 0.0 then Point2(0.0, 0.0) else Point2(v.x / mag, v.y / mag)
  }

  function Normalize3(v: Vector3, mag: real): (r: Vector3)
    requires IsLength3(v, mag)
    ensures v == Vector3(0.0, 0.0, 0.0) ==> r == Vector3(0.0, 0.0, 0.0)
    ensures mag == 0.0 ==> r == Vector3(0.0, 0.0, 0.0)
    ensures mag != 0.0 ==> r.x * mag == v.x && r.y * mag == v.y && r.z * mag == v.z
  {
    if mag == 0.0 then Vector3(0.0, 0.0, 0.0) else Vector3(v.x / mag, v.y / mag, v.z / mag)
  }

  /** The cross product is perpendicular to both of its operands. */
  function Cross3(a: Vector3, b: Vector3): (r: Vector3)
    ensures Dot3(r, a) == 0.0 && Dot3(r, b) == 0.0
  {
    Vector3(a.y * b.z - a.z * b.y, a.z * b.x - a.x * b.z, a.x * b.y - a.y * b.x)
  }

  /**
   * Intersection of the infinite lines through A,B and through C,D.
   * Returns (true, p) for crossing lines; for parallel lines it returns
   * false with the midpoint of A and B when the lines coincide and the
   * origin otherwise.
   */
  function InfiniteLineIntersection(a: Point2, b: Point2, c: Point2, d: Point2): (r: (bool, Point2))
    ensures r.0 <==> Cross2(Subtract2(b, a), Subtract2(d, c)) != 0.0
    ensures !r.0 && Cross2(Subtract2(d, c), Subtract2(a, c)) == 0.0
            && Cross2(Subtract2(b, a), Subtract2(a, c)) == 0.0
            ==> r.1 == Point2((a.x + b.x) / 2.0, (a.y + b.y) / 2.0)
    ensures !r.0 && (Cross2(Subtract2(d, c), Subtract2(a, c)) != 0.0
                     || Cross2(Subtract2(b, a), Subtract2(a, c)) != 0.0)
            ==> r.1 == Point2(0.0, 0.0)
  {
    var denom := Cross2(Subtract2(b, a), Subtract2(d, c));
    var numeA := Cross2(Subtract2(d, c), Subtract2(a, c));
    var numeB := Cross2(Subtract2(b, a), Subtract2(a, c));
    if denom == 0.0 then
      if numeA == 0.0 && numeB == 0.0 then
        (false, Point2((a.x + b.x) / 2.0, (a.y + b.y) / 2.0))
      else
        (false, Point2(0.0, 0.0))
    else
      var ua := numeA / denom;
      (true, Point2(a.x + ua * (b.x - a.x), a.y + ua * (b.y - a.y)))
  }

  lemma DivMul(x: real, y: real)
    requires y != 0.0
    ensures (x / y) * y == x
  {
  }

  /** A reported intersection lies on both lines. */
  lemma IntersectionOnBothLines(a: Point2, b: Point2, c: Point2, d: Point2)
    requires InfiniteLineIntersection(a, b, c, d).0
    ensures var p := InfiniteLineIntersection(a, b, c, d).1;
            Cross2(Subtract2(p, a), Subtract2(b, a)) == 0.0
            && Cross2(Subtract2(p, c), Subtract2(d, c)) == 0.0
  {
    var denom := Cross2(Subtract2(b, a), Subtract2(d, c));
    var numeA := Cross2(Subtract2(d, c), Subtract2(a, c));
    var ua := numeA / denom;
    var p := InfiniteLineIntersection(a, b, c, d).1;
    assert p == Point2(a.x + ua * (b.x - a.x), a.y + ua * (b.y - a.y));
    DivMul(numeA, denom);
    var ba := Subtract2(b, a);
    var dc := Subtract2(d, c);
    assert Subtract2(p, a) == Point2(ua * ba.x, ua * ba.y);
    assert Cross2(Point2(ua * ba.x, ua * ba.y), ba) == ua * Cross2(ba, ba);
    assert Subtract2(p, c) == Point2((a.x - c.x) + ua * ba.x, (a.y - c.y) + ua * ba.y);
    calc {
      Cross2(Subtract2(p, c), dc);
      Cross2(Subtract2(a, c), dc) + ua * Cross2(ba, dc);
      -numeA + ua * denom;
      0.0;
    }
  }

  /**
   * The absolute cosine of the angle between two lines, from the dot
   * product of their normalised directions. `magA` and `magB` are the
   * lengths of the direction vectors A1 - B1 and A2 - B2.
   */
  function CosineAngleBetweenLines(linePair: LinePair2, magA: real, magB: real): (r: real)
    requires IsLength2(Subtract2(linePair.lineA.pointA, linePair.lineA.pointB), magA)
    requires IsLength2(Subtract2(linePair.lineB.pointA, linePair.lineB.pointB), magB)
    ensures r >= 0.0
    ensures r == 0.0 <==> Dot2(Normalize2(Subtract2(linePair.lineA.pointA, linePair.lineA.pointB), magA),
                               Normalize2(Subtract2(linePair.lineB.pointA, linePair.lineB.pointB), magB)) == 0.0
  {
    var directionA := Normalize2(Subtract2(linePair.lineA.pointA, linePair.lineA.pointB), magA);
    var directionB := Normalize2(Subtract2(linePair.lineB.pointA, linePair.lineB.pointB), magB);
    var c := Dot2(directionA, directionB);
    Abs(c)
  }
}
