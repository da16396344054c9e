/** The static helpers of `Utils`: the clamped uniform knot vector handed to
    `NURBSCurve`, the perpendicular of a direction against an up vector, and
    the offset polyline built from it. */
module Utils {
  import opened Vectors

  // ------------------------------------------------------------ knot vector

  function Repeat(v: real, count: nat): (r: seq<real>)
    ensures |r| == count && forall i :: 0 <= i < count ==> r[i] == v
  {
    seq(count, _ => v)
  }

  /** `i / (count + 1)` for `i = 1 .. count`. */
  function Interior(count: nat): (r: seq<real>)
    ensures |r| == count
  {
    seq(count, i => (i + 1) as real / (count + 1) as real)
  }

  /** How many times a loop `for (i = 0; i < bound; i++)` runs. */
  function Runs(bound: int): nat {
    if bound > 0 then bound else 0
  }

  /** Number of clamped knots at each end: `d + 1` zeros, `d + 1` ones. */
  function ClampCount(degree: int): nat {
    Runs(degree + 1)
  }

  /** `numInterior = m - 2 * (d + 1)` with `m = n + d + 1`, counted as loop runs. */
  function InteriorCount(degree: int, n: nat): nat {
    Runs(n + degree + 1 - 2 * (degree + 1))
  }

  /** `calculateKnotVector(degree, points)` for `points.length == n`. */
  function KnotVector(degree: int, n: nat): seq<real> {
    Repeat(0.0, ClampCount(degree)) + Interior(InteriorCount(degree, n)) + Repeat(1.0, ClampCount(degree))
  }

  /** The loops of `calculateKnotVector`. */
  method CalculateKnotVector(degree: int, points: seq<Vec3>) returns (knots: seq<real>)
    ensures knots == KnotVector(degree, |points|)
  {
    var n := |points|;
    var d := degree;
    var m := n + d + 1;
    knots := [];
    var i := 0;
    while i < d + 1
      invariant 0 <= i <= ClampCount(d)
      invariant knots == Repeat(0.0, i)
      decreases d + 1 - i
    {
      knots := knots + [0.0];
      i := i + 1;
    }
    assert knots == Repeat(0.0, ClampCount(d));
    var numInterior := m - 2 * (d + 1);
    var interior := [];
    ghost var ic := InteriorCount(d, n);
    i := 1;
    while i <= numInterior
      invariant 1 <= i <= ic + 1
      invariant interior == Interior(ic)[..i - 1]
      decreases numInterior + 1 - i
    {
      interior := interior + [i as real / (numInterior + 1) as real];
      i := i + 1;
    }
    assert interior == Interior(InteriorCount(d, n));
    knots := knots + interior;
    var ones := [];
    i := 0;
    while i < d + 1
      invariant 0 <= i <= ClampCount(d)
      invariant ones == Repeat(1.0, i)
      decreases d + 1 - i
    {
      ones := ones + [1.0];
      i := i + 1;
    }
    assert ones == Repeat(1.0, ClampCount(d));
    knots := knots + ones;
  }

  lemma InteriorInside(i: nat, k: nat)
    requires i < k
    ensures 0.0 < (i + 1) as real / (k + 1) as real
    ensures (i + 1) as real / (k + 1) as real < 1.0
  {
  }

  lemma InteriorIncreasing(i: nat, j: nat, k: nat)
    requires i < j
    ensures (i + 1) as real / (k + 1) as real < (j + 1) as real / (k + 1) as real
  {
  }

  lemma InteriorMirror(i: nat, k: nat)
    requires i < k
    ensures (i + 1) as real / (k + 1) as real + (k - i) as real / (k + 1) as real == 1.0
  {
  }

  /** Length of the knot vector: `n + d + 1` whenever there are at least
      `d + 1` control points, and only the `2 (d + 1)` clamped knots when
      there is no room for interior knots. */
  lemma KnotVectorLength(degree: int, n: nat)
    ensures |KnotVector(degree, n)| == 2 * ClampCount(degree) + InteriorCount(degree, n)
    ensures 0 <= degree + 1 <= n ==> |KnotVector(degree, n)| == n + degree + 1
    ensures n <= degree + 1 ==> |KnotVector(degree, n)| == 2 * ClampCount(degree)
  {
  }

  /** The vector opens with exactly `d + 1` zeros and closes with exactly
      `d + 1` ones: every interior knot lies strictly inside (0, 1). */
  lemma KnotVectorClamped(degree: int, n: nat)
    ensures var k := KnotVector(degree, n);
            forall j :: 0 <= j < |k| ==> (k[j] == 0.0 <==> j < ClampCount(degree))
    ensures var k := KnotVector(degree, n);
            forall j :: 0 <= j < |k| ==> (k[j] == 1.0 <==> |k| - ClampCount(degree) <= j)
  {
    var c := ClampCount(degree);
    var ic := InteriorCount(degree, n);
    var k := KnotVector(degree, n);
    forall j | c <= j < c + ic
      ensures 0.0 < k[j] < 1.0
    {
      assert k[j] == Interior(ic)[j - c];
      InteriorInside(j - c, ic);
    }
  }

  /** Interior knots strictly increase, so the whole vector is non-decreasing. */
  lemma KnotVectorSorted(degree: int, n: nat)
    ensures var k := KnotVector(degree, n);
            forall i, j :: 0 <= i < j < |k| ==> k[i] <= k[j]
    ensures var m := Interior(InteriorCount(degree, n));
            forall i, j :: 0 <= i < j < |m| ==> m[i] < m[j]
  {
    var c := ClampCount(degree);
    var ic := InteriorCount(degree, n);
    var k := KnotVector(degree, n);
    var m := Interior(ic);
    forall i, j | 0 <= i < j < |m|
      ensures m[i] < m[j]
    {
      InteriorIncreasing(i, j, ic);
    }
    forall j | c <= j < c + ic
      ensures 0.0 < k[j] < 1.0
    {
      assert k[j] == m[j - c];
      InteriorInside(j - c, ic);
    }
    forall i, j | 0 <= i < j < |k|
      ensures k[i] <= k[j]
    {
      if c <= i && j < c + ic {
        assert k[i] == m[i - c] && k[j] == m[j - c];
      }
    }
  }

  /** The vector is symmetric about one half. */
  lemma KnotVectorSymmetric(degree: int, n: nat)
    ensures var k := KnotVector(degree, n);
            forall j :: 0 <= j < |k| ==> k[j] + k[|k| - 1 - j] == 1.0
  {
    var c := ClampCount(degree);
    var ic := InteriorCount(degree, n);
    var k := KnotVector(degree, n);
    var m := Interior(ic);
    forall j | 0 <= j < |k|
      ensures k[j] + k[|k| - 1 - j] == 1.0
    {
      if c <= j < c + ic {
        var i := j - c;
        assert k[j] == m[i];
        assert k[|k| - 1 - j] == m[ic - 1 - i];
        InteriorMirror(i, ic);
      }
    }
  }

  /** With `degree = n - 1`, as `buildNurbsCurve` calls it, the curve is a
      single Bézier segment: `n` zeros followed by `n` ones. */
  lemma KnotVectorBezier(n: nat)
    requires n >= 1
    ensures InteriorCount(n - 1, n) == 0
    ensures KnotVector(n - 1, n) == Repeat(0.0, n) + Repeat(1.0, n)
  {
  }

  // ------------------------------------------------------ offset polyline

  /** The up vector both offset steps use. */
  const Up := Vec3(0.0, -1.0, 0.0)

  /** `getDirection(point1, point2)`: the normalised difference. */
  function Direction(normalize: Vec3 -> Vec3, p1: Vec3, p2: Vec3): Vec3 {
    normalize(Sub(p2, p1))
  }

  /** `getPerpendicularVector(vector, upVector)`: `upVector × vector`. */
  function PerpendicularVector(v: Vec3, up: Vec3): (r: Vec3)
    ensures Dot(r, v) == 0.0 && Dot(r, up) == 0.0
    ensures r == Cross(up, v)
  {
    CrossOrthogonal(up, v);
    Cross(up, v)
  }

  /** Point `p` moved by `offset` along the perpendicular of segment `a -> b`. */
  function OffsetPoint(normalize: Vec3 -> Vec3, p: Vec3, a: Vec3, b: Vec3, offset: real): Vec3 {
    Add(p, Scale(PerpendicularVector(Direction(normalize, a, b), Up), offset))
  }

  /** Against the up vector (0, -1, 0) the perpendicular is horizontal, so an
      offset point keeps the height of the point it was offset from. */
  lemma OffsetKeepsHeight(normalize: Vec3 -> Vec3, p: Vec3, a: Vec3, b: Vec3, offset: real)
    ensures OffsetPoint(normalize, p, a, b, offset).y == p.y
  {
    var v := Direction(normalize, a, b);
    assert PerpendicularVector(v, Up) == Vec3(-v.z, 0.0, v.x);
  }

  /** `getOffsetCurve(points, offset)`: every point but the last is offset
      along its outgoing segment, the last along its incoming one. */
  method OffsetCurve(normalize: Vec3 -> Vec3, points: seq<Vec3>, offset: real) returns (offsetPoints: seq<Vec3>)
    requires |points| >= 2
    ensures |offsetPoints| == |points|
    ensures forall i :: 0 <= i < |points| - 1 ==>
      offsetPoints[i] == OffsetPoint(normalize, points[i], points[i], points[i + 1], offset)
    ensures offsetPoints[|points| - 1] ==
      OffsetPoint(normalize, points[|points| - 1], points[|points| - 2], points[|points| - 1], offset)
    ensures forall i :: 0 <= i < |points| ==> offsetPoints[i].y == points[i].y
  {
    offsetPoints := [];
    var i := 0;
    while i < |points| - 1
      invariant 0 <= i <= |points| - 1
      invariant |offsetPoints| == i
      invariant forall j :: 0 <= j < i ==>
        offsetPoints[j] == OffsetPoint(normalize, points[j], points[j], points[j + 1], offset)
      invariant forall j :: 0 <= j < i ==> offsetPoints[j].y == points[j].y
    {
      var tangent := Direction(normalize, points[i], points[i + 1]);
      var perpendicular := PerpendicularVector(tangent, Up);
      var p := Add(points[i], Scale(perpendicular, offset));
      OffsetKeepsHeight(normalize, points[i], points[i], points[i + 1], offset);
      offsetPoints := offsetPoints + [p];
      i := i + 1;
    }
    var last := points[|points| - 1];
    var lastSecond := points[|points| - 2];
    var tangent := Direction(normalize, lastSecond, last);
    var perpendicular := PerpendicularVector(tangent, Up);
    OffsetKeepsHeight(normalize, last, lastSecond, last, offset);
    offsetPoints := offsetPoints + [Add(last, Scale(perpendicular, offset))];
  }
}
