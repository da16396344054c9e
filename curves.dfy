/** The collaborators the curve engine calls but does not define: the curve
    objects of three.js and three-stdlib (`NURBSCurve`, `CatmullRomCurve3`,
    `CurvePath`, `CubicBezierCurve3`), the BVH-accelerated ray caster of
    three-mesh-bvh, and the floating-point helpers `Vector3.normalize` and
    the matrix-to-Euler decomposition. Each of them is an uninterpreted
    function value here; nothing is assumed about it. */
module Curves {
  import opened Vectors
  import opened Options

  /** The result of `computeFrenetFrames(segments, false)`. */
  datatype Frames = Frames(tangents: seq<Vec3>, normals: seq<Vec3>, binormals: seq<Vec3>)

  /** `getLength()` of a curve: taken as positive, as it is for any curve whose
      control points do not all coincide. */
  type Length = r: real | r > 0.0 witness 1.0

  /** A built curve. `point` is `getPoint(t)`, `pointAt` is the arc-length
      parametrised `getPointAt(u)`, `tangentAt` is `getTangentAt(u)`, `length`
      is `getLength()`, and `frenetFrames(n)` is `computeFrenetFrames(n, false)`,
      `None` when that call throws. */
  datatype Curve = Curve(
    point: real -> Vec3,
    pointAt: real -> Vec3,
    tangentAt: real -> Vec3,
    length: Length,
    frenetFrames: nat -> Option<Frames>)

  /** A target mesh with its bounds tree: `raycast(start, end)` lists, in the
      order the ray caster reports them, the hit points of a ray cast from
      `start` towards `end` whose `far` limit is the segment's length. */
  datatype Mesh = Mesh(raycast: (Vec3, Vec3) -> seq<Vec3>)

  /** The library code that builds and post-processes curves:
      `nurbs(degree, knots, controlPoints)` is `new NURBSCurve(...)`,
      `normalize` is `Vector3.normalize`, and `eulerOf` decomposes a basis
      matrix into Euler angles, `None` when a component comes out NaN. */
  datatype Library = Library(
    nurbs: (int, seq<real>, seq<Vec3>) -> Curve,
    normalize: Vec3 -> Vec3,
    eulerOf: Basis -> Option<Euler>)

  /** `curve.getPoints(divisions)` as three.js's base `Curve` defines it:
      `divisions + 1` evenly spaced values of `getPoint`. */
  function Points(c: Curve, divisions: nat): (r: seq<Vec3>)
    requires divisions > 0
    ensures |r| == divisions + 1
    ensures r[0] == c.point(0.0) && r[divisions] == c.point(1.0)
  {
    assert divisions as real / divisions as real == 1.0;
    seq(divisions + 1, i => c.point(i as real / divisions as real))
  }

  /** `curve.getSpacedPoints(divisions)`: the same, through `getPointAt`. */
  function SpacedPoints(c: Curve, divisions: nat): (r: seq<Vec3>)
    requires divisions > 0
    ensures |r| == divisions + 1
    ensures r[0] == c.pointAt(0.0) && r[divisions] == c.pointAt(1.0)
  {
    assert divisions as real / divisions as real == 1.0;
    seq(divisions + 1, i => c.pointAt(i as real / divisions as real))
  }

  /** The points of `ps` with every point equal to the one kept before it
      left out, as `CurvePath.getPoints` does while collecting. */
  function DropRepeats(ps: seq<Vec3>): (r: seq<Vec3>)
    ensures |r| <= |ps|
    ensures |ps| > 0 ==> |r| > 0 && r[0] == ps[0] && r[|r| - 1] == ps[|ps| - 1]
    decreases |ps|
  {
    if ps == [] then []
    else
      var r := DropRepeats(ps[..|ps| - 1]);
      var p := ps[|ps| - 1];
      if |r| > 0 && r[|r| - 1] == p then r else r + [p]
  }

  /** `getPoints(divisions)` of a `CurvePath` holding the single curve whose
      `getPoint` is `c.point`: that curve's `divisions + 1` points, each
      dropped when equal to the point kept before it. */
  function PathPoints(c: Curve, divisions: nat): (r: seq<Vec3>)
    requires divisions > 0
    ensures 0 < |r| <= divisions + 1
    ensures r[0] == c.point(0.0) && r[|r| - 1] == c.point(1.0)
  {
    DropRepeats(Points(c, divisions))
  }

  /** No two neighbours of the result are equal, every point of it comes from
      the input, and an input without equal neighbours is kept whole. */
  lemma {:induction false} DropRepeatsFacts(ps: seq<Vec3>)
    ensures forall i :: 0 <= i < |DropRepeats(ps)| - 1 ==> DropRepeats(ps)[i] != DropRepeats(ps)[i + 1]
    ensures forall p :: p in DropRepeats(ps) ==> p in ps
    ensures (forall i :: 0 <= i < |ps| - 1 ==> ps[i] != ps[i + 1]) ==> DropRepeats(ps) == ps
    decreases |ps|
  {
    if ps != [] {
      var front := ps[..|ps| - 1];
      DropRepeatsFacts(front);
      assert forall p :: p in front ==> p in ps;
      if forall i :: 0 <= i < |ps| - 1 ==> ps[i] != ps[i + 1] {
        assert forall i :: 0 <= i < |front| - 1 ==> front[i] != front[i + 1];
        assert DropRepeats(front) == front;
        assert ps == front + [ps[|ps| - 1]];
      }
    }
  }
}
