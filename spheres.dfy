/** A tooth slot (`SphereGeo`): where it sits, how it is oriented, and how far
    apart along the arch its two contacts with the target mesh lie.

    The contacts come from a segment-by-segment ray scan of the sampled
    curve: every hit is reduced to a key of rounded coordinates, hits whose
    key was already seen are dropped, and the scan stops at a cap. When it
    finds fewer than two points it starts over, once, at a finer sampling.
    The first two points (completed by the curve's end for the two boundary
    slots) are turned into `deltaT`, the parameter distance between them. */
module Spheres {
  import opened Vectors
  import opened Options
  import opened Curves
  import opened Search
  import opened KeyedScan

  // ------------------------------------------------------------- constants

  /** `initialPoints` and `maxPoints` of the three scans. */
  const InitialPoints := 200
  const MaxPoints := 1000

  /** `getClosestTOnCurve`'s default number of coarse divisions. */
  const ArcDivisions := 1000

  /** Index of the last slot of the arch. */
  const LastSlot := 15

  type Tolerance = r: real | r > 0.0 witness 1.0

  /** The three scans differ in how they sample the curve, in the rounding
      tolerance of their keys and in their cap. */
  datatype Kind = Spaced | Catenary | Nurbs

  /** `intersect` samples by arc length, the other two by parameter; the
      catenary is a `CurvePath`, whose `getPoints` drops repeated points. */
  function Samples(kind: Kind, c: Curve, divisions: nat): (r: seq<Vec3>)
    requires divisions > 0
    ensures 0 < |r| <= divisions + 1
    ensures kind != Catenary ==> |r| == divisions + 1
  {
    match kind
    case Spaced => SpacedPoints(c, divisions)
    case Catenary => PathPoints(c, divisions)
    case Nurbs => Points(c, divisions)
  }

  function KeyTolerance(kind: Kind): Tolerance {
    if kind == Spaced then 0.000000001 else 0.00001
  }

  /** `maxIntersections`. */
  function Cap(kind: Kind): nat {
    if kind == Nurbs then 2 else 4
  }

  // ---------------------------------------------------- deduplication keys


  /** The string key `round(x/tol),round(y/tol),round(z/tol)`, as a triple. */
  datatype Key = Key(x: int, y: int, z: int)

  /** The key of a point at tolerance `tol`. */
  function RoundedKey(p: Vec3, tol: Tolerance): Key {
    Key(Round(p.x / tol), Round(p.y / tol), Round(p.z / tol))
  }

  /** The key function a scan of this kind deduplicates with. The scan
      itself (module `KeyedScan`) is written for any key function. */
  function KeyFor(kind: Kind): Vec3 -> Key {
    p => RoundedKey(p, KeyTolerance(kind))
  }

  /** Whether the scan is repeated at `maxPoints`. */
  predicate Retries(found: nat, sampleCount: nat) {
    found < 2 && sampleCount < MaxPoints
  }

  /** The points an `intersect*` call hands to `getIntersectionArcLengths`. */
  function Detection(kind: Kind, c: Curve, mesh: Mesh): seq<Vec3> {
    var low := Samples(kind, c, InitialPoints);
    var first := ScanResult(low, mesh.raycast, KeyFor(kind), Cap(kind));
    if Retries(|first|, |low|) then ScanResult(Samples(kind, c, MaxPoints), mesh.raycast, KeyFor(kind), Cap(kind))
    else first
  }

  // ----------------------------------------------------- the boundary rule

  /** The list after `getIntersectionArcLengths`'s `push` / `unshift`: a lone
      hit of slot 0 is followed by the curve's start, a lone hit of the last
      slot is preceded by the curve's end. */
  function Completed(no: int, ints: seq<Vec3>, c: Curve): (r: seq<Vec3>)
    requires |ints| >= 2 || (|ints| == 1 && (no == 0 || no == LastSlot))
    ensures |r| >= 2
  {
    if |ints| >= 2 then ints
    else if no == 0 then ints + [c.pointAt(0.0)]
    else [c.pointAt(1.0)] + ints
  }

  /** The `deltaT` that `getIntersectionArcLengths` stores, `None` where it
      returns without storing one. */
  function ArcDelta(no: int, ints: seq<Vec3>, c: Curve): Option<real> {
    if |ints| == 0 then None
    else if |ints| < 2 && no != 0 && no != LastSlot then None
    else
      var pts := Completed(no, ints, c);
      Some(ClosestT(c, pts[1], ArcDivisions) - ClosestT(c, pts[0], ArcDivisions))
  }

  /** `deltaT` after an `intersect*` call on a slot with this mesh reference. */
  function DeltaAfter(kind: Kind, no: int, deltaT: real, meshRef: Option<Mesh>, c: Curve): real {
    if meshRef.None? then deltaT
    else
      match ArcDelta(no, Detection(kind, c, meshRef.value), c)
      case None => deltaT
      case Some(d) => d
  }

  // ------------------------------------------------------ scanning methods

  /** The body of `intersect*` from the first scan to the retry. */
  method DetectIntersections(kind: Kind, c: Curve, mesh: Mesh) returns (result: seq<Vec3>)
    ensures result == Detection(kind, c, mesh)
    ensures |result| <= Cap(kind)
    ensures DistinctKeys(result, KeyFor(kind))
  {
    var curvePoints := Samples(kind, c, InitialPoints);
    var foundIntersections;
    result, foundIntersections := ScanSegments(curvePoints, mesh.raycast, KeyFor(kind), Cap(kind));
    if foundIntersections < 2 && |curvePoints| < MaxPoints {
      curvePoints := Samples(kind, c, MaxPoints);
      result, foundIntersections := ScanSegments(curvePoints, mesh.raycast, KeyFor(kind), Cap(kind));
    }
  }

  // ------------------------------------------------------------ the slot

  class SphereGeo {
    const radius: real
    const no: int
    var position: Vec3
    var tangent: Option<Vec3>
    var meshRef: Option<Mesh>
    var deltaT: real
    var rotation: Euler

    constructor (radius: real, position: Vec3, no: int)
      ensures this.radius == radius && this.position == position && this.no == no
      ensures tangent == None && meshRef == None
      ensures deltaT == 0.0 && rotation == NoRotation
    {
      this.radius := radius;
      this.position := position;
      this.no := no;
      tangent := None;
      meshRef := None;
      deltaT := 0.0;
      rotation := NoRotation;
    }

    method SetPosition(p: Vec3)
      modifies this`position
      ensures position == p
    {
      position := p;
    }

    method SetTangent(t: Vec3)
      modifies this`tangent
      ensures tangent == Some(t)
    {
      tangent := Some(t);
    }

    method SetRotation(r: Euler)
      modifies this`rotation
      ensures rotation == r
    {
      rotation := r;
    }

    method SetMeshRef(m: Mesh)
      modifies this`meshRef
      ensures meshRef == Some(m)
    {
      meshRef := Some(m);
    }

    /** The two passes of `getClosestTOnCurve`. */
    method GetClosestTOnCurve(point: Vec3, curve: Curve, divisions: nat) returns (closestT: real)
      requires divisions > 0
      ensures closestT == ClosestT(curve, point, divisions)
      ensures 0.0 <= closestT <= 1.0
    {
      var minDistance: Option<real>;
      closestT, minDistance := ScanGrid(curve, point, divisions);
      ghost var coarse := Best(closestT, minDistance);
      var step := 1.0 / divisions as real;
      var searchRange := step * 2.0;
      var left := Max(0.0, closestT - searchRange);
      var right := Min(1.0, closestT + searchRange);
      ghost var fine := Fine(left, right);
      assert fine == FineSamples(curve, point, divisions);
      var i := 0;
      while i <= FineDivisions
        invariant 0 <= i <= FineDivisions + 1
        invariant Best(closestT, minDistance) == Scan(curve, point, coarse, fine[..i])
      {
        var t := FineSample(left, right, i);
        var dist := Dist(curve, point, t);
        ScanExtend(curve, point, coarse, fine, i);
        if minDistance.None? || dist < minDistance.value {
          minDistance := Some(dist);
          closestT := t;
        }
        i := i + 1;
      }
      assert fine[..i] == fine;
      assert closestT == ClosestT(curve, point, divisions);
      ClosestTInWindow(curve, point, divisions);
    }

    /** `getIntersectionArcLengths(curve, intersections)`. */
    method GetIntersectionArcLengths(curve: Curve, intersections: seq<Vec3>)
      modifies this`deltaT
      ensures deltaT == match ArcDelta(no, intersections, curve) case None => old(deltaT) case Some(d) => d
    {
      if |intersections| == 0 {
        return;
      }
      var points := intersections;
      if |points| < 2 {
        if no != 0 && no != LastSlot {
          return;
        }
        if no == 0 {
          points := points + [curve.pointAt(0.0)];
        } else if no == LastSlot {
          points := [curve.pointAt(1.0)] + points;
        }
      }
      var prevT := GetClosestTOnCurve(points[0], curve, ArcDivisions);
      var nextT := GetClosestTOnCurve(points[1], curve, ArcDivisions);
      deltaT := nextT - prevT;
    }

    /** The shared body of `intersect`, `intersectOnCatenary` and `intersectOnNurbs`. */
    method IntersectWith(kind: Kind, curve: Curve)
      modifies this`deltaT
      ensures deltaT == DeltaAfter(kind, no, old(deltaT), meshRef, curve)
    {
      if meshRef.None? {
        return;
      }
      var result := DetectIntersections(kind, curve, meshRef.value);
      GetIntersectionArcLengths(curve, result);
    }

    /** `intersect(curve)`: arc-length samples, keys at 1e-9, cap 4. */
    method Intersect(curve: Curve)
      modifies this`deltaT
      ensures deltaT == DeltaAfter(Spaced, no, old(deltaT), meshRef, curve)
    {
      IntersectWith(Spaced, curve);
    }

    /** `intersectOnCatenary(curve)`: parameter samples, keys at 1e-5, cap 4. */
    method IntersectOnCatenary(curve: Curve)
      modifies this`deltaT
      ensures deltaT == DeltaAfter(Catenary, no, old(deltaT), meshRef, curve)
    {
      IntersectWith(Catenary, curve);
    }

    /** `intersectOnNurbs(curve)`: parameter samples, keys at 1e-5, cap 2. */
    method IntersectOnNurbs(curve: Curve)
      modifies this`deltaT
      ensures deltaT == DeltaAfter(Nurbs, no, old(deltaT), meshRef, curve)
    {
      IntersectWith(Nurbs, curve);
    }
  }

  // ---------------------------------------------------------------- lemmas

  /** The retry happens exactly when the first scan found fewer than two
      points, and then the first scan's points are discarded. */
  lemma DetectionRetry(kind: Kind, c: Curve, mesh: Mesh)
    ensures var first := ScanResult(Samples(kind, c, InitialPoints), mesh.raycast, KeyFor(kind), Cap(kind));
            Detection(kind, c, mesh) ==
              if |first| < 2 then ScanResult(Samples(kind, c, MaxPoints), mesh.raycast, KeyFor(kind), Cap(kind)) else first
  {
  }

  /** `deltaT` is left alone exactly without a mesh reference, without
      intersections, or with a lone intersection on a slot inside the arch. */
  lemma DeltaUnchanged(no: int, ints: seq<Vec3>, c: Curve)
    ensures ArcDelta(no, ints, c).None? <==> |ints| == 0 || (|ints| == 1 && no != 0 && no != LastSlot)
  {
  }

  /** Only the first two intersections matter. */
  lemma ArcDeltaFirstTwo(no: int, ints: seq<Vec3>, c: Curve)
    requires |ints| >= 2
    ensures ArcDelta(no, ints, c) == ArcDelta(no, ints[..2], c)
    ensures ArcDelta(no, ints, c) == Some(ClosestT(c, ints[1], ArcDivisions) - ClosestT(c, ints[0], ArcDivisions))
  {
  }

  /** A stored `deltaT` is a difference of two parameters of the unit interval. */
  lemma ArcDeltaBounded(no: int, ints: seq<Vec3>, c: Curve)
    ensures ArcDelta(no, ints, c).Some? ==> -1.0 <= ArcDelta(no, ints, c).value <= 1.0
  {
    if ArcDelta(no, ints, c).Some? {
      var pts := Completed(no, ints, c);
      ClosestTInWindow(c, pts[0], ArcDivisions);
      ClosestTInWindow(c, pts[1], ArcDivisions);
    }
  }

  /** Slot 0 with a lone intersection measures from that intersection back to
      the curve's start, so its `deltaT` is never positive. */
  lemma SlotZeroDelta(ints: seq<Vec3>, c: Curve)
    requires |ints| == 1
    ensures ArcDelta(0, ints, c) == Some(-ClosestT(c, ints[0], ArcDivisions))
    ensures ArcDelta(0, ints, c).value <= 0.0
  {
    ClosestTOfStart(c, ArcDivisions);
    ClosestTInWindow(c, ints[0], ArcDivisions);
  }

  /** The last slot with a lone intersection measures from the curve's end to
      that intersection. */
  lemma LastSlotDelta(ints: seq<Vec3>, c: Curve)
    requires |ints| == 1
    ensures ArcDelta(LastSlot, ints, c) == Some(ClosestT(c, ints[0], ArcDivisions) - ClosestT(c, c.pointAt(1.0), ArcDivisions))
  {
  }
}
