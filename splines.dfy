/** The control-point store of the arch (`SplineManager`): the NURBS control
    polygon and its replace-at-index updates, the sixteen tooth slots spread
    along the curve, the sweep that redistributes them outwards from the
    middle parameter by their measured `deltaT`, and the orientation each
    slot takes from the curve's Frenet frames. */
module Splines {
  import opened Vectors
  import opened Options
  import opened Curves
  import opened Search
  import opened Utils
  import opened Spheres

  // ------------------------------------------------------------- constants

  /** Number of tooth slots along the arch. */
  const SlotCount := 16

  /** `spherePoints[i]`: every slot has radius 0.25. */
  const SlotRadius := 0.25

  /** Slots `0 .. 7` lie left of the middle, `8 .. 15` right of it. */
  const MidSlot := 8

  /** `numSegments` of the Frenet frames. */
  const FrameSegments := 200

  /** `divisions` of the orientation routine's parameter scan. */
  const RotationDivisions := 1000

  /** `getPoints(500)` of the displayed curve. */
  const CurveDivisions := 500

  /** The fixed degree `updateNurbs` rebuilds the curve with. */
  const UpdateDegree := 4

  const WorldUp := Vec3(0.0, 1.0, 0.0)
  const WorldRight := Vec3(1.0, 0.0, 0.0)

  /** Below this squared length the first normal is replaced. */
  const NormalThreshold := 0.001

  /** The six initial control points of the arch. */
  const InitialControlPoints := [
    Vec3(22.0, 0.0, -10.0), Vec3(22.0, 0.0, 6.0), Vec3(10.0, 0.0, 25.0),
    Vec3(-10.0, 0.0, 25.0), Vec3(-22.0, 0.0, 6.0), Vec3(-22.0, 0.0, -10.0)]

  /** The initial `staticCurvePoints` of the Bézier editor. */
  const InitialStaticPoints := [
    Vec3(0.0, 0.0, 0.0), Vec3(25.0, 50.0, 0.0), Vec3(50.0, 50.0, 0.0), Vec3(75.0, 0.0, 0.0)]

  /** The initial `catenaryControlPoints`. */
  const InitialCatenaryPoints := [Vec3(0.0, 0.0, 0.0), Vec3(75.0, 0.0, 0.0)]

  // ------------------------------------------------------ slot placement

  /** `i / 15`: the evenly spread parameter of slot `i`. */
  function SlotT(i: int): real {
    i as real / 15.0
  }

  /** `d[lo] + ... + d[hi - 1]`. */
  function SumRange(d: seq<real>, lo: int, hi: int): real
    requires 0 <= lo <= hi <= |d|
    decreases hi - lo
  {
    if lo == hi then 0.0 else d[lo] + SumRange(d, lo + 1, hi)
  }

  /** Where the sweep puts slot `i`, given the slots' `deltaT` values `d`:
      the left sweep walks down from `midU` subtracting each delta, the
      right sweep walks up adding it, and each slot lands half way across
      its own delta. */
  function ArrangedT(midU: real, d: seq<real>, i: int): real
    requires |d| == SlotCount && 0 <= i < SlotCount
  {
    if i < MidSlot then midU - SumRange(d, i + 1, MidSlot) - d[i] / 2.0
    else midU + SumRange(d, MidSlot, i) + d[i] / 2.0
  }

  /** The `deltaT` of each slot, in slot order. */
  function Deltas(ss: seq<SphereGeo>): (r: seq<real>)
    reads ss
    ensures |r| == |ss| && forall i :: 0 <= i < |ss| ==> r[i] == ss[i].deltaT
  {
    seq(|ss|, i reads ss requires 0 <= i < |ss| => ss[i].deltaT)
  }

  /** `const next = [...points]; next[index] = v`: a copy with one entry replaced. */
  function ReplaceAt<T>(s: seq<T>, index: int, v: T): (r: seq<T>)
    requires 0 <= index < |s|
    ensures |r| == |s| && r[index] == v
    ensures forall j :: 0 <= j < |s| && j != index ==> r[j] == s[j]
  {
    s[index := v]
  }

  /** The slots are distinct objects. */
  predicate Distinct(ss: seq<SphereGeo>) {
    forall i, j :: 0 <= i < j < |ss| ==> ss[i] != ss[j]
  }

  // ----------------------------------------------------------- orientation

  /** `Math.round(closestT * numSegments)`. */
  function FrameIndex(t: real): int {
    Round(t * FrameSegments as real)
  }

  /** The basis handed to `makeBasis`: the normal `up × tangent`, replaced by
      `tangent × right` when nearly zero, the negated tangent, and the
      negated `tangent × normal`. The tangent is negated in place only after
      the third column was computed from it. */
  function FrameBasis(normalize: Vec3 -> Vec3, frameTangent: Vec3): Basis {
    var tangent := normalize(frameTangent);
    var upNormal := normalize(Cross(WorldUp, tangent));
    var normal := if LengthSq(upNormal) < NormalThreshold then normalize(Cross(tangent, WorldRight)) else upNormal;
    Basis(normal, Neg(tangent), Neg(Cross(tangent, normal)))
  }

  /** Whether computed frames pass the shape checks: one entry per segment end. */
  predicate WellFormed(f: Frames) {
    |f.tangents| == FrameSegments + 1 && |f.normals| == FrameSegments + 1 && |f.binormals| == FrameSegments + 1
  }

  /** `getNurbsCurveRotationForPosition(pos)`: the Euler angles of the frame
      at the grid parameter closest to `pos`, and no rotation whenever a
      guard fails. */
  function Rotation(lib: Library, curve: Option<Curve>, pos: Vec3): Euler {
    if curve.None? then NoRotation
    else
      var c := curve.value;
      match c.frenetFrames(FrameSegments)
      case None => NoRotation
      case Some(f) =>
        if !WellFormed(f) then NoRotation
        else
          var frameIndex := FrameIndex(Coarse(c, pos, RotationDivisions).t);
          if frameIndex < 0 || frameIndex > FrameSegments then NoRotation
          else
            match lib.eulerOf(FrameBasis(lib.normalize, f.tangents[frameIndex]))
            case None => NoRotation
            case Some(e) => e
  }

  // --------------------------------------------------------- the store

  class SplineManager {
    /** The curve library the store builds its curves with. */
    const lib: Library

    var controlPointsNurbs: seq<Vec3>
    var staticCurvePoints: seq<Vec3>
    var catenaryControlPoints: seq<Vec3>

    var nurbsCurve: Option<Curve>
    var originalCurve: Option<Curve>
    var nurbCurvePoints: seq<Vec3>
    /** The `position` attribute of the displayed curve's geometry. */
    var curvePositions: seq<real>
    var curveMidU: real

    var nurbsCurveInstances: seq<SphereGeo>
    /** `_curve` and its slots (`sphereInstance`), for the Bézier editor. */
    var curve: Option<Curve>
    var sphereInstance: seq<SphereGeo>
    /** `_curvePath` and its slots (`sphereInstanceC`), for the catenary editor. */
    var curvePath: Curve
    var sphereInstanceC: seq<SphereGeo>

    /** Each slot list is empty or holds sixteen distinct slots. */
    predicate Valid()
      reads this
    {
      && (|nurbsCurveInstances| == 0 || |nurbsCurveInstances| == SlotCount) && Distinct(nurbsCurveInstances)
      && (|sphereInstance| == 0 || |sphereInstance| == SlotCount) && Distinct(sphereInstance)
      && (|sphereInstanceC| == 0 || |sphereInstanceC| == SlotCount) && Distinct(sphereInstanceC)
    }

    /** `new SplineManager()`: the initial control polygons, the
        catenary path `path`, the NURBS curve built through the six initial
        control points, and its sixteen slots. */
    constructor(lib: Library, path: Curve)
      ensures Valid() && this.lib == lib
      ensures controlPointsNurbs == InitialControlPoints
      ensures staticCurvePoints == InitialStaticPoints && catenaryControlPoints == InitialCatenaryPoints
      ensures curveMidU == 0.5
      ensures curve == None && sphereInstance == [] && curvePath == path && sphereInstanceC == []
      ensures var c := lib.nurbs(5, KnotVector(5, 6), InitialControlPoints);
              && nurbsCurve == Some(c) && originalCurve == Some(c)
              && nurbCurvePoints == Points(c, CurveDivisions)
              && curvePositions == Flatten(nurbCurvePoints)
              && SlotsAt(nurbsCurveInstances, c)
    {
      this.lib := lib;
      controlPointsNurbs := InitialControlPoints;
      staticCurvePoints := InitialStaticPoints;
      catenaryControlPoints := InitialCatenaryPoints;
      nurbsCurve := None;
      originalCurve := None;
      nurbCurvePoints := [];
      curvePositions := [];
      curveMidU := 0.5;
      nurbsCurveInstances := [];
      curve := None;
      sphereInstance := [];
      curvePath := path;
      sphereInstanceC := [];
      new;
      BuildNurbsCurve();
      SetNurbSphereInstance();
    }

    /** `updateNurbControlPoints(point, index)`. */
    method UpdateNurbControlPoints(point: Vec3, index: int)
      requires 0 <= index < |controlPointsNurbs|
      modifies this`controlPointsNurbs
      ensures controlPointsNurbs == ReplaceAt(old(controlPointsNurbs), index, point)
    {
      var newPoints := controlPointsNurbs;
      newPoints := newPoints[index := point];
      controlPointsNurbs := newPoints;
    }

    /** `setStaticCurvePoints(points, index)`. */
    method SetStaticCurvePoints(points: Vec3, index: int)
      requires 0 <= index < |staticCurvePoints|
      modifies this`staticCurvePoints
      ensures staticCurvePoints == ReplaceAt(old(staticCurvePoints), index, points)
    {
      var newPoints := staticCurvePoints;
      newPoints := newPoints[index := points];
      staticCurvePoints := newPoints;
    }

    /** `updateCatenaryControlPoints(points, index)`. */
    method UpdateCatenaryControlPoints(points: Vec3, index: int)
      requires 0 <= index < |catenaryControlPoints|
      modifies this`catenaryControlPoints
      ensures catenaryControlPoints == ReplaceAt(old(catenaryControlPoints), index, points)
    {
      var newPoints := catenaryControlPoints;
      newPoints := newPoints[index := points];
      catenaryControlPoints := newPoints;
    }

    /** `setNurbSphereInstance()`: sixteen fresh slots on the NURBS curve,
        nothing without a curve. */
    method SetNurbSphereInstance()
      requires Valid()
      modifies this`nurbsCurveInstances
      ensures Valid()
      ensures old(nurbsCurve).None? ==> nurbsCurveInstances == old(nurbsCurveInstances)
      ensures nurbsCurve.Some? ==> SlotsAt(nurbsCurveInstances, nurbsCurve.value) && forall s :: s in nurbsCurveInstances ==> fresh(s)
    {
      if nurbsCurve.None? {
        return;
      }
      nurbsCurveInstances := CreateSlots(nurbsCurve.value);
    }

    /** `setSphereInstance()`: the same on the Bézier curve. */
    method SetSphereInstance()
      requires Valid()
      modifies this`sphereInstance
      ensures Valid()
      ensures old(curve).None? ==> sphereInstance == old(sphereInstance)
      ensures curve.Some? ==> SlotsAt(sphereInstance, curve.value) && forall s :: s in sphereInstance ==> fresh(s)
    {
      if curve.None? {
        return;
      }
      sphereInstance := CreateSlots(curve.value);
    }

    /** `setSphereInstanceC()`: the same on the catenary path. */
    method SetSphereInstanceC()
      requires Valid()
      modifies this`sphereInstanceC
      ensures Valid()
      ensures SlotsAt(sphereInstanceC, curvePath) && forall s :: s in sphereInstanceC ==> fresh(s)
    {
      sphereInstanceC := CreateSlots(curvePath);
    }

    /** `getNurbsCurveRotationForPosition(pos)`: the guards, the scan of a
        1001-point parameter grid, and the frame lookup. */
    method GetNurbsCurveRotationForPosition(pos: Vec3) returns (r: Euler)
      ensures r == Rotation(lib, nurbsCurve, pos)
    {
      if nurbsCurve.None? {
        return NoRotation;
      }
      var c := nurbsCurve.value;
      var frames := c.frenetFrames(FrameSegments);
      if frames.None? {
        return NoRotation;
      }
      var f := frames.value;
      if |f.tangents| != FrameSegments + 1 || |f.normals| != FrameSegments + 1 || |f.binormals| != FrameSegments + 1 {
        return NoRotation;
      }
      var closestT, minDistSq := ScanGrid(c, pos, RotationDivisions);
      var frameIndex := Round(closestT * FrameSegments as real);
      if frameIndex < 0 || frameIndex > FrameSegments {
        return NoRotation;
      }
      var euler := lib.eulerOf(FrameBasis(lib.normalize, f.tangents[frameIndex]));
      if euler.None? {
        return NoRotation;
      }
      return euler.value;
    }


    /** The rotation a slot ends up with after being placed at `pos`: only
        the NURBS sweep re-orients its slots. */
    function PlacedRotation(kind: Kind, before: Euler, pos: Vec3): Euler
      reads this
    {
      if kind == Nurbs then Rotation(lib, nurbsCurve, pos) else before
    }

    /** The outcome of a sweep on `c` around `midU` over the state before it:
        every slot measured by `intersect*` and placed at `ArrangedT` of the
        measured deltas, oriented there on a NURBS curve, with a tangent
        recorded on the right half only. */
    twostate predicate Arranged(kind: Kind, c: Curve, slots: seq<SphereGeo>, midU: real)
      reads this, slots
    {
      && |slots| == SlotCount
      && forall j :: 0 <= j < SlotCount ==>
        && slots[j].deltaT == DeltaAfter(kind, slots[j].no, old(slots[j].deltaT), old(slots[j].meshRef), c)
        && slots[j].meshRef == old(slots[j].meshRef)
        && slots[j].position == c.pointAt(ArrangedT(midU, Deltas(slots), j))
        && slots[j].rotation == PlacedRotation(kind, old(slots[j].rotation), slots[j].position)
        && slots[j].tangent == if j < MidSlot then old(slots[j].tangent) else Some(c.tangentAt(ArrangedT(midU, Deltas(slots), j)))
    }

    /** `setPosition(pos)`, followed in the NURBS sweep by
        `setRotation(getNurbsCurveRotationForPosition(pos))`, and in the right
        half of a sweep by `setTangent(tangent)`. */
    method PlaceSlot(kind: Kind, c: Curve, slot: SphereGeo, pos: Vec3, tangent: Option<Vec3>)
      modifies slot
      ensures slot.position == pos
      ensures slot.rotation == PlacedRotation(kind, old(slot.rotation), pos)
      ensures slot.tangent == if tangent.Some? then tangent else old(slot.tangent)
      ensures slot.deltaT == old(slot.deltaT) && slot.meshRef == old(slot.meshRef)
    {
      slot.SetPosition(pos);
      if kind == Nurbs {
        var rotation := GetNurbsCurveRotationForPosition(pos);
        slot.SetRotation(rotation);
      }
      if tangent.Some? {
        slot.SetTangent(tangent.value);
      }
    }

    /** One step of the first pass: the slot at `pos`, then `intersect*`. */
    method PlaceAndMeasure(kind: Kind, c: Curve, slot: SphereGeo, pos: Vec3)
      modifies slot
      ensures slot.position == pos
      ensures slot.rotation == PlacedRotation(kind, old(slot.rotation), pos)
      ensures slot.deltaT == DeltaAfter(kind, slot.no, old(slot.deltaT), slot.meshRef, c)
      ensures slot.tangent == old(slot.tangent) && slot.meshRef == old(slot.meshRef)
    {
      PlaceSlot(kind, c, slot, pos, None);
      slot.IntersectWith(kind, c);
    }

    /** The first pass of the sweep: every slot at `i / 15`, oriented there
        (NURBS only), and measured by `intersect*`. */
    method PlaceEvenly(kind: Kind, c: Curve, slots: seq<SphereGeo>)
      requires |slots| == SlotCount && Distinct(slots)
      modifies slots
      ensures forall j :: 0 <= j < SlotCount ==>
        && slots[j].deltaT == DeltaAfter(kind, slots[j].no, old(slots[j].deltaT), slots[j].meshRef, c)
        && slots[j].position == c.pointAt(SlotT(j))
        && slots[j].rotation == PlacedRotation(kind, old(slots[j].rotation), c.pointAt(SlotT(j)))
        && slots[j].meshRef == old(slots[j].meshRef) && slots[j].tangent == old(slots[j].tangent)
    {
      var i := 0;
      while i < SlotCount
        invariant 0 <= i <= SlotCount
        invariant forall j :: 0 <= j < SlotCount ==>
          && slots[j].meshRef == old(slots[j].meshRef) && slots[j].tangent == old(slots[j].tangent)
          && if j < i then
               && slots[j].deltaT == DeltaAfter(kind, slots[j].no, old(slots[j].deltaT), slots[j].meshRef, c)
               && slots[j].position == c.pointAt(SlotT(j))
               && slots[j].rotation == PlacedRotation(kind, old(slots[j].rotation), c.pointAt(SlotT(j)))
             else slots[j].deltaT == old(slots[j].deltaT) && slots[j].rotation == old(slots[j].rotation)
      {
        PlaceAndMeasure(kind, c, slots[i], c.pointAt(SlotT(i)));
        i := i + 1;
      }
    }

    /** The left sweep: slots 7 down to 0, stepping back from `midU` by each
        slot's delta `d[i]` and placing the slot half way. */
    method SweepLeft(kind: Kind, c: Curve, slots: seq<SphereGeo>, midU: real, ghost d: seq<real>)
      requires |slots| == SlotCount && Distinct(slots) && |d| == SlotCount
      requires forall j :: 0 <= j < SlotCount ==> slots[j].deltaT == d[j]
      modifies slots
      ensures forall j :: 0 <= j < SlotCount ==>
        && slots[j].deltaT == d[j] && slots[j].meshRef == old(slots[j].meshRef) && slots[j].tangent == old(slots[j].tangent)
        && if j < MidSlot then
             && slots[j].position == c.pointAt(ArrangedT(midU, d, j))
             && slots[j].rotation == PlacedRotation(kind, old(slots[j].rotation), slots[j].position)
           else slots[j].position == old(slots[j].position) && slots[j].rotation == old(slots[j].rotation)
    {
      var currentT := midU;
      var i := MidSlot - 1;
      while i >= 0
        invariant -1 <= i < MidSlot
        invariant currentT == midU - SumRange(d, i + 1, MidSlot)
        invariant forall j :: 0 <= j < SlotCount ==>
          && slots[j].deltaT == d[j] && slots[j].meshRef == old(slots[j].meshRef) && slots[j].tangent == old(slots[j].tangent)
          && if i < j < MidSlot then
               && slots[j].position == c.pointAt(ArrangedT(midU, d, j))
               && slots[j].rotation == PlacedRotation(kind, old(slots[j].rotation), slots[j].position)
             else slots[j].position == old(slots[j].position) && slots[j].rotation == old(slots[j].rotation)
      {
        var nextT := currentT - slots[i].deltaT;
        var midPoint := (currentT + nextT) / 2.0;
        assert midPoint == ArrangedT(midU, d, i);
        assert nextT == midU - SumRange(d, i, MidSlot);
        currentT := nextT;
        var arrangedPoint := c.pointAt(midPoint);
        PlaceSlot(kind, c, slots[i], arrangedPoint, None);
        i := i - 1;
      }
    }

    /** The right sweep: slots 8 up to 15, stepping on from `midU` by each
        delta, placing the slot half way and recording the tangent there. */
    method SweepRight(kind: Kind, c: Curve, slots: seq<SphereGeo>, midU: real, ghost d: seq<real>)
      requires |slots| == SlotCount && Distinct(slots) && |d| == SlotCount
      requires forall j :: 0 <= j < SlotCount ==> slots[j].deltaT == d[j]
      modifies slots
      ensures forall j :: 0 <= j < SlotCount ==>
        && slots[j].deltaT == d[j] && slots[j].meshRef == old(slots[j].meshRef)
        && if MidSlot <= j then
             && slots[j].position == c.pointAt(ArrangedT(midU, d, j))
             && slots[j].tangent == Some(c.tangentAt(ArrangedT(midU, d, j)))
             && slots[j].rotation == PlacedRotation(kind, old(slots[j].rotation), slots[j].position)
           else
             && slots[j].position == old(slots[j].position) && slots[j].rotation == old(slots[j].rotation)
             && slots[j].tangent == old(slots[j].tangent)
    {
      var currentT := midU;
      var i := MidSlot;
      while i < SlotCount
        invariant MidSlot <= i <= SlotCount
        invariant currentT == midU + SumRange(d, MidSlot, i)
        invariant forall j :: 0 <= j < SlotCount ==>
          && slots[j].deltaT == d[j] && slots[j].meshRef == old(slots[j].meshRef)
          && if MidSlot <= j < i then
               && slots[j].position == c.pointAt(ArrangedT(midU, d, j))
               && slots[j].tangent == Some(c.tangentAt(ArrangedT(midU, d, j)))
               && slots[j].rotation == PlacedRotation(kind, old(slots[j].rotation), slots[j].position)
             else
               && slots[j].position == old(slots[j].position) && slots[j].rotation == old(slots[j].rotation)
               && slots[j].tangent == old(slots[j].tangent)
      {
        SumRangeSnoc(d, MidSlot, i);
        var nextT := currentT + slots[i].deltaT;
        var midPoint := (currentT + nextT) / 2.0;
        assert midPoint == ArrangedT(midU, d, i);
        assert nextT == midU + SumRange(d, MidSlot, i + 1);
        currentT := nextT;
        var arrangedPoint := c.pointAt(midPoint);
        var tangent := c.tangentAt(midPoint);
        PlaceSlot(kind, c, slots[i], arrangedPoint, Some(tangent));
        i := i + 1;
      }
    }

    /** The body shared by `arrangeSphere`, `arrangeSphereOnCatenary` and
        `arrangeSphereOnNurbs`, once their guards have passed. */
    method Arrange(kind: Kind, c: Curve, slots: seq<SphereGeo>, midU: real)
      requires |slots| == SlotCount && Distinct(slots)
      modifies slots
      ensures Arranged(kind, c, slots, midU)
    {
      PlaceEvenly(kind, c, slots);
      ghost var d := Deltas(slots);
      SweepLeft(kind, c, slots, midU, d);
      SweepRight(kind, c, slots, midU, d);
      assert Deltas(slots) == d;
    }

    /** `arrangeSphereOnNurbs()`: nothing without a NURBS curve or slots,
        otherwise the sweep around `curveMidU`, orienting every slot. */
    method ArrangeSphereOnNurbs()
      requires Valid()
      modifies nurbsCurveInstances
      ensures nurbsCurve.None? || |nurbsCurveInstances| == 0 ==> unchanged(nurbsCurveInstances)
      ensures nurbsCurve.Some? && |nurbsCurveInstances| != 0 ==>
        Arranged(Nurbs, nurbsCurve.value, nurbsCurveInstances, curveMidU)
    {
      if nurbsCurve.None? || |nurbsCurveInstances| == 0 {
        return;
      }
      Arrange(Nurbs, nurbsCurve.value, nurbsCurveInstances, curveMidU);
    }

    /** `arrangeSphere()`: the same sweep on the Bézier curve around 0.5,
        measured by `intersect` and without orientation. */
    method ArrangeSphere()
      requires Valid()
      modifies sphereInstance
      ensures curve.None? || |sphereInstance| == 0 ==> unchanged(sphereInstance)
      ensures curve.Some? && |sphereInstance| != 0 ==> Arranged(Spaced, curve.value, sphereInstance, 0.5)
    {
      if curve.None? || |sphereInstance| == 0 {
        return;
      }
      Arrange(Spaced, curve.value, sphereInstance, 0.5);
    }

    /** `arrangeSphereOnCatenary()`: the same sweep on the catenary path,
        measured by `intersectOnCatenary`. */
    method ArrangeSphereOnCatenary()
      requires Valid()
      modifies sphereInstanceC
      ensures |sphereInstanceC| == 0 ==> unchanged(sphereInstanceC)
      ensures |sphereInstanceC| != 0 ==> Arranged(Catenary, curvePath, sphereInstanceC, 0.5)
    {
      if |sphereInstanceC| == 0 {
        return;
      }
      Arrange(Catenary, curvePath, sphereInstanceC, 0.5);
    }

    /** `buildNurbsCurve()`: a curve of degree `n - 1` through the current
        control polygon, its 501 display points and their coordinate buffer,
        then the sweep. */
    method BuildNurbsCurve()
      requires Valid()
      modifies this, nurbsCurveInstances
      ensures Valid()
      ensures var n := |controlPointsNurbs|;
              var c := lib.nurbs(n - 1, KnotVector(n - 1, n), controlPointsNurbs);
              && nurbsCurve == Some(c) && originalCurve == Some(c)
              && nurbCurvePoints == Points(c, CurveDivisions)
              && curvePositions == Flatten(nurbCurvePoints)
              && (|old(nurbsCurveInstances)| != 0 ==> Arranged(Nurbs, c, old(nurbsCurveInstances), curveMidU))
              && (|old(nurbsCurveInstances)| == 0 ==> unchanged(old(nurbsCurveInstances)))
      ensures Unrelated()
      ensures curveMidU == old(curveMidU)
    {
      var degree := |controlPointsNurbs| - 1;
      var knotVector := CalculateKnotVector(degree, controlPointsNurbs);
      var nurbs := lib.nurbs(degree, knotVector, controlPointsNurbs);
      originalCurve := Some(nurbs);
      ShowCurve(nurbs);
    }

    /** The common tail of `buildNurbsCurve` and `updateNurbs`: the 501
        display points of `nurbs` and their coordinate buffer, the curve
        stored, and the sweep on it. */
    method ShowCurve(nurbs: Curve)
      requires Valid()
      modifies this`nurbCurvePoints, this`curvePositions, this`nurbsCurve, nurbsCurveInstances
      ensures nurbsCurve == Some(nurbs)
      ensures nurbCurvePoints == Points(nurbs, CurveDivisions)
      ensures curvePositions == Flatten(nurbCurvePoints)
      ensures |nurbsCurveInstances| != 0 ==> Arranged(Nurbs, nurbs, nurbsCurveInstances, curveMidU)
      ensures |nurbsCurveInstances| == 0 ==> unchanged(nurbsCurveInstances)
    {
      nurbCurvePoints := Points(nurbs, CurveDivisions);
      var floatArray := FillPositions(nurbCurvePoints);
      nurbsCurve := Some(nurbs);
      curvePositions := floatArray[..];
      ArrangeSphereOnNurbs();
    }

    /** `updateNurbs()`: nothing without an original curve; otherwise a
        degree-4 curve through the current control polygon, the middle
        parameter rescaled by the ratio of the lengths, the display points
        rebuilt, and the sweep. */
    method UpdateNurbs()
      requires Valid()
      modifies this, nurbsCurveInstances
      ensures Valid()
      ensures old(originalCurve).None? ==> unchanged(this) && unchanged(nurbsCurveInstances)
      ensures old(originalCurve).Some? ==>
              var c := lib.nurbs(UpdateDegree, KnotVector(UpdateDegree, |controlPointsNurbs|), controlPointsNurbs);
              && curveMidU == MidU(old(originalCurve).value.length, c.length)
              && nurbsCurve == Some(c) && originalCurve == old(originalCurve)
              && nurbCurvePoints == Points(c, CurveDivisions)
              && curvePositions == Flatten(nurbCurvePoints)
              && (|old(nurbsCurveInstances)| != 0 ==> Arranged(Nurbs, c, old(nurbsCurveInstances), curveMidU))
              && (|old(nurbsCurveInstances)| == 0 ==> unchanged(old(nurbsCurveInstances)))
      ensures Unrelated()
    {
      if originalCurve.None? {
        return;
      }
      var knotVector := CalculateKnotVector(UpdateDegree, controlPointsNurbs);
      var nurbs := lib.nurbs(UpdateDegree, knotVector, controlPointsNurbs);
      var oldArcLengths := originalCurve.value.length;
      var newTotalLength := nurbs.length;
      var deltaT := oldArcLengths / newTotalLength / 2.0;
      curveMidU := deltaT;
      ShowCurve(nurbs);
    }

    /** The fields a rebuild of the NURBS curve leaves alone. */
    twostate predicate Unrelated()
      reads this
    {
      && controlPointsNurbs == old(controlPointsNurbs) && staticCurvePoints == old(staticCurvePoints)
      && catenaryControlPoints == old(catenaryControlPoints) && nurbsCurveInstances == old(nurbsCurveInstances)
      && curve == old(curve) && sphereInstance == old(sphereInstance)
      && curvePath == old(curvePath) && sphereInstanceC == old(sphereInstanceC)
    }
  }

  /** The coordinates of `points`, three per point, in order. */
  function Flatten(points: seq<Vec3>): (r: seq<real>)
    ensures |r| == 3 * |points|
  {
    if points == [] then []
    else
      var p := points[|points| - 1];
      Flatten(points[..|points| - 1]) + [p.x, p.y, p.z]
  }

  /** `oldLength / newLength / 2`, the middle parameter `updateNurbs` sets:
      one half when the length is kept, less when the curve grew. */
  function MidU(oldLength: Length, newLength: Length): (u: real)
    ensures u > 0.0
    ensures oldLength == newLength ==> u == 0.5
    ensures oldLength < newLength ==> u < 0.5
    ensures oldLength > newLength ==> u > 0.5
  {
    RatioOrder(oldLength, newLength);
    oldLength / newLength / 2.0
  }

  /** The `Float32Array` of `buildNurbsCurve` and `updateNurbs`, filled by
      `floatArray.set([pt.x, pt.y, pt.z], i * 3)`. */
  method FillPositions(points: seq<Vec3>) returns (buffer: array<real>)
    ensures fresh(buffer)
    ensures buffer[..] == Flatten(points)
  {
    buffer := new real[|points| * 3];
    FlattenTriples(points);
    var i := 0;
    while i < |points|
      invariant 0 <= i <= |points|
      invariant forall k :: 0 <= k < 3 * i ==> buffer[k] == Flatten(points)[k]
    {
      var pt := points[i];
      buffer[i * 3] := pt.x;
      buffer[i * 3 + 1] := pt.y;
      buffer[i * 3 + 2] := pt.z;
      i := i + 1;
    }
  }

  /** Sixteen distinct slots, slot `i` numbered `i` at `i / 15` on `c` with
      the constructor's defaults. */
  predicate SlotsAt(ss: seq<SphereGeo>, c: Curve)
    reads ss
  {
    && |ss| == SlotCount && Distinct(ss)
    && forall i :: 0 <= i < SlotCount ==>
      && ss[i].no == i && ss[i].radius == SlotRadius
      && ss[i].position == c.pointAt(SlotT(i))
      && ss[i].deltaT == 0.0 && ss[i].tangent == None && ss[i].meshRef == None
      && ss[i].rotation == NoRotation
  }

  /** `Array.from({ length: 16 }, (_, i) => new SphereGeo(...))`. */
  method CreateSlots(c: Curve) returns (ss: seq<SphereGeo>)
    ensures SlotsAt(ss, c) && forall s :: s in ss ==> fresh(s)
  {
    ss := [];
    var i := 0;
    while i < SlotCount
      invariant 0 <= i <= SlotCount && |ss| == i && Distinct(ss)
      invariant forall j :: 0 <= j < i ==>
        && fresh(ss[j])
        && ss[j].no == j && ss[j].radius == SlotRadius
        && ss[j].position == c.pointAt(SlotT(j))
        && ss[j].deltaT == 0.0 && ss[j].tangent == None && ss[j].meshRef == None
        && ss[j].rotation == NoRotation
    {
      var slot := new SphereGeo(SlotRadius, c.pointAt(SlotT(i)), i);
      ss := ss + [slot];
      i := i + 1;
    }
  }

  // ---------------------------------------------------------------- lemmas

  /** Adding one term at the top of the range. */
  lemma {:induction false} SumRangeSnoc(d: seq<real>, lo: int, hi: int)
    requires 0 <= lo <= hi < |d|
    ensures SumRange(d, lo, hi + 1) == SumRange(d, lo, hi) + d[hi]
    decreases hi - lo
  {
    if lo < hi {
      SumRangeSnoc(d, lo + 1, hi);
    }
  }

  /** Triple `i` of the flattened buffer holds point `i`. */
  lemma {:induction false} FlattenTriples(points: seq<Vec3>)
    ensures forall i :: 0 <= i < |points| ==>
      && Flatten(points)[3 * i] == points[i].x
      && Flatten(points)[3 * i + 1] == points[i].y
      && Flatten(points)[3 * i + 2] == points[i].z
  {
    if points != [] {
      var front := points[..|points| - 1];
      FlattenTriples(front);
      forall i | 0 <= i < |front|
        ensures points[i] == front[i]
      {
      }
    }
  }

  /** A ratio of positive reals is positive, and below, at or above one as
      the numerator is below, at or above the denominator. */
  lemma RatioOrder(a: real, b: real)
    requires a > 0.0 && b > 0.0
    ensures a / b > 0.0
    ensures a < b ==> a / b < 1.0
    ensures a == b ==> a / b == 1.0
    ensures a > b ==> a / b > 1.0
  {
    var q := a / b;
    assert q * b == a;
    if a < b {
      var x := 1.0 - q;
      assert x * b == b - a;
      PositiveFactor(x, b);
    } else if a > b {
      var x := q - 1.0;
      assert x * b == a - b;
      PositiveFactor(x, b);
    }
    PositiveFactor(q, b);
  }

  /** A factor of a positive product with a positive cofactor is positive. */
  lemma PositiveFactor(x: real, b: real)
    requires b > 0.0 && x * b > 0.0
    ensures x > 0.0
  {
    assert x == (x * b) / b;
  }

  /** Consecutive slots end up half their two deltas apart, on either side
      of the middle and across it: slot 7 lies half its delta below `midU`
      and slot 8 half its delta above. */
  lemma ArrangedSpacing(midU: real, d: seq<real>, i: int)
    requires |d| == SlotCount && 0 <= i < SlotCount - 1
    ensures ArrangedT(midU, d, i + 1) - ArrangedT(midU, d, i) == (d[i] + d[i + 1]) / 2.0
    ensures ArrangedT(midU, d, MidSlot - 1) == midU - d[MidSlot - 1] / 2.0
    ensures ArrangedT(midU, d, MidSlot) == midU + d[MidSlot] / 2.0
  {
    if MidSlot <= i {
      SumRangeSnoc(d, MidSlot, i);
    }
  }

  /** With non-negative deltas the sweep keeps the slots in order along the
      curve, and with positive deltas strictly so. */
  lemma {:induction false} ArrangedOrdered(midU: real, d: seq<real>, i: int, j: int)
    requires |d| == SlotCount && 0 <= i <= j < SlotCount
    requires forall k :: 0 <= k < SlotCount ==> d[k] >= 0.0
    ensures ArrangedT(midU, d, i) <= ArrangedT(midU, d, j)
    ensures i < j && (forall k :: 0 <= k < SlotCount ==> d[k] > 0.0) ==> ArrangedT(midU, d, i) < ArrangedT(midU, d, j)
    decreases j - i
  {
    if i < j {
      ArrangedSpacing(midU, d, i);
      ArrangedOrdered(midU, d, i + 1, j);
    }
  }

  /** The `k` deltas just below the middle sum to the `k` just above it when
      the deltas read the same from either end. */
  lemma {:induction false} MirrorSums(d: seq<real>, k: int)
    requires |d| == SlotCount && 0 <= k <= MidSlot
    requires forall m :: 0 <= m < SlotCount ==> d[m] == d[SlotCount - 1 - m]
    ensures SumRange(d, MidSlot - k, MidSlot) == SumRange(d, MidSlot, MidSlot + k)
  {
    if k > 0 {
      MirrorSums(d, k - 1);
      SumRangeSnoc(d, MidSlot, MidSlot + k - 1);
      assert d[MidSlot - k] == d[MidSlot + k - 1];
    }
  }

  /** Deltas that read the same from either end place slots `7 - k` and
      `8 + k` symmetrically about `midU`. */
  lemma ArrangedMirror(midU: real, d: seq<real>, k: int)
    requires |d| == SlotCount && 0 <= k < MidSlot
    requires forall m :: 0 <= m < SlotCount ==> d[m] == d[SlotCount - 1 - m]
    ensures ArrangedT(midU, d, MidSlot - 1 - k) + ArrangedT(midU, d, MidSlot + k) == 2.0 * midU
  {
    MirrorSums(d, k);
    assert d[MidSlot - 1 - k] == d[MidSlot + k];
  }

  /** In particular equal deltas place the two halves as mirror images. */
  lemma EqualDeltasMirror(midU: real, d: seq<real>, k: int)
    requires |d| == SlotCount && 0 <= k < MidSlot
    requires forall m :: 0 <= m < SlotCount ==> d[m] == d[0]
    ensures ArrangedT(midU, d, MidSlot - 1 - k) + ArrangedT(midU, d, MidSlot + k) == 2.0 * midU
  {
    forall m | 0 <= m < SlotCount
      ensures d[m] == d[SlotCount - 1 - m]
    {
      assert d[m] == d[0] && d[SlotCount - 1 - m] == d[0];
    }
    ArrangedMirror(midU, d, k);
  }

  /** A parameter in the unit interval rounds to a frame index in 0 .. 200. */
  lemma FrameIndexInRange(t: real)
    requires 0.0 <= t <= 1.0
    ensures 0 <= FrameIndex(t) <= FrameSegments
  {
    RoundBounds(t * FrameSegments as real);
  }

  /** The orientation routine's index guard never fires: the grid winner is
      a grid parameter, so its frame index is always in range. With
      well-formed frames the routine returns the orientation of the frame
      at the first grid point nearest to `pos`, or no rotation when the
      decomposition fails. */
  lemma RotationAtFirstMin(lib: Library, c: Curve, pos: Vec3) returns (k: int)
    requires c.frenetFrames(FrameSegments).Some? && WellFormed(c.frenetFrames(FrameSegments).value)
    ensures IsFirstMin(c, pos, Grid(RotationDivisions), k)
    ensures 0 <= FrameIndex(Grid(RotationDivisions)[k]) <= FrameSegments
    ensures var f := c.frenetFrames(FrameSegments).value;
            Rotation(lib, Some(c), pos) ==
              match lib.eulerOf(FrameBasis(lib.normalize, f.tangents[FrameIndex(Grid(RotationDivisions)[k])]))
              case None => NoRotation
              case Some(e) => e
  {
    CoarseIsFirstMin(c, pos, RotationDivisions);
    k :| IsFirstMin(c, pos, Grid(RotationDivisions), k)
         && Coarse(c, pos, RotationDivisions) == Best(Grid(RotationDivisions)[k], Some(Dist(c, pos, Grid(RotationDivisions)[k])));
    GridInUnit(RotationDivisions);
    FrameIndexInRange(Grid(RotationDivisions)[k]);
  }

  /** The third column of the basis is orthogonal to the other two, whatever
      `normalize` returns and whichever normal was chosen. */
  lemma FrameBasisOrthogonal(normalize: Vec3 -> Vec3, frameTangent: Vec3)
    ensures var b := FrameBasis(normalize, frameTangent);
            Dot(b.zAxis, b.xAxis) == 0.0 && Dot(b.zAxis, b.yAxis) == 0.0
  {
    var tangent := normalize(frameTangent);
    var upNormal := normalize(Cross(WorldUp, tangent));
    var normal := if LengthSq(upNormal) < NormalThreshold then normalize(Cross(tangent, WorldRight)) else upNormal;
    CrossOrthogonal(tangent, normal);
    var z := Cross(tangent, normal);
    assert Dot(Neg(z), normal) == -Dot(z, normal);
    assert Dot(Neg(z), Neg(tangent)) == Dot(z, tangent);
  }
}
