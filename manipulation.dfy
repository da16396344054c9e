/** The control-point editor of the NURBS arch (`NurbsManipulation`): which
    control point is being dragged and on which plane, which tooth mesh is
    selected, the rule that commits a dragged point only while the curve
    through the candidate polygon stays within the length limit, and the
    loop that loads the tooth geometries in pairs. */
module Manipulation {
  import opened Vectors
  import opened Options
  import opened Curves
  import opened Utils
  import opened Splines

  /** `CURVE_LENGTH_CONSTRAINT`. */
  const CurveLengthConstraint := 100.0

  /** Number of tooth files the load loop tries. */
  const ToothFiles := 16

  /** `new THREE.Plane().setFromNormalAndCoplanarPoint(normal, point)`. */
  datatype Plane = Plane(normal: Vec3, point: Vec3)

  /** A loaded STL mesh: its vertex positions. */
  datatype Geometry = Geometry(vertices: seq<Vec3>)

  /** The two tooth libraries: `toothLib-dissolved` and `toothLib`. */
  datatype Folder = Dissolved | Original

  // --------------------------------------------------------- drag rule

  /** `controlPointsNurbs.map((pt, i) => i === index ? intersect : pt)`. */
  function Candidate(points: seq<Vec3>, index: int, p: Vec3): (r: seq<Vec3>)
    ensures |r| == |points|
    ensures 0 <= index < |points| ==> r == ReplaceAt(points, index, p)
    ensures !(0 <= index < |points|) ==> r == points
  {
    seq(|points|, i requires 0 <= i < |points| => if i == index then p else points[i])
  }

  /** The curve `handleMouseMove` measures: degree `n - 1` through the
      candidate polygon, over `calculateKnotVector`. */
  function TempCurve(lib: Library, candidate: seq<Vec3>): Curve {
    lib.nurbs(|candidate| - 1, KnotVector(|candidate| - 1, |candidate|), candidate)
  }

  /** Whether a candidate polygon may be committed: the curve through it is
      no longer than the limit. */
  predicate Accepts(lib: Library, candidate: seq<Vec3>) {
    TempCurve(lib, candidate).length <= CurveLengthConstraint
  }

  /** `handleMeshClick(index)`: the clicked mesh, or nothing when it was the
      selected one. */
  function MeshClick(active: Option<int>, index: int): (r: Option<int>)
    ensures r == Some(index) <==> active != Some(index)
    ensures r == None <==> active == Some(index)
  {
    if active == Some(index) then None else Some(index)
  }

  /** Clicking the same mesh twice leaves it selected exactly when it was
      selected to begin with. */
  lemma MeshClickTwice(active: Option<int>, index: int)
    ensures MeshClick(MeshClick(active, index), index) == (if active == Some(index) then Some(index) else None)
  {
    var once := MeshClick(active, index);
    assert once == Some(index) <==> active != Some(index);
  }

  /** The control polygon after one `handleMouseMove` over `p` while point
      `index` is dragged: the candidate when its curve is short enough,
      otherwise the polygon as it was. */
  function Moved(lib: Library, points: seq<Vec3>, index: int, p: Vec3): seq<Vec3> {
    var candidate := Candidate(points, index, p);
    if Accepts(lib, candidate) then candidate else points
  }

  /** The control polygon after the mouse moves over the plane hits `hits`,
      in order, during one drag of point `index`. */
  function Drag(lib: Library, points: seq<Vec3>, index: int, hits: seq<Vec3>): seq<Vec3>
    decreases |hits|
  {
    if hits == [] then points
    else Moved(lib, Drag(lib, points, index, hits[..|hits| - 1]), index, hits[|hits| - 1])
  }

  /** However many moves a drag makes, only the dragged point changes, the
      polygon keeps its size, and a polygon that differs from the one the
      drag started with has a curve within the length limit. */
  lemma {:induction false} DragWithinLimit(lib: Library, points: seq<Vec3>, index: int, hits: seq<Vec3>)
    ensures |Drag(lib, points, index, hits)| == |points|
    ensures forall j :: 0 <= j < |points| && j != index ==> Drag(lib, points, index, hits)[j] == points[j]
    ensures Drag(lib, points, index, hits) == points || Accepts(lib, Drag(lib, points, index, hits))
    decreases |hits|
  {
    if hits != [] {
      DragWithinLimit(lib, points, index, hits[..|hits| - 1]);
    }
  }

  // ------------------------------------------------------- load loop

  /** How many tooth files, counting up from `i`, load from both folders
      before the first failure. */
  function LoadedFrom(load: (Folder, int) -> Option<Geometry>, i: int): nat
    decreases ToothFiles + 1 - i
  {
    if i > ToothFiles || i < 1 then 0
    else if load(Dissolved, i).None? || load(Original, i).None? then 0
    else 1 + LoadedFrom(load, i + 1)
  }

  /** The number of tooth pairs the load loop keeps. */
  function LoadedCount(load: (Folder, int) -> Option<Geometry>): nat {
    LoadedFrom(load, 1)
  }

  /** The loop keeps at most sixteen pairs, exactly the files before the first
      failed load: every kept file loaded from both folders, and the next one
      (if any) did not. */
  lemma {:induction false} LoadedPrefix(load: (Folder, int) -> Option<Geometry>, i: int)
    requires 1 <= i <= ToothFiles + 1
    ensures LoadedFrom(load, i) <= ToothFiles + 1 - i
    ensures forall k :: i <= k < i + LoadedFrom(load, i) ==> load(Dissolved, k).Some? && load(Original, k).Some?
    ensures i + LoadedFrom(load, i) <= ToothFiles ==>
      load(Dissolved, i + LoadedFrom(load, i)).None? || load(Original, i + LoadedFrom(load, i)).None?
    decreases ToothFiles + 1 - i
  {
    if i <= ToothFiles && load(Dissolved, i).Some? && load(Original, i).Some? {
      LoadedPrefix(load, i + 1);
    }
  }

  // ----------------------------------------------------- the component

  class Editor {
    /** The store the editor drags control points of. */
    const store: SplineManager

    /** `activeIndex`: the control point being dragged. */
    var activeIndex: Option<int>
    /** `activeMeshIndex`: the selected tooth mesh. */
    var activeMeshIndex: Option<int>
    /** `planeRef.current`: the drag plane. */
    var plane: Option<Plane>
    /** `viewManager.cameraState`, by its `enabled` flag; `None` without
        camera controls. */
    var camera: Option<bool>

    var stlGeometries: seq<Geometry>
    var stlGeometriesOriginal: seq<Geometry>
    var isLoading: bool

    /** A drag plane exists exactly while a control point is being dragged,
        and the dragged index is a control point of the store. */
    predicate Valid()
      reads this, store
    {
      && (plane.Some? <==> activeIndex.Some?)
      && (activeIndex.Some? ==> 0 <= activeIndex.value < |store.controlPointsNurbs|)
    }

    /** The component's initial state. */
    constructor(store: SplineManager, camera: Option<bool>)
      ensures Valid() && this.store == store && this.camera == camera
      ensures activeIndex == None && activeMeshIndex == None && plane == None
      ensures stlGeometries == [] && stlGeometriesOriginal == [] && isLoading
    {
      this.store := store;
      this.camera := camera;
      activeIndex := None;
      activeMeshIndex := None;
      plane := None;
      stlGeometries := [];
      stlGeometriesOriginal := [];
      isLoading := true;
    }

    /** `handleMeshClick(index)`. */
    method HandleMeshClick(index: int)
      modifies this`activeMeshIndex
      ensures activeMeshIndex == MeshClick(old(activeMeshIndex), index)
    {
      if Some(index) == activeMeshIndex {
        activeMeshIndex := None;
        return;
      }
      activeMeshIndex := Some(index);
    }

    /** `handleDrag()`: the camera stops following the pointer. */
    method HandleDrag()
      modifies this`camera
      ensures camera == if old(camera).None? then None else Some(false)
    {
      if camera.None? {
        return;
      }
      camera := Some(false);
    }

    /** `handleDragEnd()`: the camera follows the pointer again. */
    method HandleDragEnd()
      modifies this`camera
      ensures camera == if old(camera).None? then None else Some(true)
    {
      if camera.None? {
        return;
      }
      camera := Some(true);
    }

    /** `handlePointerDown(e, index)` on control point `index`, with the
        camera looking along `viewDirection` and the pointer at `point`. */
    method HandlePointerDown(index: int, viewDirection: Vec3, point: Vec3)
      requires Valid() && 0 <= index < |store.controlPointsNurbs|
      modifies this`plane, this`activeIndex, this`activeMeshIndex, this`camera
      ensures Valid()
      ensures old(camera).None? ==> plane == old(plane) && activeIndex == old(activeIndex)
                                    && activeMeshIndex == old(activeMeshIndex) && camera == None
      ensures old(camera).Some? ==> plane == Some(Plane(viewDirection, point)) && activeIndex == Some(index)
                                    && activeMeshIndex == None && camera == Some(false)
    {
      if camera.None? {
        return;
      }
      var p := Plane(viewDirection, point);
      camera := Some(false);
      plane := Some(p);
      activeIndex := Some(index);
      activeMeshIndex := None;
    }

    /** `handlePointerUp()`. */
    method HandlePointerUp()
      requires Valid()
      modifies this`plane, this`activeIndex, this`camera
      ensures Valid()
      ensures old(camera).None? ==> plane == old(plane) && activeIndex == old(activeIndex) && camera == None
      ensures old(camera).Some? ==> plane == None && activeIndex == None && camera == Some(true)
    {
      if camera.None? {
        return;
      }
      plane := None;
      activeIndex := None;
      camera := Some(true);
    }

    /** `handleMouseMove()` with the pointer ray meeting the drag plane at
        `intersect`: without a drag nothing happens; otherwise the dragged
        point moves there exactly when the curve through the moved polygon
        is no longer than the limit. */
    method HandleMouseMove(intersect: Vec3)
      requires Valid()
      modifies store`controlPointsNurbs
      ensures Valid()
      ensures old(plane).None? || old(activeIndex).None? ==> store.controlPointsNurbs == old(store.controlPointsNurbs)
      ensures old(activeIndex).Some? && old(plane).Some? ==>
        var candidate := Candidate(old(store.controlPointsNurbs), activeIndex.value, intersect);
        store.controlPointsNurbs == if Accepts(store.lib, candidate) then candidate else old(store.controlPointsNurbs)
      ensures store.controlPointsNurbs == old(store.controlPointsNurbs) || Accepts(store.lib, store.controlPointsNurbs)
    {
      var index := activeIndex;
      if plane.None? || index.None? {
        return;
      }
      var newPoints := Candidate(store.controlPointsNurbs, index.value, intersect);
      var degree := |newPoints| - 1;
      var knotVector := CalculateKnotVector(degree, newPoints);
      var tempCurve := store.lib.nurbs(degree, knotVector, newPoints);
      var curveLength := tempCurve.length;
      if curveLength > CurveLengthConstraint {
        return;
      }
      store.UpdateNurbControlPoints(intersect, index.value);
    }

    /** `loadSTLGeometries()`, with `load(folder, i)` the outcome of loading
        tooth file `i` from `folder` (`None` when it throws). */
    method LoadGeometries(load: (Folder, int) -> Option<Geometry>)
      modifies this`stlGeometries, this`stlGeometriesOriginal, this`isLoading
      ensures |stlGeometries| == |stlGeometriesOriginal| == LoadedCount(load) <= ToothFiles
      ensures forall k :: 0 <= k < LoadedCount(load) ==>
        && Some(stlGeometries[k]) == load(Dissolved, k + 1)
        && Some(stlGeometriesOriginal[k]) == load(Original, k + 1)
      ensures !isLoading
    {
      isLoading := true;
      var geometries, geometriesOriginal := LoadPairs(load);
      stlGeometries := geometries;
      stlGeometriesOriginal := geometriesOriginal;
      isLoading := false;
    }
  }

  /** The loop of `loadSTLGeometries`: files 1 to 16, each loaded from the
      dissolved folder and then the original one, both pushed only once both
      loads succeeded, and the loop left at the first failure. */
  method LoadPairs(load: (Folder, int) -> Option<Geometry>)
    returns (geometries: seq<Geometry>, geometriesOriginal: seq<Geometry>)
    ensures |geometries| == |geometriesOriginal| == LoadedCount(load) <= ToothFiles
    ensures forall k :: 0 <= k < LoadedCount(load) ==>
      && Some(geometries[k]) == load(Dissolved, k + 1)
      && Some(geometriesOriginal[k]) == load(Original, k + 1)
  {
    geometries := [];
    geometriesOriginal := [];
    var i := 1;
    while i <= ToothFiles
      invariant 1 <= i <= ToothFiles + 1
      invariant |geometries| == |geometriesOriginal| == i - 1
      invariant LoadedCount(load) == i - 1 + LoadedFrom(load, i)
      invariant forall k :: 0 <= k < i - 1 ==>
        Some(geometries[k]) == load(Dissolved, k + 1) && Some(geometriesOriginal[k]) == load(Original, k + 1)
    {
      var geometry := load(Dissolved, i);
      if geometry.None? {
        break;
      }
      var geometryOriginal := load(Original, i);
      if geometryOriginal.None? {
        break;
      }
      geometries := geometries + [geometry.value];
      geometriesOriginal := geometriesOriginal + [geometryOriginal.value];
      i := i + 1;
    }
  }
}
