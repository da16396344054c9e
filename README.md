# Chain-Mode-NURBS core, modelled in Dafny

Chain-Mode-NURBS is a browser editor for a dental arch. The arch is a NURBS
curve, and the user drags its control points on a plane facing the camera.
Sixteen spheres ("slots") are laid out along the curve. Each slot measures
where the curve passes through the tooth mesh attached to it and keeps the
parameter distance (`deltaT`) between the first two crossings. The slots
are then spread out from the middle of the arch so that neighbours sit
half of their two widths apart. Tooth meshes are turned into convex
polyhedra for the physics engine.

This project models the logic of that core:

- `SplineManager`, the store (`splines.dfy`):
  - control points;
  - building the degree `n - 1` curve and rebuilding it at degree 4;
  - the 501 display points and their coordinate buffer;
  - the middle parameter rescaled by the length ratio;
  - the three slot arrangements (evenly spaced, then swept left and right
    from the middle);
  - the rotation a slot gets from the Frenet frame nearest to it.
- `SphereGeo`, a slot (`spheres.dfy`), with the three intersection scans:
  - the segment-by-segment ray scan, de-duplicated by a rounded key and
    stopped at a cap (`keyed_scan.dfy`);
  - a retry at higher resolution;
  - the arc-length delta, which relies on the closest-parameter search
    (`search.dfy`).
- `Utils` (`utils.dfy`): the clamped uniform knot vector, the perpendicular
  vector and the offset curve.
- `NurbsManipulation` (`manipulation.dfy`): the editor's event handlers,
  with the curve-length constraint on a drag and the tooth loading loop.
- `CannonUtils.toConvexPolyhedronProps` (`cannon.dfy`):
  - welding vertices by a key rounded to hundredths;
  - remapping triangles to the welded points;
  - dropping the triangles that collapsed.

Shared pieces:

- Vectors are exact reals (`vectors.dfy`).
- A curve is a value whose evaluation functions come from the curve library
  (`curves.dfy`). Nothing is assumed about how a NURBS curve is evaluated.
- A mesh's ray cast is a function from a segment to its hits.

Classes whose fields the source updates in place are classes here:

- `SplineManager`, with `modifies` frames;
- `SphereGeo`;
- the editor component (`Editor`).

Loops in the source are `while` loops with invariants, proved against
specification functions:

- `Dedup`/`Collect` for the scans;
- `Scan` for the nearest-parameter search;
- `KnotVector` for the knots;
- `Survivors`, `RemapAll` and `Welding` for the polyhedron.

## Model

| member | source | states |
|---|---|---|
| Curves.Points | src/state/SplineManager.ts:330 | `getPoints(d)` gives `d + 1` points, from the curve's start to its end |
| Curves.SpacedPoints | src/state/SphereGeo.ts:79 | `getSpacedPoints(d)` gives `d + 1` points, from the start to the end by arc length |
| Curves.DropRepeats | src/state/SphereGeo.ts:172 | the path's point collection never grows the list, and keeps its first and last point |
| Curves.PathPoints | src/state/SphereGeo.ts:172 | a `CurvePath`'s `getPoints(d)` gives between 1 and `d + 1` points, from the curve's start to its end |
| Curves.DropRepeatsFacts | src/state/SphereGeo.ts:172 | no two neighbours of the collected points are equal, every collected point is a sample, and samples without equal neighbours are all kept |
| Utils.Repeat | src/utils/Utils.ts:81 | `d + 1` pushes of the same knot give that many copies of it |
| Utils.Interior | src/utils/Utils.ts:82-85 | one interior knot per interior slot |
| Utils.CalculateKnotVector | src/utils/Utils.ts:75-89 | the loop builds exactly the clamped uniform knot vector `KnotVector(degree, n)` |
| Utils.KnotVectorLength | src/utils/Utils.ts:76-86 | the knot vector has `n + degree + 1` entries when `degree + 1 <= n`, and only the two clamped runs otherwise |
| Utils.KnotVectorClamped | src/utils/Utils.ts:81-86 | the first `degree + 1` knots are 0, the last `degree + 1` are 1, and every interior knot lies strictly inside (0, 1) |
| Utils.KnotVectorSorted | src/utils/Utils.ts:81-86 | the knot vector is non-decreasing, and the interior knots strictly increase |
| Utils.KnotVectorSymmetric | src/utils/Utils.ts:81-86 | knot `j` and knot `m - 1 - j` add up to 1 |
| Utils.KnotVectorBezier | src/utils/Utils.ts:75-89 | with `degree = n - 1` (as in `buildNurbsCurve`) there are no interior knots: `n` zeros then `n` ones |
| Utils.InteriorIncreasing | src/utils/Utils.ts:83-85 | `i / (k + 1)` grows with `i` |
| Utils.InteriorMirror | src/utils/Utils.ts:83-85 | interior knots mirror around 1/2 |
| Utils.PerpendicularVector | src/utils/Utils.ts:44-51 | the result is `up × v`, and it is orthogonal to both `v` and `up` |
| Utils.OffsetKeepsHeight | src/utils/Utils.ts:14-23 | with up `(0, -1, 0)`, moving a point along the perpendicular keeps its height |
| Utils.OffsetCurve | src/utils/Utils.ts:9-40 | one offset point per input point: each point is moved along the perpendicular of the segment leaving it, the last along the last segment's, and every height is kept |
| Vectors.RoundBounds | src/state/SphereGeo.ts:91 | `Math.round(x)` lies within one half of `x` |
| Vectors.CrossOrthogonal | src/utils/Utils.ts:49 | a cross product is orthogonal to both of its factors |
| Vectors.DistSqFacts | src/state/SphereGeo.ts:313 | the squared distance is never negative and is zero from a point to itself |
| KeyedScan.CheckAndAddPoint | src/state/SphereGeo.ts:90-99 | the point is added exactly when its key is unseen; the kept points and the seen keys extend the de-duplicated stream by that point |
| KeyedScan.AddHits | src/state/SphereGeo.ts:122-127 | the inner loop over one segment's hits extends the scan state by those hits, leaving when the cap is reached |
| KeyedScan.ScanSegments | src/state/SphereGeo.ts:104-128 | the segment loop keeps exactly `ScanResult`: the first hit of each key, in scan order, at most `cap` of them, with distinct keys |
| KeyedScan.CollectIsTruncatedDedup | src/state/SphereGeo.ts:90-128 | the capped scan is the uncapped first-of-each-key list cut to `cap` points |
| KeyedScan.DedupDistinct | src/state/SphereGeo.ts:93-96 | the seen-set filter keeps points with pairwise different keys |
| KeyedScan.DedupFromHits | src/state/SphereGeo.ts:95 | every kept point is a hit |
| KeyedScan.DedupCoversKeys | src/state/SphereGeo.ts:90-99 | every hit's key is the key of some kept point |
| KeyedScan.CollectDistinct | src/state/SphereGeo.ts:90-128 | the capped scan keeps pairwise distinct keys |
| KeyedScan.CollectFromHits | src/state/SphereGeo.ts:90-128 | the capped scan keeps only hits |
| KeyedScan.CollectCoversKeys | src/state/SphereGeo.ts:90-128 | a scan that stopped below the cap has seen every key of the stream |
| KeyedScan.ScanResultFacts | src/state/SphereGeo.ts:104-128 | one scan keeps at most `cap` hits of the sampled segments, with distinct keys, and covers every key when below the cap |
| KeyedScan.ScanStopsAtCap | src/state/SphereGeo.ts:106 | once the cap is reached, the later segments change nothing |
| KeyedScan.KeysOfAppend | src/state/SphereGeo.ts:93-94 | appending a point adds its key to the seen set |
| KeyedScan.CollectStep | src/state/SphereGeo.ts:122-127 | one more hit extends the capped scan as `checkAndAddPoint` does |
| KeyedScan.HitsBeforeNext | src/state/SphereGeo.ts:109-120 | the hits of `i + 1` segments are those of `i` segments followed by segment `i`'s ray-cast hits |
| KeyedScan.SaturatedAfter | src/state/SphereGeo.ts:125 | leaving the inner loop at the cap skips only hits that would not be kept |
| KeyedScan.ScanEnds | src/state/SphereGeo.ts:104-108 | the loop ends either after every segment or at the cap, and in both cases holds `ScanResult` |
| Search.Grid | src/state/SphereGeo.ts:309-311 | the coarse pass samples `divisions + 1` parameters |
| Search.Fine | src/state/SphereGeo.ts:325-327 | the fine pass samples 101 parameters |
| Search.ScanGrid | src/state/SphereGeo.ts:303-317 | the coarse loop returns the best grid sample and its distance, starting from an infinite minimum |
| Search.GridInUnit | src/state/SphereGeo.ts:310 | every coarse sample lies in [0, 1] |
| Search.FineInWindow | src/state/SphereGeo.ts:320-327 | every fine sample lies inside the clamped window |
| Search.DistNonNegative | src/state/SphereGeo.ts:313 | a sample's distance to the point is never negative |
| Search.SearchRangePositive | src/state/SphereGeo.ts:320 | the fine window has a positive half-width |
| Search.ScanExtend | src/state/SphereGeo.ts:309-317 | the best-so-far after `i + 1` samples is one more strict comparison on the best after `i` |
| Search.ScanFindsFirstMin | src/state/SphereGeo.ts:309-317 | the strict `<` keeps the first sample of least distance |
| Search.ScanBelow | src/state/SphereGeo.ts:309-317 | the kept distance is at most the starting one and at most every sample's |
| Search.ScanOrigin | src/state/SphereGeo.ts:309-317 | the kept parameter is the starting one or one of the samples, and its distance is that sample's |
| Search.ScanKeeps | src/state/SphereGeo.ts:325-334 | a fine pass with no strictly closer sample keeps the coarse result |
| Search.CoarseIsFirstMin | src/state/SphereGeo.ts:303-317 | the coarse result is the first grid sample of least distance |
| Search.ClosestTInWindow | src/state/SphereGeo.ts:297-337 | the returned parameter lies in [0, 1], within the search range of the coarse one |
| Search.ClosestTIsBest | src/state/SphereGeo.ts:297-337 | the returned parameter is at least as close as every coarse and every fine sample |
| Search.CoarseExactHit | src/state/SphereGeo.ts:309-317 | a grid sample at distance 0 with no earlier one is the coarse result |
| Search.ClosestTExactHit | src/state/SphereGeo.ts:297-337 | such a sample is the returned parameter: the fine pass cannot beat distance 0 |
| Search.ClosestTOfStart | src/state/SphereGeo.ts:297-337 | the curve's start point maps back to parameter 0 |
| Spheres.Samples | src/state/SphereGeo.ts:79 | `intersect` samples `divisions + 1` spaced points and `intersectOnNurbs` `divisions + 1` plain points; `intersectOnCatenary` samples the path's points without repeats, at least one and at most `divisions + 1` |
| Spheres.Completed | src/state/SphereGeo.ts:281-287 | a lone hit is completed with the curve's start (slot 0) or end (slot 15), giving at least two points |
| Spheres.DetectIntersections | src/state/SphereGeo.ts:76-162 | the scan and its retry return `Detection`: at most `cap` points with distinct rounded keys |
| Spheres.DetectionRetry | src/state/SphereGeo.ts:131-162 | the retry at 1000 points runs exactly when the 200-point scan found fewer than two points, and replaces its result |
| Spheres.DeltaUnchanged | src/state/SphereGeo.ts:276-280 | `deltaT` is left alone exactly without hits, or with one hit on a slot other than the first or last |
| Spheres.ArcDeltaFirstTwo | src/state/SphereGeo.ts:289-292 | only the first two hits matter: the delta is the difference of their closest parameters |
| Spheres.ArcDeltaBounded | src/state/SphereGeo.ts:289-292 | a new `deltaT` lies in [-1, 1] |
| Spheres.SlotZeroDelta | src/state/SphereGeo.ts:281-283 | on slot 0 a lone hit gives the delta `-t(hit)`, never positive, since the start is pushed after the hit |
| Spheres.LastSlotDelta | src/state/SphereGeo.ts:284-287 | on slot 15 a lone hit gives `t(hit) - t(end)` |
| Spheres.SphereGeo.constructor | src/state/SphereGeo.ts:13-37 | a new slot has its radius, position and number, no tangent, no mesh, `deltaT` 0 and no rotation |
| Spheres.SphereGeo.SetPosition | src/state/SphereGeo.ts:49-51 | sets the position only |
| Spheres.SphereGeo.SetTangent | src/state/SphereGeo.ts:52-54 | sets the tangent only |
| Spheres.SphereGeo.SetRotation | src/state/SphereGeo.ts:70-72 | sets the rotation only |
| Spheres.SphereGeo.SetMeshRef | src/state/SphereGeo.ts:266-268 | sets the mesh reference only |
| Spheres.SphereGeo.GetClosestTOnCurve | src/state/SphereGeo.ts:297-337 | returns `ClosestT`, the coarse-then-fine nearest parameter, which lies in [0, 1] |
| Spheres.SphereGeo.GetIntersectionArcLengths | src/state/SphereGeo.ts:272-293 | `deltaT` becomes `ArcDelta` of the hits, or stays as it was when that is undefined |
| Spheres.SphereGeo.IntersectWith | src/state/SphereGeo.ts:73-165 | the shared body of the three scans: no change without a mesh, otherwise the arc delta of the detected hits |
| Spheres.SphereGeo.Intersect | src/state/SphereGeo.ts:73-165 | `intersect`: spaced samples, key tolerance 1e-9, cap 4 |
| Spheres.SphereGeo.IntersectOnCatenary | src/state/SphereGeo.ts:166-258 | `intersectOnCatenary`: plain samples, key tolerance 1e-5, cap 4 |
| Spheres.SphereGeo.IntersectOnNurbs | src/state/SphereGeo.ts:347-440 | `intersectOnNurbs`: plain samples, key tolerance 1e-5, cap 2 |
| Splines.Deltas | src/state/SplineManager.ts:363-372 | the measured `deltaT` of each slot, in order |
| Splines.ReplaceAt | src/state/SplineManager.ts:354-358 | assigning index `i` changes that entry only |
| Splines.Flatten | src/state/SplineManager.ts:331-334 | three coordinates per point |
| Splines.FlattenTriples | src/state/SplineManager.ts:331-334 | entries `3i`, `3i+1` and `3i+2` are point `i`'s x, y and z |
| Splines.FillPositions | src/state/SplineManager.ts:331-334 | the fresh buffer holds exactly the flattened points |
| Splines.MidU | src/state/SplineManager.ts:543-546 | the rescaled middle stays positive, is 1/2 at equal lengths, and moves below or above 1/2 as the curve grows or shrinks |
| Splines.CreateSlots | src/state/SplineManager.ts:406-410 | sixteen fresh, distinct slots, slot `i` numbered `i` at parameter `i / 15`, with default state |
| Splines.ArrangedSpacing | src/state/SplineManager.ts:374-402 | neighbouring slots are half their two deltas apart, and the two middle slots straddle `midU` |
| Splines.ArrangedOrdered | src/state/SplineManager.ts:374-402 | with non-negative deltas the slots are in parameter order (strictly, with positive deltas) |
| Splines.MirrorSums | src/state/SplineManager.ts:374-402 | with mirrored deltas the left and right partial sums agree |
| Splines.ArrangedMirror | src/state/SplineManager.ts:374-402 | with mirrored deltas the layout is symmetric around `midU` |
| Splines.EqualDeltasMirror | src/state/SplineManager.ts:374-402 | equal deltas give a layout symmetric around `midU` |
| Splines.FrameIndexInRange | src/state/SplineManager.ts:480-490 | a parameter in [0, 1] gives a frame index in [0, 200], so the index guard never fires |
| Splines.RotationAtFirstMin | src/state/SplineManager.ts:418-523 | with well-formed frames the rotation is that of the frame at the first nearest grid parameter, or none when decomposition fails |
| Splines.FrameBasisOrthogonal | src/state/SplineManager.ts:492-511 | the basis' third column is orthogonal to the other two |
| Splines.SplineManager.constructor | src/state/SplineManager.ts:106-123 | the initial control, static and catenary points, a degree-5 curve built from them, its display points and buffer, and sixteen slots on it |
| Splines.SplineManager.UpdateNurbControlPoints | src/state/SplineManager.ts:354-358 | replaces control point `index` and nothing else |
| Splines.SplineManager.SetStaticCurvePoints | src/state/SplineManager.ts:137-141 | replaces static point `index` and nothing else |
| Splines.SplineManager.UpdateCatenaryControlPoints | src/state/SplineManager.ts:142-146 | replaces catenary point `index` and nothing else |
| Splines.SplineManager.SetNurbSphereInstance | src/state/SplineManager.ts:404-413 | without a NURBS curve nothing changes; otherwise sixteen fresh slots on it |
| Splines.SplineManager.SetSphereInstance | src/state/SplineManager.ts:157-166 | without a curve nothing changes; otherwise sixteen fresh slots on it |
| Splines.SplineManager.SetSphereInstanceC | src/state/SplineManager.ts:167-176 | sixteen fresh slots on the catenary path |
| Splines.SplineManager.GetNurbsCurveRotationForPosition | src/state/SplineManager.ts:418-523 | returns `Rotation`: no rotation whenever a guard fails, else the Euler angles of the nearest frame's basis |
| Splines.SplineManager.PlaceSlot | src/state/SplineManager.ts:379-401 | sets the position, the rotation on a NURBS sweep, and the tangent when given |
| Splines.SplineManager.PlaceAndMeasure | src/state/SplineManager.ts:363-372 | places a slot evenly and runs its intersection scan |
| Splines.SplineManager.PlaceEvenly | src/state/SplineManager.ts:363-372 | slot `j` goes to parameter `j / 15` and is measured there |
| Splines.SplineManager.SweepLeft | src/state/SplineManager.ts:374-386 | slots 7 down to 0 go to `ArrangedT` of the measured deltas; the right half is untouched |
| Splines.SplineManager.SweepRight | src/state/SplineManager.ts:388-402 | slots 8 to 15 go to `ArrangedT` and get the tangent there; the left half is untouched |
| Splines.SplineManager.Arrange | src/state/SplineManager.ts:363-402 | the whole sweep: every slot measured, then placed at `ArrangedT` of the measured deltas |
| Splines.SplineManager.ArrangeSphereOnNurbs | src/state/SplineManager.ts:359-403 | nothing without a NURBS curve or slots; otherwise the sweep around `curveMidU`, orienting every slot |
| Splines.SplineManager.ArrangeSphere | src/state/SplineManager.ts:189-218 | nothing without a curve or slots; otherwise the sweep around 1/2 |
| Splines.SplineManager.ArrangeSphereOnCatenary | src/state/SplineManager.ts:287-316 | nothing without slots; otherwise the sweep on the catenary path around 1/2 |
| Splines.SplineManager.ShowCurve | src/state/SplineManager.ts:330-340 | stores the curve, its 501 display points and their buffer, then runs the sweep |
| Splines.SplineManager.BuildNurbsCurve | src/state/SplineManager.ts:321-341 | a degree `n - 1` curve with the computed knots becomes both the original and the current curve, then is shown and swept |
| Splines.SplineManager.UpdateNurbs | src/state/SplineManager.ts:538-558 | nothing without an original curve; otherwise a degree-4 curve, `curveMidU` rescaled by the length ratio, then shown and swept |
| Manipulation.Candidate | src/components/Viewer3D/NurbsManipulation.tsx:152-155 | the control points with the active one replaced by the hit point |
| Manipulation.MeshClick | src/components/Viewer3D/NurbsManipulation.tsx:99-105 | clicking the active mesh deselects it; clicking any other selects it |
| Manipulation.MeshClickTwice | src/components/Viewer3D/NurbsManipulation.tsx:99-105 | two clicks on the same mesh restore its selection state |
| Manipulation.DragWithinLimit | src/components/Viewer3D/NurbsManipulation.tsx:144-171 | over any number of mouse moves in one drag, only the dragged point changes, the polygon keeps its size, and any polygon other than the starting one has a curve at most 100 long |
| Manipulation.LoadedPrefix | src/components/Viewer3D/NurbsManipulation.tsx:64-79 | the loop keeps the tooth files before the first failure, each loaded from both folders |
| Manipulation.LoadPairs | src/components/Viewer3D/NurbsManipulation.tsx:64-79 | the loop's output is the first `LoadedCount` pairs, in file order |
| Manipulation.Editor.constructor | src/components/Viewer3D/NurbsManipulation.tsx:39-55 | nothing active, no plane, no geometries, loading |
| Manipulation.Editor.HandleMeshClick | src/components/Viewer3D/NurbsManipulation.tsx:99-105 | toggles the active mesh |
| Manipulation.Editor.HandleDrag | src/components/Viewer3D/NurbsManipulation.tsx:108-111 | disables the camera controls when present |
| Manipulation.Editor.HandleDragEnd | src/components/Viewer3D/NurbsManipulation.tsx:112-115 | re-enables the camera controls when present |
| Manipulation.Editor.HandlePointerDown | src/components/Viewer3D/NurbsManipulation.tsx:118-128 | with camera controls, disables the controls, makes the point active, sets the drag plane facing the camera through it, and deselects the mesh |
| Manipulation.Editor.HandlePointerUp | src/components/Viewer3D/NurbsManipulation.tsx:129-134 | with camera controls, clears the active point and plane and re-enables the controls |
| Manipulation.Editor.HandleMouseMove | src/components/Viewer3D/NurbsManipulation.tsx:144-171 | without a plane or active point nothing changes; otherwise the move is committed exactly when the candidate curve is at most 100 long, so a changed polygon always respects the limit |
| Manipulation.Editor.LoadGeometries | src/components/Viewer3D/NurbsManipulation.tsx:56-91 | stores the loaded pairs and clears the loading flag |
| Cannon.InitialFaces | src/utils/CannonUtils.ts:29-45 | one triangle per three vertex indices, the last one padded with missing indices |
| Cannon.BuildFaces | src/utils/CannonUtils.ts:29-45 | the face loop builds exactly `InitialFaces` |
| Cannon.WeldVertices | src/utils/CannonUtils.ts:47-65 | the welded points are the first vertex of each key; `changes` maps every vertex to the welded point of its key |
| Cannon.NewPoint | src/utils/CannonUtils.ts:58-61 | a vertex with a new key is appended and becomes its own target |
| Cannon.RepeatedPoint | src/utils/CannonUtils.ts:62-63 | a vertex with a seen key maps where its key's first vertex maps |
| Cannon.Welding | src/utils/CannonUtils.ts:47-65 | the vertex-to-point map the weld loop builds |
| Cannon.WeldStep | src/utils/CannonUtils.ts:50-61 | one more vertex extends the welded points as the loop does |
| Cannon.WeldingExists | src/utils/CannonUtils.ts:50-61 | every vertex's key has a welded point |
| Cannon.WeldingUnique | src/utils/CannonUtils.ts:47-65 | the map is determined by the vertices: any welding map equals `Welding` |
| Cannon.WeldedPoints | src/utils/CannonUtils.ts:47-65 | the welded points have distinct keys, cover every vertex key, are vertices, and are no more numerous |
| Cannon.HasRepeat | src/utils/CannonUtils.ts:73-79 | the face loop finds a repeated index exactly when the triangle is degenerate |
| Cannon.RemapAll | src/utils/CannonUtils.ts:67-72 | one remapped face per face |
| Cannon.RemapFaces | src/utils/CannonUtils.ts:67-80 | every face remapped through `changes`, with the increasing list of degenerate face ids |
| Cannon.Survivors | src/utils/CannonUtils.ts:82-85 | dropping degenerate faces never adds any |
| Cannon.RemoveFaces | src/utils/CannonUtils.ts:82-85 | the reverse splice removes exactly the degenerate faces, keeping order |
| Cannon.SurvivorsFrom | src/utils/CannonUtils.ts:82-85 | every surviving face is non-degenerate and keeps its bound |
| Cannon.SurvivorsAppend | src/utils/CannonUtils.ts:82-85 | filtering distributes over concatenation |
| Cannon.SurvivorsClean | src/utils/CannonUtils.ts:82-85 | a list without degenerate faces is kept whole |
| Cannon.RemovalStart | src/utils/CannonUtils.ts:82 | before the splice, the faces above the last id are clean |
| Cannon.CleanBetween | src/utils/CannonUtils.ts:73-80 | faces between two consecutive ids are non-degenerate |
| Cannon.RemovalStep | src/utils/CannonUtils.ts:83-84 | one splice keeps the loop's invariant |
| Cannon.SpliceFiltered | src/utils/CannonUtils.ts:84 | removing a degenerate face in front of filtered faces filters one more |
| Cannon.SkipDegenerate | src/utils/CannonUtils.ts:84 | a degenerate face between clean faces and a tail drops out |
| Cannon.ToConvexPolyhedronProps | src/utils/CannonUtils.ts:21-92 | the welded points and the surviving remapped faces, no more numerous than the vertices and the triangles |
| Cannon.ProperSoupFaces | src/utils/CannonUtils.ts:21-92 | for a whole triangle soup, every output face has three distinct indices into the output points |

## Left out

- NURBS evaluation (`getPoint`, `getPointAt`, `getTangentAt`, `getLength`, `computeFrenetFrames`) belongs to the curve library. Curves are values carrying these functions, and a NURBS curve is `lib.nurbs(degree, knots, points)`. Nothing is assumed about them except that a length is positive.
- Ray casting is done by the mesh library. A mesh is its `raycast` function from a segment to the list of hits.
- `normalize`, the matrix basis, its decomposition into a quaternion and the Euler extraction, with their NaN check, are library functions (`lib.normalize`, `lib.eulerOf`). A failed or NaN decomposition is `None`.
- Spheres.SphereGeo.GetClosestTOnCurve: the `try`/`catch` around `getPointAt` is not modelled. The model's `getPointAt` is total.
- Splines.SplineManager.GetNurbsCurveRotationForPosition: the `try`/`catch` `continue` in the rotation scan is not modelled, for the same reason.
- Floating-point arithmetic: all arithmetic is on exact reals. The rounding of the display buffer to 32-bit floats is not modelled.
- Splines.MidU: a curve of length zero is not modelled. Lengths are positive, so the division by the new length is always defined.
- Manipulation.Editor.HandleMouseMove: the plane hit point `intersect` is a parameter, and the `!intersect` guard (NurbsManipulation.tsx 149) is not modelled because it is dead in the source. `castRayOnPlane` always returns its target vector, which is truthy. When the ray misses the plane, that target stays at (0, 0, 0), so the move proposes the origin. It is committed whenever that curve is within the limit. The parameter ranges over every point, the origin included, so this case is covered.
- The throttle around mouse moves, React rendering, and the effect that rebuilds the curve on every control-point change (NurbsManipulation.tsx 93-97) are scheduling and are left out.
- `setCurve`, the catenary builders (`buildCatenary`, `updateCatenary`, `addCatmulLine`) and CatenaryUtils are not part of this model. The store starts with an empty `CurvePath` (SplineManager.ts 61); the model takes the built catenary path, a curve of positive length, as a value given to the store.
- `setOriginalCurve` and `setCurveMidU` are plain field assignments, written inline where they are called.
- The physics world, the UI, the `Spline3D` component, `offsetCenterOfMass` and `toTrimeshProps` are not part of this model.
- Cannon.ToConvexPolyhedronProps: vertex normals are not computed. The final conversion of points and faces to arrays for the physics engine is implicit.
- The weld key is a triple of integers, not the joined string. Two vertices share a key exactly when the three rounded coordinates agree, as for the string.
- Cannon.ToConvexPolyhedronProps: the position attribute is taken as a sequence of points, not a flat float array.
- Splines.SplineManager.UpdateNurbControlPoints, Splines.SplineManager.SetStaticCurvePoints, Splines.SplineManager.UpdateCatenaryControlPoints: these require an index inside the array. JavaScript would instead grow the array and leave holes.
- Manipulation.Editor.LoadGeometries: loading an STL file is a parameter `load(folder, i)`, with `None` for a load that throws. Waiting on the promises is not modelled.
- Spheres.Samples: the catenary path holds one `CatmullRomCurve3` (SplineManager.ts 263-265 and 280-282). For it, `c.point` stands for that curve's own `getPoint`, which is what `CurvePath.getPoints` samples, while `c.pointAt` is the path's `getPointAt`. Paths of several curves and the `autoClose` flag are not modelled.
- Utils.OffsetCurve: requires at least two points. On fewer, `getOffsetCurve` reads a missing `points[length - 2]` and throws a TypeError, and no caller passes such input. The default `offset = 10` is not modelled; the offset is always passed explicitly.
