/** `CannonUtils.toConvexPolyhedronProps`: a non-indexed triangle soup turned
    into the point list and faces of a convex polyhedron. Vertices whose
    coordinates agree to two decimals are welded into one point, faces are
    renumbered onto the welded points, and faces that lose a corner to the
    weld are dropped. */
module Cannon {
  import opened Vectors
  import opened Options
  import opened KeyedScan

  /** The weld key `round(x * 100)_round(y * 100)_round(z * 100)`; the
      string's three integers are kept as they are, since no integer's
      decimal text contains the `_` that separates them. */
  datatype VertexKey = VertexKey(x: int, y: int, z: int)

  function KeyOf(v: Vec3): VertexKey {
    VertexKey(Round(v.x * 100.0), Round(v.y * 100.0), Round(v.z * 100.0))
  }

  /** A face corner: a vertex or point number, `None` for `undefined`. */
  type Index = Option<int>

  /** A face `{a, b, c}`; its vertex normals are gathered by the source but
      never returned, and are not part of the model. */
  datatype Face = Face(a: Index, b: Index, c: Index)

  // --------------------------------------------------------- specification

  /** The faces of the second loop: `(i, i + 1, i + 2)` for `i = 0, 3, 6, ...`
      below `count`. */
  function InitialFaces(count: nat): (r: seq<Face>)
    ensures |r| == (count + 2) / 3
  {
    seq((count + 2) / 3, k => Face(Some(3 * k), Some(3 * k + 1), Some(3 * k + 2)))
  }

  /** `changes[k]`: the welded number of vertex `k`, `undefined` past the end. */
  function Lookup(changes: seq<nat>, k: Index): Index {
    if k.Some? && 0 <= k.value < |changes| then Some(changes[k.value]) else None
  }

  /** `face.a = changes[face.a]` and likewise for `b` and `c`. */
  function Remap(f: Face, changes: seq<nat>): Face {
    Face(Lookup(changes, f.a), Lookup(changes, f.b), Lookup(changes, f.c))
  }

  /** Two corners of the face coincide (`undefined === undefined` included). */
  predicate Degenerate(f: Face) {
    f.a == f.b || f.b == f.c || f.c == f.a
  }

  /** The faces that are not degenerate, in their original order. */
  function Survivors(fs: seq<Face>): (r: seq<Face>)
    ensures |r| <= |fs|
    decreases |fs|
  {
    if fs == [] then []
    else
      var f := fs[|fs| - 1];
      Survivors(fs[..|fs| - 1]) + (if Degenerate(f) then [] else [f])
  }

  /** `ids` lists, in increasing order, the positions below `bound` of the
      degenerate faces of `fs`. */
  predicate DegenerateIdsBelow(ids: seq<nat>, fs: seq<Face>, bound: int)
    requires 0 <= bound <= |fs|
  {
    && (forall s, t :: 0 <= s < t < |ids| ==> ids[s] < ids[t])
    && (forall t :: 0 <= t < |ids| ==> ids[t] < bound)
    && (forall k :: 0 <= k < bound ==> (Degenerate(fs[k]) <==> k in ids))
  }

  /** `changes` maps each vertex to the welded point with its key. */
  predicate WeldMap(changes: seq<nat>, vertices: seq<Vec3>, points: seq<Vec3>, weldKey: Vec3 -> VertexKey) {
    && |changes| == |vertices|
    && forall i :: 0 <= i < |vertices| ==> changes[i] < |points| && weldKey(points[changes[i]]) == weldKey(vertices[i])
  }

  // --------------------------------------------------------------- methods

  /** The second loop: one face per vertex triple. */
  method BuildFaces(count: nat) returns (faces: seq<Face>)
    ensures faces == InitialFaces(count)
  {
    faces := [];
    var i := 0;
    while i < count
      invariant i % 3 == 0 && 0 <= i <= count + 2
      invariant faces == InitialFaces(count)[..i / 3]
    {
      var face := Face(Some(i), Some(i + 1), Some(i + 2));
      faces := faces + [face];
      i := i + 3;
    }
    assert i / 3 == (count + 2) / 3;
  }

  /** The third loop: the first vertex with each key becomes a point, and
      every vertex is numbered by the point of its key. */
  method WeldVertices(vertices: seq<Vec3>, weldKey: Vec3 -> VertexKey) returns (points: seq<Vec3>, changes: seq<nat>)
    ensures points == Dedup(vertices, weldKey)
    ensures WeldMap(changes, vertices, points, weldKey)
  {
    var verticesMap: map<VertexKey, nat> := map[];
    points := [];
    changes := [];
    var i := 0;
    while i < |vertices|
      invariant 0 <= i <= |vertices|
      invariant WeldState(vertices, i, points, changes, verticesMap, weldKey)
    {
      var v := vertices[i];
      var key := weldKey(v);
      if key !in verticesMap {
        NewPoint(vertices, i, points, changes, verticesMap, weldKey);
        verticesMap := verticesMap[key := i];
        points := points + [v];
        changes := changes + [|points| - 1];
      } else {
        RepeatedPoint(vertices, i, points, changes, verticesMap, weldKey);
        changes := changes + [changes[verticesMap[key]]];
      }
      i := i + 1;
    }
    assert vertices[..i] == vertices;
  }

  /** What the weld loop keeps after `i` vertices: the points are the welded
      prefix, the first `i` vertices are numbered, and `verticesMap` sends
      each point's key to the first vertex with it. */
  predicate WeldState(vertices: seq<Vec3>, i: nat, points: seq<Vec3>, changes: seq<nat>, verticesMap: map<VertexKey, nat>, weldKey: Vec3 -> VertexKey)
    requires i <= |vertices|
  {
    && points == Dedup(vertices[..i], weldKey)
    && WeldedBelow(changes, vertices, points, i, weldKey)
    && verticesMap.Keys == Keys(points, weldKey)
    && forall k :: k in verticesMap ==> verticesMap[k] < i && weldKey(vertices[verticesMap[k]]) == k
  }

  /** The first `i` vertices are numbered by points with their keys. */
  predicate WeldedBelow(changes: seq<nat>, vertices: seq<Vec3>, points: seq<Vec3>, i: nat, weldKey: Vec3 -> VertexKey)
    requires i <= |vertices|
  {
    && |changes| == i
    && forall j :: 0 <= j < i ==> changes[j] < |points| && weldKey(points[changes[j]]) == weldKey(vertices[j])
  }

  /** A vertex with a new key becomes a point and is numbered by it. */
  lemma NewPoint(vertices: seq<Vec3>, i: nat, points: seq<Vec3>, changes: seq<nat>, verticesMap: map<VertexKey, nat>, weldKey: Vec3 -> VertexKey)
    requires i < |vertices| && WeldState(vertices, i, points, changes, verticesMap, weldKey)
    requires weldKey(vertices[i]) !in verticesMap
    ensures WeldState(vertices, i + 1, points + [vertices[i]], changes + [|points|], verticesMap[weldKey(vertices[i]) := i], weldKey)
  {
    var v := vertices[i];
    var grown := points + [v];
    WeldStep(vertices, i, weldKey);
    KeysOfAppend(points, v, weldKey);
    forall j | 0 <= j < i + 1
      ensures (changes + [|points|])[j] < |grown| && weldKey(grown[(changes + [|points|])[j]]) == weldKey(vertices[j])
    {
      if j < i {
        assert grown[changes[j]] == points[changes[j]];
      }
    }
  }

  /** A vertex with an already welded key is numbered as the first vertex
      with that key is. */
  lemma RepeatedPoint(vertices: seq<Vec3>, i: nat, points: seq<Vec3>, changes: seq<nat>, verticesMap: map<VertexKey, nat>, weldKey: Vec3 -> VertexKey)
    requires i < |vertices| && WeldState(vertices, i, points, changes, verticesMap, weldKey)
    requires weldKey(vertices[i]) in verticesMap
    ensures WeldState(vertices, i + 1, points, changes + [changes[verticesMap[weldKey(vertices[i])]]], verticesMap, weldKey)
  {
    WeldStep(vertices, i, weldKey);
  }

  /** The inner loop of the fourth: whether `indices[n] === indices[(n + 1) % 3]`
      for some `n`, which checks all three pairs of corners. */
  method HasRepeat(indices: seq<Index>) returns (repeated: bool)
    requires |indices| == 3
    ensures repeated <==> Degenerate(Face(indices[0], indices[1], indices[2]))
  {
    repeated := false;
    var n := 0;
    while n < 3
      invariant 0 <= n <= 3
      invariant forall m :: 0 <= m < n ==> Differs(indices, m)
    {
      if indices[n] == indices[(n + 1) % 3] {
        assert n == 0 || n == 1 || n == 2;
        repeated := true;
        break;
      }
      n := n + 1;
    }
    if !repeated {
      assert Differs(indices, 0) && Differs(indices, 1) && Differs(indices, 2);
    }
  }

  /** Corner `m` differs from the next one, cyclically. */
  predicate Differs(indices: seq<Index>, m: nat)
    requires |indices| == 3 && m < 3
  {
    indices[m] != indices[(m + 1) % 3]
  }

  /** The fourth loop: every face renumbered onto the points, and the
      positions of the degenerate ones listed in increasing order. */
  method RemapFaces(faces: seq<Face>, changes: seq<nat>) returns (remapped: seq<Face>, faceIdsToRemove: seq<nat>)
    ensures |remapped| == |faces|
    ensures remapped == RemapAll(faces, changes)
    ensures DegenerateIdsBelow(faceIdsToRemove, remapped, |remapped|)
  {
    remapped := faces;
    faceIdsToRemove := [];
    var i := 0;
    while i < |faces|
      invariant 0 <= i <= |faces| && |remapped| == |faces|
      invariant forall k :: 0 <= k < |faces| ==> remapped[k] == if k < i then Remap(faces[k], changes) else faces[k]
      invariant DegenerateIdsBelow(faceIdsToRemove, remapped, i)
    {
      var face := remapped[i];
      face := face.(a := Lookup(changes, face.a));
      face := face.(b := Lookup(changes, face.b));
      face := face.(c := Lookup(changes, face.c));
      remapped := remapped[i := face];
      var repeated := HasRepeat([face.a, face.b, face.c]);
      if repeated {
        faceIdsToRemove := faceIdsToRemove + [i];
      }
      i := i + 1;
    }
    assert remapped == RemapAll(faces, changes);
  }

  /** The fifth loop: `faces.splice(idx, 1)` for the listed positions from the
      last to the first, so that each removal leaves the positions still to
      be removed in place. */
  method RemoveFaces(faces: seq<Face>, faceIdsToRemove: seq<nat>) returns (kept: seq<Face>)
    requires DegenerateIdsBelow(faceIdsToRemove, faces, |faces|)
    ensures kept == Survivors(faces)
  {
    kept := faces;
    var i := |faceIdsToRemove| - 1;
    RemovalStart(faces, faceIdsToRemove);
    while i >= 0
      invariant -1 <= i < |faceIdsToRemove|
      invariant kept == faces[..Low(faceIdsToRemove, i)] + Survivors(faces[Low(faceIdsToRemove, i)..])
    {
      RemovalStep(faces, faceIdsToRemove, i);
      var idx := faceIdsToRemove[i];
      kept := kept[..idx] + kept[idx + 1..];
      i := i - 1;
    }
    assert faces[0..] == faces;
  }

  /** `toConvexPolyhedronProps(geometry)` for a geometry whose `position`
      attribute holds the points `position`: the welded points and the
      surviving renumbered faces. The final `map`s to coordinate and index
      arrays change only the representation and are left implicit. */
  method ToConvexPolyhedronProps(position: seq<Vec3>) returns (points: seq<Vec3>, cannonFaces: seq<Face>)
    ensures points == Dedup(position, KeyOf)
    ensures cannonFaces == Survivors(RemapAll(InitialFaces(|position|), Welding(position, KeyOf)))
    ensures |points| <= |position| && |cannonFaces| <= (|position| + 2) / 3
  {
    var vertices := position;
    var faces := BuildFaces(|vertices|);
    var changes;
    points, changes := WeldVertices(vertices, KeyOf);
    WeldingUnique(vertices, changes, KeyOf);
    var faceIdsToRemove;
    faces, faceIdsToRemove := RemapFaces(faces, changes);
    cannonFaces := RemoveFaces(faces, faceIdsToRemove);
    WeldedPoints(vertices, KeyOf);
  }

  // ------------------------------------------------ whole-run specification

  /** `changes` as a function of the vertices: each vertex's key's position
      among the welded points. */
  ghost function Welding(vertices: seq<Vec3>, weldKey: Vec3 -> VertexKey): (r: seq<nat>)
    ensures WeldMap(r, vertices, Dedup(vertices, weldKey), weldKey)
  {
    var points := Dedup(vertices, weldKey);
    WeldingExists(vertices, weldKey);
    seq(|vertices|, i requires 0 <= i < |vertices| =>
      var j :| 0 <= j < |points| && weldKey(points[j]) == weldKey(vertices[i]); j)
  }

  function RemapAll(faces: seq<Face>, changes: seq<nat>): (r: seq<Face>)
    ensures |r| == |faces|
  {
    seq(|faces|, k requires 0 <= k < |faces| => Remap(faces[k], changes))
  }

  // ---------------------------------------------------------------- lemmas

  /** One vertex more: the welded points grow by it exactly when its key is new. */
  lemma WeldStep(vertices: seq<Vec3>, i: nat, weldKey: Vec3 -> VertexKey)
    requires i < |vertices|
    ensures var d := Dedup(vertices[..i], weldKey);
            Dedup(vertices[..i + 1], weldKey) == if weldKey(vertices[i]) in Keys(d, weldKey) then d else d + [vertices[i]]
  {
    assert vertices[..i + 1][..i] == vertices[..i];
  }

  /** Some point of `points` carries the key `k`. */
  predicate HasPoint(points: seq<Vec3>, k: VertexKey, weldKey: Vec3 -> VertexKey) {
    exists j :: 0 <= j < |points| && weldKey(points[j]) == k
  }

  /** Every vertex's key has a welded point. */
  lemma WeldingExists(vertices: seq<Vec3>, weldKey: Vec3 -> VertexKey)
    ensures forall i :: 0 <= i < |vertices| ==> HasPoint(Dedup(vertices, weldKey), weldKey(vertices[i]), weldKey)
  {
    var points := Dedup(vertices, weldKey);
    DedupCoversKeys(vertices, weldKey);
    KeysIn(points, weldKey);
    forall i | 0 <= i < |vertices|
      ensures HasPoint(points, weldKey(vertices[i]), weldKey)
    {
      var k := weldKey(vertices[i]);
      assert k in Keys(points, weldKey);
      var j :| 0 <= j < |points| && weldKey(points[j]) == k;
    }
  }

  /** The weld map is unique: welded keys are distinct, so any map sending
      each vertex to the point with its key is `Welding`. */
  lemma WeldingUnique(vertices: seq<Vec3>, changes: seq<nat>, weldKey: Vec3 -> VertexKey)
    requires WeldMap(changes, vertices, Dedup(vertices, weldKey), weldKey)
    ensures changes == Welding(vertices, weldKey)
  {
    var points := Dedup(vertices, weldKey);
    var w := Welding(vertices, weldKey);
    DedupDistinct(vertices, weldKey);
    forall i | 0 <= i < |vertices|
      ensures changes[i] == w[i]
    {
      assert weldKey(points[changes[i]]) == weldKey(points[w[i]]);
    }
  }

  /** The welded points carry pairwise distinct keys, one for every key among
      the vertices, each the first vertex with that key; there are no more
      points than vertices. */
  lemma {:induction false} WeldedPoints(vertices: seq<Vec3>, weldKey: Vec3 -> VertexKey)
    ensures DistinctKeys(Dedup(vertices, weldKey), weldKey)
    ensures Keys(Dedup(vertices, weldKey), weldKey) == Keys(vertices, weldKey)
    ensures forall p :: p in Dedup(vertices, weldKey) ==> p in vertices
    ensures |Dedup(vertices, weldKey)| <= |vertices|
    decreases |vertices|
  {
    DedupDistinct(vertices, weldKey);
    DedupFromHits(vertices, weldKey);
    DedupCoversKeys(vertices, weldKey);
    KeysIn(vertices, weldKey);
    KeysIn(Dedup(vertices, weldKey), weldKey);
    forall k | k in Keys(Dedup(vertices, weldKey), weldKey)
      ensures k in Keys(vertices, weldKey)
    {
      var j :| 0 <= j < |Dedup(vertices, weldKey)| && weldKey(Dedup(vertices, weldKey)[j]) == k;
      var p := Dedup(vertices, weldKey)[j];
      assert p in vertices;
      var i :| 0 <= i < |vertices| && vertices[i] == p;
    }
    if vertices != [] {
      WeldedPoints(vertices[..|vertices| - 1], weldKey);
    }
  }

  /** For a proper triangle soup (a multiple of three vertices) every corner
      of every returned face is a defined point number below the number of
      points, and no returned face is degenerate. */
  lemma ProperSoupFaces(position: seq<Vec3>)
    requires |position| % 3 == 0
    ensures var faces := Survivors(RemapAll(InitialFaces(|position|), Welding(position, KeyOf)));
            forall f :: f in faces ==>
              && !Degenerate(f)
              && f.a.Some? && f.b.Some? && f.c.Some?
              && 0 <= f.a.value < |Dedup(position, KeyOf)|
              && 0 <= f.b.value < |Dedup(position, KeyOf)|
              && 0 <= f.c.value < |Dedup(position, KeyOf)|
  {
    var n := |Dedup(position, KeyOf)|;
    var all := RemapAll(InitialFaces(|position|), Welding(position, KeyOf));
    forall k | 0 <= k < |all|
      ensures InBounds(all[k], n)
    {
      assert 3 * k + 2 < |position|;
    }
    SurvivorsFrom(all, n);
  }

  /** Every corner of `f` is a point number below `n`. */
  predicate InBounds(f: Face, n: int) {
    && f.a.Some? && f.b.Some? && f.c.Some?
    && 0 <= f.a.value < n && 0 <= f.b.value < n && 0 <= f.c.value < n
  }

  /** Survivors are non-degenerate faces drawn from the input. */
  lemma {:induction false} SurvivorsFrom(fs: seq<Face>, n: int)
    requires forall k :: 0 <= k < |fs| ==> InBounds(fs[k], n)
    ensures forall f :: f in Survivors(fs) ==> !Degenerate(f) && InBounds(f, n)
    decreases |fs|
  {
    if fs != [] {
      SurvivorsFrom(fs[..|fs| - 1], n);
    }
  }

  /** Filtering a concatenation filters each part. */
  lemma {:induction false} SurvivorsAppend(a: seq<Face>, b: seq<Face>)
    ensures Survivors(a + b) == Survivors(a) + Survivors(b)
    decreases |b|
  {
    if b == [] {
      assert a + b == a;
    } else {
      var init := b[..|b| - 1];
      SurvivorsAppend(a, init);
      assert (a + b)[..|a + b| - 1] == a + init;
      assert (a + b)[|a + b| - 1] == b[|b| - 1];
    }
  }

  /** Without degenerate faces nothing is filtered out. */
  lemma {:induction false} SurvivorsClean(fs: seq<Face>)
    requires forall k :: 0 <= k < |fs| ==> !Degenerate(fs[k])
    ensures Survivors(fs) == fs
    decreases |fs|
  {
    if fs != [] {
      SurvivorsClean(fs[..|fs| - 1]);
    }
  }

  /** One past the position still to be removed at step `i`; 0 once none is left. */
  function Low(ids: seq<nat>, i: int): nat
    requires -1 <= i < |ids|
  {
    if i >= 0 then ids[i] + 1 else 0
  }

  /** Before the removals: past the last listed position nothing is degenerate. */
  lemma RemovalStart(faces: seq<Face>, ids: seq<nat>)
    requires DegenerateIdsBelow(ids, faces, |faces|)
    ensures faces == faces[..Low(ids, |ids| - 1)] + Survivors(faces[Low(ids, |ids| - 1)..])
  {
    var low := Low(ids, |ids| - 1);
    forall k | low <= k < |faces|
      ensures !Degenerate(faces[k])
    {
      forall t | 0 <= t < |ids|
        ensures ids[t] != k
      {
        if t < |ids| - 1 {
          assert ids[t] < ids[|ids| - 1];
        }
      }
    }
    SurvivorsClean(faces[low..]);
  }

  /** Between two consecutive listed positions no face is degenerate. */
  lemma CleanBetween(faces: seq<Face>, ids: seq<nat>, i: int)
    requires DegenerateIdsBelow(ids, faces, |faces|) && 0 <= i < |ids|
    ensures forall k :: Low(ids, i - 1) <= k < ids[i] ==> !Degenerate(faces[k])
  {
    forall k | Low(ids, i - 1) <= k < ids[i]
      ensures !Degenerate(faces[k])
    {
      forall t | 0 <= t < |ids|
        ensures ids[t] != k
      {
        if t < i - 1 {
          assert ids[t] < ids[i - 1];
        } else if t > i {
          assert ids[i] < ids[t];
        }
      }
    }
  }

  /** Splicing out the listed position `ids[i]` moves the boundary down to
      the previous listed position. */
  lemma RemovalStep(faces: seq<Face>, ids: seq<nat>, i: int)
    requires DegenerateIdsBelow(ids, faces, |faces|) && 0 <= i < |ids|
    ensures var kept := faces[..Low(ids, i)] + Survivors(faces[Low(ids, i)..]);
            var x := ids[i];
            kept[..x] + kept[x + 1..] == faces[..Low(ids, i - 1)] + Survivors(faces[Low(ids, i - 1)..])
  {
    var x := ids[i];
    var lo := Low(ids, i - 1);
    CleanBetween(faces, ids, i);
    SurvivorsClean(faces[lo..x]);
    assert Degenerate(faces[x]);
    SpliceFiltered(faces, lo, x);
  }

  /** The sequence algebra of one splice: a clean stretch `[lo, x)` followed
      by the degenerate face `x`. */
  lemma SpliceFiltered(faces: seq<Face>, lo: nat, x: nat)
    requires lo <= x < |faces| && Degenerate(faces[x])
    requires Survivors(faces[lo..x]) == faces[lo..x]
    ensures var kept := faces[..x + 1] + Survivors(faces[x + 1..]);
            kept[..x] + kept[x + 1..] == faces[..lo] + Survivors(faces[lo..])
  {
    var clean := faces[lo..x];
    var tail := faces[x + 1..];
    assert faces[lo..] == clean + [faces[x]] + tail;
    SkipDegenerate(clean, faces[x], tail);
    var rest := Survivors(tail);
    var kept := faces[..x + 1] + rest;
    assert kept[..x] == faces[..x];
    assert kept[x + 1..] == rest;
    assert faces[..x] == faces[..lo] + clean;
    assert Survivors(faces[lo..]) == clean + rest;
    assert faces[..lo] + (clean + rest) == faces[..x] + rest;
  }

  /** A degenerate face between a clean stretch and the rest is dropped. */
  lemma SkipDegenerate(clean: seq<Face>, f: Face, tail: seq<Face>)
    requires Degenerate(f) && Survivors(clean) == clean
    ensures Survivors(clean + [f] + tail) == clean + Survivors(tail)
  {
    SurvivorsAppend(clean + [f], tail);
    assert (clean + [f])[..|clean|] == clean;
  }
}
