/** The two-pass nearest-parameter search of `SphereGeo.getClosestTOnCurve`:
    a coarse scan of `getPointAt` over an even grid of the unit interval,
    then a fine scan of 101 samples in a window of two grid steps either
    side of the coarse winner. Both passes keep the first sample whose
    squared distance is strictly below the best so far. */
module Search {
  import opened Vectors
  import opened Options
  import opened Curves

  /** The running state of a scan: `closestT` and `minDistance`, where
      `None` stands for the initial `Infinity`. */
  datatype Best = Best(t: real, dist: Option<real>)

  const Unset := Best(0.0, None)

  /** Number of sub-intervals of the fine pass. */
  const FineDivisions := 100

  /** `curve.getPointAt(t).distanceToSquared(point)`. */
  function Dist(c: Curve, p: Vec3, t: real): real {
    DistSq(c.pointAt(t), p)
  }

  /** The test `dist < minDistance`. */
  predicate Beats(d: real, b: Best) {
    b.dist.None? || d < b.dist.value
  }

  /** One iteration of either pass. */
  function Step(c: Curve, p: Vec3, b: Best, t: real): Best {
    var d := Dist(c, p, t);
    if Beats(d, b) then Best(t, Some(d)) else b
  }

  /** The state after visiting the parameters `ts` in order, starting from `b`. */
  function Scan(c: Curve, p: Vec3, b: Best, ts: seq<real>): Best
    decreases |ts|
  {
    if ts == [] then b else Step(c, p, Scan(c, p, b, ts[..|ts| - 1]), ts[|ts| - 1])
  }

  /** The coarse grid `i / divisions` for `i = 0 .. divisions`. */
  function Grid(divisions: nat): (r: seq<real>)
    requires divisions > 0
    ensures |r| == divisions + 1
  {
    seq(divisions + 1, i => i as real / divisions as real)
  }

  /** Fine sample `i` of the window from `lo` to `hi`. */
  function FineSample(lo: real, hi: real, i: int): real {
    Lerp(lo, hi, i as real / FineDivisions as real)
  }

  /** The point a fraction `f` of the way from `lo` to `hi`. */
  function Lerp(lo: real, hi: real, f: real): real {
    lo + (hi - lo) * f
  }

  /** The fine samples `lo + (hi - lo) * (i / 100)` for `i = 0 .. 100`. */
  function Fine(lo: real, hi: real): (r: seq<real>)
    ensures |r| == FineDivisions + 1
  {
    seq(FineDivisions + 1, i => FineSample(lo, hi, i))
  }

  function Max(a: real, b: real): real { if a >= b then a else b }

  function Min(a: real, b: real): real { if a <= b then a else b }

  /** Half the width of the fine window: two coarse steps. */
  function SearchRange(divisions: nat): real
    requires divisions > 0
  {
    1.0 / divisions as real * 2.0
  }

  /** The outcome of the coarse pass. */
  function Coarse(c: Curve, p: Vec3, divisions: nat): Best
    requires divisions > 0
  {
    Scan(c, p, Unset, Grid(divisions))
  }

  /** Lower end of the fine window around a coarse winner `t`. */
  function WindowLo(t: real, divisions: nat): real
    requires divisions > 0
  {
    Max(0.0, t - SearchRange(divisions))
  }

  /** Upper end of the fine window around a coarse winner `t`. */
  function WindowHi(t: real, divisions: nat): real
    requires divisions > 0
  {
    Min(1.0, t + SearchRange(divisions))
  }

  /** The samples of the fine pass. */
  function FineSamples(c: Curve, p: Vec3, divisions: nat): seq<real>
    requires divisions > 0
  {
    var t := Coarse(c, p, divisions).t;
    Fine(WindowLo(t, divisions), WindowHi(t, divisions))
  }

  /** `getClosestTOnCurve(point, curve, divisions)`. */
  function ClosestT(c: Curve, p: Vec3, divisions: nat): real
    requires divisions > 0
  {
    Scan(c, p, Coarse(c, p, divisions), FineSamples(c, p, divisions)).t
  }

  /** The coarse loop, shared by `getClosestTOnCurve` and
      `getNurbsCurveRotationForPosition`: `closestT` and `minDistance` after
      visiting `i / divisions` for `i = 0 .. divisions`. */
  method ScanGrid(c: Curve, p: Vec3, divisions: nat) returns (closestT: real, minDistance: Option<real>)
    requires divisions > 0
    ensures Best(closestT, minDistance) == Coarse(c, p, divisions)
  {
    minDistance := None;
    closestT := 0.0;
    ghost var grid := Grid(divisions);
    var i := 0;
    while i <= divisions
      invariant 0 <= i <= divisions + 1
      invariant Best(closestT, minDistance) == Scan(c, p, Unset, grid[..i])
    {
      var t := i as real / divisions as real;
      var dist := Dist(c, p, t);
      ScanExtend(c, p, Unset, grid, i);
      if minDistance.None? || dist < minDistance.value {
        minDistance := Some(dist);
        closestT := t;
      }
      i := i + 1;
    }
    assert grid[..i] == grid;
  }

  /** `ts[k]` is the first parameter of `ts` at the least distance from `p`. */
  predicate IsFirstMin(c: Curve, p: Vec3, ts: seq<real>, k: int) {
    && 0 <= k < |ts|
    && (forall j :: 0 <= j < |ts| ==> Dist(c, p, ts[k]) <= Dist(c, p, ts[j]))
    && (forall j :: 0 <= j < k ==> Dist(c, p, ts[k]) < Dist(c, p, ts[j]))
  }

  /** A state whose distance, once set, is the distance at its parameter. */
  predicate Consistent(c: Curve, p: Vec3, b: Best) {
    b.dist.Some? ==> b.dist.value == Dist(c, p, b.t)
  }

  // ---------------------------------------------------------------- lemmas

  lemma FractionInUnit(i: nat, n: nat)
    requires 0 < n && i <= n
    ensures 0.0 <= i as real / n as real
    ensures i as real / n as real <= 1.0
  {
  }

  lemma Between(lo: real, hi: real, f: real)
    requires lo <= hi
    requires 0.0 <= f <= 1.0
    ensures lo <= Lerp(lo, hi, f) <= hi
  {
    var w := hi - lo;
    assert 0.0 <= w * f;
    assert 0.0 <= w * (1.0 - f);
    assert w * (1.0 - f) == w - w * f;
  }

  /** Every coarse grid parameter lies in the unit interval. */
  lemma GridInUnit(divisions: nat)
    requires divisions > 0
    ensures forall i :: 0 <= i < |Grid(divisions)| ==> 0.0 <= Grid(divisions)[i] <= 1.0
  {
    forall i | 0 <= i < |Grid(divisions)|
      ensures 0.0 <= Grid(divisions)[i] <= 1.0
    {
      FractionInUnit(i, divisions);
    }
  }

  lemma FineSampleInWindow(lo: real, hi: real, i: nat)
    requires lo <= hi && i <= FineDivisions
    ensures lo <= FineSample(lo, hi, i)
    ensures FineSample(lo, hi, i) <= hi
  {
    FractionInUnit(i, FineDivisions);
    Between(lo, hi, i as real / FineDivisions as real);
  }

  /** Every fine sample lies in the window it was drawn from. */
  lemma FineInWindow(lo: real, hi: real)
    requires lo <= hi
    ensures forall i :: 0 <= i < |Fine(lo, hi)| ==> lo <= Fine(lo, hi)[i] <= hi
  {
    forall i | 0 <= i < |Fine(lo, hi)|
      ensures lo <= Fine(lo, hi)[i] <= hi
    {
      FineSampleInWindow(lo, hi, i);
    }
  }

  lemma DistNonNegative(c: Curve, p: Vec3, t: real)
    ensures Dist(c, p, t) >= 0.0
  {
    DistSqFacts(c.pointAt(t), p);
  }

  lemma SearchRangePositive(divisions: nat)
    requires divisions > 0
    ensures SearchRange(divisions) > 0.0
  {
  }

  /** Visiting one parameter more is one more step. */
  lemma ScanExtend(c: Curve, p: Vec3, b: Best, ts: seq<real>, i: nat)
    requires i < |ts|
    ensures Scan(c, p, b, ts[..i + 1]) == Step(c, p, Scan(c, p, b, ts[..i]), ts[i])
  {
    assert ts[..i + 1][..i] == ts[..i];
  }

  /** Starting from `Unset`, a scan of a non-empty sequence lands on the
      first parameter of least distance, and records that distance. */
  lemma {:induction false} ScanFindsFirstMin(c: Curve, p: Vec3, ts: seq<real>)
    requires |ts| > 0
    ensures exists k :: IsFirstMin(c, p, ts, k) && Scan(c, p, Unset, ts) == Best(ts[k], Some(Dist(c, p, ts[k])))
  {
    var n := |ts| - 1;
    var init := ts[..n];
    if n == 0 {
      assert init == [];
      assert Scan(c, p, Unset, ts) == Step(c, p, Unset, ts[0]);
      assert IsFirstMin(c, p, ts, 0);
    } else {
      ScanFindsFirstMin(c, p, init);
      var k :| IsFirstMin(c, p, init, k) && Scan(c, p, Unset, init) == Best(init[k], Some(Dist(c, p, init[k])));
      var dn := Dist(c, p, ts[n]);
      var dk := Dist(c, p, ts[k]);
      assert init[k] == ts[k];
      assert Scan(c, p, Unset, ts) == Step(c, p, Best(ts[k], Some(dk)), ts[n]);
      if dn < dk {
        forall j | 0 <= j < n
          ensures dn < Dist(c, p, ts[j])
        {
          assert init[j] == ts[j];
        }
        assert IsFirstMin(c, p, ts, n);
      } else {
        forall j | 0 <= j < |ts|
          ensures dk <= Dist(c, p, ts[j])
        {
          if j < n {
            assert init[j] == ts[j];
          }
        }
        forall j | 0 <= j < k
          ensures dk < Dist(c, p, ts[j])
        {
          assert init[j] == ts[j];
        }
        assert IsFirstMin(c, p, ts, k);
      }
    }
  }

  /** The scan never ends worse than where it started, nor worse than any
      parameter it visited, and it ends set as soon as it visited one. */
  lemma {:induction false} ScanBelow(c: Curve, p: Vec3, b: Best, ts: seq<real>)
    ensures b.dist.Some? || |ts| > 0 ==> Scan(c, p, b, ts).dist.Some?
    ensures b.dist.Some? ==> Scan(c, p, b, ts).dist.value <= b.dist.value
    ensures forall k :: 0 <= k < |ts| ==> Scan(c, p, b, ts).dist.Some? && Scan(c, p, b, ts).dist.value <= Dist(c, p, ts[k])
    decreases |ts|
  {
    if ts != [] {
      var n := |ts| - 1;
      ScanBelow(c, p, b, ts[..n]);
      assert forall k :: 0 <= k < n ==> ts[..n][k] == ts[k];
    }
  }

  /** The scan keeps its distances honest, and it ends either where it
      started or on one of the parameters it visited. */
  lemma {:induction false} ScanOrigin(c: Curve, p: Vec3, b: Best, ts: seq<real>)
    ensures Consistent(c, p, b) ==> Consistent(c, p, Scan(c, p, b, ts))
    ensures Scan(c, p, b, ts) == b || exists k :: 0 <= k < |ts| && Scan(c, p, b, ts).t == ts[k]
    decreases |ts|
  {
    if ts != [] {
      var n := |ts| - 1;
      ScanOrigin(c, p, b, ts[..n]);
      var prev := Scan(c, p, b, ts[..n]);
      if prev != b {
        var k :| 0 <= k < n && prev.t == ts[..n][k];
        assert prev.t == ts[k];
      }
    }
  }

  /** A set state that no visited parameter beats strictly is kept. */
  lemma {:induction false} ScanKeeps(c: Curve, p: Vec3, b: Best, ts: seq<real>)
    requires b.dist.Some?
    requires forall k :: 0 <= k < |ts| ==> b.dist.value <= Dist(c, p, ts[k])
    ensures Scan(c, p, b, ts) == b
    decreases |ts|
  {
    if ts != [] {
      var n := |ts| - 1;
      assert forall k :: 0 <= k < n ==> ts[..n][k] == ts[k];
      ScanKeeps(c, p, b, ts[..n]);
    }
  }

  /** The coarse pass lands on the first grid parameter of least distance. */
  lemma CoarseIsFirstMin(c: Curve, p: Vec3, divisions: nat)
    requires divisions > 0
    ensures exists k :: IsFirstMin(c, p, Grid(divisions), k) && Coarse(c, p, divisions) == Best(Grid(divisions)[k], Some(Dist(c, p, Grid(divisions)[k])))
  {
    ScanFindsFirstMin(c, p, Grid(divisions));
  }

  /** The result is a parameter of the unit interval within two coarse steps
      of the coarse winner. */
  lemma ClosestTInWindow(c: Curve, p: Vec3, divisions: nat)
    requires divisions > 0
    ensures 0.0 <= ClosestT(c, p, divisions) <= 1.0
    ensures Coarse(c, p, divisions).t - SearchRange(divisions) <= ClosestT(c, p, divisions)
    ensures ClosestT(c, p, divisions) <= Coarse(c, p, divisions).t + SearchRange(divisions)
  {
    var g := Grid(divisions);
    var coarse := Coarse(c, p, divisions);
    ScanFindsFirstMin(c, p, g);
    var k :| IsFirstMin(c, p, g, k) && coarse == Best(g[k], Some(Dist(c, p, g[k])));
    GridInUnit(divisions);
    assert 0.0 <= coarse.t <= 1.0;
    SearchRangePositive(divisions);
    FineInWindow(WindowLo(coarse.t, divisions), WindowHi(coarse.t, divisions));
    ScanOrigin(c, p, coarse, FineSamples(c, p, divisions));
  }

  /** The result is at least as close to `p` as every coarse grid parameter
      and every sample of the fine window. */
  lemma ClosestTIsBest(c: Curve, p: Vec3, divisions: nat)
    requires divisions > 0
    ensures forall i :: 0 <= i < |Grid(divisions)| ==> Dist(c, p, ClosestT(c, p, divisions)) <= Dist(c, p, Grid(divisions)[i])
    ensures forall i :: 0 <= i < |FineSamples(c, p, divisions)| ==> Dist(c, p, ClosestT(c, p, divisions)) <= Dist(c, p, FineSamples(c, p, divisions)[i])
  {
    var g := Grid(divisions);
    var coarse := Coarse(c, p, divisions);
    var fine := FineSamples(c, p, divisions);
    ScanBelow(c, p, Unset, g);
    ScanOrigin(c, p, Unset, g);
    ScanBelow(c, p, coarse, fine);
    ScanOrigin(c, p, coarse, fine);
  }

  /** A coarse grid parameter at squared distance zero, with none before it,
      wins the coarse pass. */
  lemma CoarseExactHit(c: Curve, p: Vec3, divisions: nat, i: nat)
    requires divisions > 0 && i <= divisions
    requires Dist(c, p, Grid(divisions)[i]) == 0.0
    requires forall j :: 0 <= j < i ==> Dist(c, p, Grid(divisions)[j]) != 0.0
    ensures Coarse(c, p, divisions) == Best(Grid(divisions)[i], Some(0.0))
  {
    var g := Grid(divisions);
    ScanFindsFirstMin(c, p, g);
    var k :| IsFirstMin(c, p, g, k) && Coarse(c, p, divisions) == Best(g[k], Some(Dist(c, p, g[k])));
    DistNonNegative(c, p, g[k]);
    assert Dist(c, p, g[k]) <= Dist(c, p, g[i]);
    assert k == i;
  }

  /** When the curve passes exactly through `p` at a grid parameter, the
      result is the first such grid parameter: no other sample can beat a
      squared distance of zero. */
  lemma ClosestTExactHit(c: Curve, p: Vec3, divisions: nat, i: nat)
    requires divisions > 0 && i <= divisions
    requires Dist(c, p, Grid(divisions)[i]) == 0.0
    requires forall j :: 0 <= j < i ==> Dist(c, p, Grid(divisions)[j]) != 0.0
    ensures ClosestT(c, p, divisions) == Grid(divisions)[i]
  {
    CoarseExactHit(c, p, divisions, i);
    var fine := FineSamples(c, p, divisions);
    forall j | 0 <= j < |fine|
      ensures 0.0 <= Dist(c, p, fine[j])
    {
      DistNonNegative(c, p, fine[j]);
    }
    ScanKeeps(c, p, Coarse(c, p, divisions), fine);
  }

  /** The start of the curve is found at parameter 0: it is the first grid
      sample and lies at distance zero from itself. */
  lemma ClosestTOfStart(c: Curve, divisions: nat)
    requires divisions > 0
    ensures ClosestT(c, c.pointAt(0.0), divisions) == 0.0
  {
    var p := c.pointAt(0.0);
    assert Dist(c, p, Grid(divisions)[0]) == 0.0 by {
      assert Grid(divisions)[0] == 0.0;
      DistSqFacts(p, p);
    }
    ClosestTExactHit(c, p, divisions, 0);
  }
}
