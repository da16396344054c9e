/** The segment-by-segment ray scan behind `intersect`, `intersectOnCatenary`
    and `intersectOnNurbs`, for any point type `P` and key type `K`: every
    hit is reduced to a key, a hit whose key was already seen is dropped
    (`checkAndAddPoint`), and the scan stops once `cap` points are kept.
    `raycast(a, b)` lists the hits of the ray cast along segment `a -> b`. */
module KeyedScan {
  /** The keys of the points of `ps`: the `seenPoints` set. */
  function Keys<P(==), K(==)>(ps: seq<P>, key: P -> K): set<K>
    decreases |ps|
  {
    if ps == [] then {} else Keys(ps[..|ps| - 1], key) + {key(ps[|ps| - 1])}
  }

  predicate DistinctKeys<P(==), K(==)>(ps: seq<P>, key: P -> K) {
    forall i, j :: 0 <= i < j < |ps| ==> key(ps[i]) != key(ps[j])
  }

  /** Hits of the ray cast along segment `i -> i + 1` of the samples. */
  function SegmentHits<P>(raycast: (P, P) -> seq<P>, samples: seq<P>, i: nat): seq<P>
    requires i + 1 < |samples|
  {
    raycast(samples[i], samples[i + 1])
  }

  /** The hits of the first `k` segments, in scan order. */
  function HitsBefore<P>(raycast: (P, P) -> seq<P>, samples: seq<P>, k: nat): seq<P>
    requires k < |samples|
  {
    if k == 0 then [] else HitsBefore(raycast, samples, k - 1) + SegmentHits(raycast, samples, k - 1)
  }

  /** The hits of all segments of the samples. */
  function AllHits<P>(raycast: (P, P) -> seq<P>, samples: seq<P>): seq<P>
    requires |samples| > 0
  {
    HitsBefore(raycast, samples, |samples| - 1)
  }

  /** `checkAndAddPoint` run over a hit stream, with the early stop at `cap`:
      a hit is kept when fewer than `cap` points were kept and its key is new. */
  function Collect<P(==), K(==)>(hits: seq<P>, key: P -> K, cap: nat): seq<P>
    decreases |hits|
  {
    if hits == [] then []
    else
      var r := Collect(hits[..|hits| - 1], key, cap);
      var h := hits[|hits| - 1];
      if |r| < cap && key(h) !in Keys(r, key) then r + [h] else r
  }

  /** The reference: the first hit of every key, with no cap. */
  function Dedup<P(==), K(==)>(hits: seq<P>, key: P -> K): seq<P>
    decreases |hits|
  {
    if hits == [] then []
    else
      var r := Dedup(hits[..|hits| - 1], key);
      var h := hits[|hits| - 1];
      if key(h) in Keys(r, key) then r else r + [h]
  }

  /** The points one scan of `intersect*` collects. */
  function ScanResult<P(==), K(==)>(samples: seq<P>, raycast: (P, P) -> seq<P>, key: P -> K, cap: nat): seq<P>
    requires |samples| > 0
  {
    Collect(AllHits(raycast, samples), key, cap)
  }

  /** The state of a scan that has consumed the hit stream `hits`: the kept
      points (`intersections`), their count (`foundIntersections`) and the
      set of their keys (`seenPoints`). */
  predicate Scanned<P(==), K(==)>(result: seq<P>, found: nat, seen: set<K>, hits: seq<P>, key: P -> K, cap: nat) {
    result == Collect(hits, key, cap) && found == |result| && seen == Keys(result, key)
  }

  /** One pass of the segment loop of `intersect*`. */
  method ScanSegments<P(==), K(==)>(samples: seq<P>, raycast: (P, P) -> seq<P>, key: P -> K, cap: nat)
    returns (result: seq<P>, foundIntersections: nat)
    requires |samples| > 0
    ensures result == ScanResult(samples, raycast, key, cap)
    ensures foundIntersections == |result| <= cap
    ensures DistinctKeys(result, key)
  {
    result := [];
    foundIntersections := 0;
    var seenPoints: set<K> := {};
    var i := 0;
    while i < |samples| - 1 && foundIntersections < cap
      invariant 0 <= i <= |samples| - 1
      invariant Scanned(result, foundIntersections, seenPoints, HitsBefore(raycast, samples, i), key, cap)
      invariant foundIntersections <= cap
    {
      var hits := raycast(samples[i], samples[i + 1]);
      HitsBeforeNext(raycast, samples, i);
      result, foundIntersections, seenPoints :=
        AddHits(hits, result, foundIntersections, seenPoints, key, cap, HitsBefore(raycast, samples, i));
      i := i + 1;
    }
    ScanEnds(samples, raycast, key, cap, i);
  }

  /** `checkAndAddPoint(point)`: keep the point when its key is new. The
      ghost `consumed` is the hit stream the state was built from. */
  method CheckAndAddPoint<P(==), K(==)>(point: P, result0: seq<P>, seen0: set<K>, key: P -> K, cap: nat,
                                        ghost consumed: seq<P>)
    returns (added: bool, result: seq<P>, seenPoints: set<K>)
    requires result0 == Collect(consumed, key, cap) && |result0| < cap
    requires seen0 == Keys(result0, key)
    ensures added <==> key(point) !in Keys(result0, key)
    ensures result == (if added then result0 + [point] else result0)
    ensures result == Collect(consumed + [point], key, cap)
    ensures seenPoints == Keys(result, key)
  {
    CollectStep(consumed, point, key, cap);
    KeysOfAppend(result0, point, key);
    var k := key(point);
    if k !in seen0 {
      seenPoints := seen0 + {k};
      result := result0 + [point];
      return true, result, seenPoints;
    }
    return false, result0, seen0;
  }

  /** The inner loop of the scan: `checkAndAddPoint` on every hit of one
      segment, leaving the loop as soon as the cap is reached. */
  method AddHits<P(==), K(==)>(hits: seq<P>, result0: seq<P>, found0: nat, seen0: set<K>, key: P -> K, cap: nat,
                 ghost before: seq<P>)
    returns (result: seq<P>, foundIntersections: nat, seenPoints: set<K>)
    requires Scanned(result0, found0, seen0, before, key, cap) && found0 < cap
    ensures Scanned(result, foundIntersections, seenPoints, before + hits, key, cap)
    ensures foundIntersections <= cap
  {
    result, foundIntersections, seenPoints := result0, found0, seen0;
    var j := 0;
    AppendSlice(before, hits, 0);
    while j < |hits|
      invariant 0 <= j <= |hits|
      invariant Scanned(result, foundIntersections, seenPoints, before + hits[..j], key, cap)
      invariant foundIntersections < cap
    {
      var added;
      AppendSlice(before, hits, j);
      added, result, seenPoints := CheckAndAddPoint(hits[j], result, seenPoints, key, cap, before + hits[..j]);
      if added {
        foundIntersections := foundIntersections + 1;
        if foundIntersections >= cap {
          SaturatedAfter(before, hits, j + 1, key, cap);
          return;
        }
      }
      j := j + 1;
    }
    AppendSlice(before, hits, |hits|);
  }

  // ---------------------------------------------------------------- lemmas

  lemma KeysOfAppend<P, K>(r: seq<P>, h: P, key: P -> K)
    ensures Keys(r + [h], key) == Keys(r, key) + {key(h)}
  {
    assert (r + [h])[..|r|] == r;
  }

  /** `Keys(ps)` holds the key of every point of `ps` and nothing else. */
  lemma {:induction false} KeysIn<P, K>(ps: seq<P>, key: P -> K)
    ensures forall i :: 0 <= i < |ps| ==> key(ps[i]) in Keys(ps, key)
    ensures forall k :: k in Keys(ps, key) ==> exists i :: 0 <= i < |ps| && key(ps[i]) == k
    decreases |ps|
  {
    if ps != [] {
      var init := ps[..|ps| - 1];
      KeysIn(init, key);
      assert forall i :: 0 <= i < |init| ==> init[i] == ps[i];
    }
  }

  /** One hit more: `checkAndAddPoint` on the state reached so far. */
  lemma CollectStep<P, K>(xs: seq<P>, h: P, key: P -> K, cap: nat)
    ensures var r := Collect(xs, key, cap);
            Collect(xs + [h], key, cap) == if |r| < cap && key(h) !in Keys(r, key) then r + [h] else r
  {
    assert (xs + [h])[..|xs|] == xs;
  }

  /** Once the cap is reached, later hits change nothing. */
  lemma {:induction false} CollectSaturated<P, K>(xs: seq<P>, ys: seq<P>, key: P -> K, cap: nat)
    requires |Collect(xs, key, cap)| >= cap
    ensures Collect(xs + ys, key, cap) == Collect(xs, key, cap)
    decreases |ys|
  {
    if ys == [] {
      assert xs + ys == xs;
    } else {
      var init := ys[..|ys| - 1];
      CollectSaturated(xs, init, key, cap);
      assert (xs + ys)[..|xs + ys| - 1] == xs + init;
    }
  }

  /** Where the segment loop ends, its result is the scan's. */
  lemma ScanEnds<P, K>(samples: seq<P>, raycast: (P, P) -> seq<P>, key: P -> K, cap: nat, i: nat)
    requires i < |samples|
    requires i == |samples| - 1 || |Collect(HitsBefore(raycast, samples, i), key, cap)| >= cap
    ensures ScanResult(samples, raycast, key, cap) == Collect(HitsBefore(raycast, samples, i), key, cap)
    ensures DistinctKeys(ScanResult(samples, raycast, key, cap), key)
  {
    if i < |samples| - 1 {
      ScanStopsAtCap(samples, raycast, key, cap, i);
    }
    CollectDistinct(AllHits(raycast, samples), key, cap);
  }

  lemma AppendSlice<P>(a: seq<P>, b: seq<P>, j: nat)
    requires j <= |b|
    ensures j < |b| ==> a + b[..j] + [b[j]] == a + b[..j + 1]
    ensures j == |b| ==> a + b[..j] == a + b
    ensures j == 0 ==> a + b[..j] == a
  {
    if j < |b| {
      assert b[..j + 1] == b[..j] + [b[j]];
    } else {
      assert b[..j] == b;
    }
  }

  /** A scan saturated after `j` hits of a segment ignores the rest of it. */
  lemma SaturatedAfter<P, K>(before: seq<P>, hits: seq<P>, j: nat, key: P -> K, cap: nat)
    requires j <= |hits|
    requires |Collect(before + hits[..j], key, cap)| >= cap
    ensures Collect(before + hits, key, cap) == Collect(before + hits[..j], key, cap)
  {
    CollectSaturated(before + hits[..j], hits[j..], key, cap);
    assert before + hits[..j] + hits[j..] == before + hits;
  }

  /** One segment more. */
  lemma HitsBeforeNext<P>(raycast: (P, P) -> seq<P>, samples: seq<P>, i: nat)
    requires i + 1 < |samples|
    ensures HitsBefore(raycast, samples, i + 1) == HitsBefore(raycast, samples, i) + raycast(samples[i], samples[i + 1])
  {
  }

  /** The hits of the first `k` segments begin the hits of the first `k2`. */
  lemma {:induction false} HitsBeforeExtends<P>(raycast: (P, P) -> seq<P>, samples: seq<P>, k: nat, k2: nat)
    requires k <= k2 < |samples|
    ensures |HitsBefore(raycast, samples, k)| <= |HitsBefore(raycast, samples, k2)|
    ensures HitsBefore(raycast, samples, k2) ==
      HitsBefore(raycast, samples, k) + HitsBefore(raycast, samples, k2)[|HitsBefore(raycast, samples, k)|..]
    decreases k2 - k
  {
    if k < k2 {
      HitsBeforeExtends(raycast, samples, k, k2 - 1);
      var a := HitsBefore(raycast, samples, k);
      var b := HitsBefore(raycast, samples, k2 - 1);
      var c := HitsBefore(raycast, samples, k2);
      assert c == b + SegmentHits(raycast, samples, k2 - 1);
      assert c[|a|..] == b[|a|..] + SegmentHits(raycast, samples, k2 - 1);
    }
  }

  /** The early-stopping scan keeps exactly the first `cap` points of the
      deduplicated stream. */
  lemma {:induction false} CollectIsTruncatedDedup<P, K>(hits: seq<P>, key: P -> K, cap: nat)
    ensures |Collect(hits, key, cap)| <= cap
    ensures Collect(hits, key, cap) == Dedup(hits, key)[..if cap < |Dedup(hits, key)| then cap else |Dedup(hits, key)|]
    decreases |hits|
  {
    if hits != [] {
      var init := hits[..|hits| - 1];
      var h := hits[|hits| - 1];
      CollectIsTruncatedDedup(init, key, cap);
      var c := Collect(init, key, cap);
      var d := Dedup(init, key);
      if |c| < cap {
        assert c == d;
        if key(h) !in Keys(d, key) {
          assert Dedup(hits, key) == d + [h];
        }
      } else {
        assert |d| >= cap;
        assert Dedup(hits, key)[..cap] == d[..cap];
      }
    }
  }

  /** The deduplicated stream holds one point per key. */
  lemma {:induction false} DedupDistinct<P, K>(hits: seq<P>, key: P -> K)
    ensures DistinctKeys(Dedup(hits, key), key)
    decreases |hits|
  {
    if hits != [] {
      var init := hits[..|hits| - 1];
      var h := hits[|hits| - 1];
      DedupDistinct(init, key);
      var d := Dedup(init, key);
      if key(h) !in Keys(d, key) {
        KeysIn(d, key);
        assert Dedup(hits, key) == d + [h];
      }
    }
  }

  /** Every point of the deduplicated stream is a hit. */
  lemma {:induction false} DedupFromHits<P, K>(hits: seq<P>, key: P -> K)
    ensures forall p :: p in Dedup(hits, key) ==> p in hits
    decreases |hits|
  {
    if hits != [] {
      var init := hits[..|hits| - 1];
      DedupFromHits(init, key);
      assert forall p :: p in init ==> p in hits;
    }
  }

  /** The key of every hit is represented in the deduplicated stream. */
  lemma {:induction false} DedupCoversKeys<P, K>(hits: seq<P>, key: P -> K)
    ensures forall i :: 0 <= i < |hits| ==> key(hits[i]) in Keys(Dedup(hits, key), key)
    decreases |hits|
  {
    if hits != [] {
      var n := |hits| - 1;
      var init := hits[..n];
      var h := hits[n];
      DedupCoversKeys(init, key);
      var d := Dedup(init, key);
      assert forall i :: 0 <= i < n ==> init[i] == hits[i];
      if key(h) !in Keys(d, key) {
        KeysOfAppend(d, h, key);
        assert Dedup(hits, key) == d + [h];
      }
    }
  }

  /** The early-stopping scan keeps pairwise distinct keys. */
  lemma CollectDistinct<P, K>(hits: seq<P>, key: P -> K, cap: nat)
    ensures DistinctKeys(Collect(hits, key, cap), key)
  {
    CollectIsTruncatedDedup(hits, key, cap);
    DedupDistinct(hits, key);
  }

  /** Every point the early-stopping scan keeps is a hit. */
  lemma CollectFromHits<P, K>(hits: seq<P>, key: P -> K, cap: nat)
    ensures forall p :: p in Collect(hits, key, cap) ==> p in hits
  {
    var c := Collect(hits, key, cap);
    var d := Dedup(hits, key);
    CollectIsTruncatedDedup(hits, key, cap);
    DedupFromHits(hits, key);
    forall p | p in c
      ensures p in hits
    {
      var i :| 0 <= i < |c| && c[i] == p;
      assert d[i] == p;
    }
  }

  /** Below the cap the scan has missed no key. */
  lemma CollectCoversKeys<P, K>(hits: seq<P>, key: P -> K, cap: nat)
    requires |Collect(hits, key, cap)| < cap
    ensures forall i :: 0 <= i < |hits| ==> key(hits[i]) in Keys(Collect(hits, key, cap), key)
  {
    var d := Dedup(hits, key);
    assert Collect(hits, key, cap) == d by {
      CollectIsTruncatedDedup(hits, key, cap);
      assert d[..|d|] == d;
    }
    DedupCoversKeys(hits, key);
  }

  /** A scan collects at most `cap` points, with pairwise distinct keys, all
      of them hits, and it misses a new key only when the cap is reached. */
  lemma ScanResultFacts<P, K>(samples: seq<P>, raycast: (P, P) -> seq<P>, key: P -> K, cap: nat)
    requires |samples| > 0
    ensures |ScanResult(samples, raycast, key, cap)| <= cap
    ensures DistinctKeys(ScanResult(samples, raycast, key, cap), key)
    ensures forall p :: p in ScanResult(samples, raycast, key, cap) ==> p in AllHits(raycast, samples)
    ensures |ScanResult(samples, raycast, key, cap)| < cap ==>
      forall i :: 0 <= i < |AllHits(raycast, samples)| ==> key(AllHits(raycast, samples)[i]) in Keys(ScanResult(samples, raycast, key, cap), key)
  {
    var all := AllHits(raycast, samples);
    CollectIsTruncatedDedup(all, key, cap);
    CollectDistinct(all, key, cap);
    CollectFromHits(all, key, cap);
    if |Collect(all, key, cap)| < cap {
      CollectCoversKeys(all, key, cap);
    }
  }

  /** A scan that reaches the cap after `i` segments ignores the rest. */
  lemma ScanStopsAtCap<P, K>(samples: seq<P>, raycast: (P, P) -> seq<P>, key: P -> K, cap: nat, i: nat)
    requires i < |samples|
    requires |Collect(HitsBefore(raycast, samples, i), key, cap)| >= cap
    ensures ScanResult(samples, raycast, key, cap) == Collect(HitsBefore(raycast, samples, i), key, cap)
  {
    HitsBeforeExtends(raycast, samples, i, |samples| - 1);
    var all := AllHits(raycast, samples);
    var before := HitsBefore(raycast, samples, i);
    CollectSaturated(before, all[|before|..], key, cap);
    assert before + all[|before|..] == all;
  }
}
