/**
  The height fix-up of the relocalization handler: a planar pose estimate
  carries no reliable height, so the handler scans the submaps in the order
  the pose graph lists them and copies the height of the nearest one, where
  "nearest" looks at the horizontal offset only and ignores any submap at
  1e6 or more.

  The selection rule itself is a first-argmin over the sequence of distances
  with a cut-off (`FirstArgmin`); the submap search applies it to the
  submaps' squared planar distances. Over the reals, and for non-negative
  values, `sqrt(a) < sqrt(b)` holds exactly when `a < b`, so comparing
  squared distances against the squared cut-off makes the same choices as
  comparing the lengths themselves.
*/
module SubmapSearch {
  import opened Wrappers
  import opened Geometry

  // ---------------------------------------------------------------------
  // The selection rule: first strict minimum below a cut-off

  /** The running minimum of a scan that has settled on `best`; it starts at the cut-off. */
  function RunningMin(ds: seq<real>, best: Option<nat>, bound: real): real
    requires best.Some? ==> best.value < |ds|
  {
    match best
    case None => bound
    case Some(k) => ds[k]
  }

  /**
    The index a left-to-right scan settles on, computed the way the loop
    runs: the choice for a sequence is the choice for all but its last
    element, replaced by the last element only when it is strictly smaller
    than the running minimum.
  */
  function FirstArgmin(ds: seq<real>, bound: real): (r: Option<nat>)
    ensures r.Some? ==> r.value < |ds| && ds[r.value] < bound
    decreases |ds|
  {
    if |ds| == 0 then None
    else
      var prev := FirstArgmin(ds[..|ds| - 1], bound);
      var last := |ds| - 1;
      if ds[last] < RunningMin(ds, prev, bound) then Some(last) else prev
  }

  /** k holds the least value, no earlier index holds it, and it is below the cut-off. */
  ghost predicate IsFirstMin(ds: seq<real>, bound: real, k: nat) {
    && k < |ds|
    && ds[k] < bound
    && (forall j :: 0 <= j < |ds| ==> ds[k] <= ds[j])
    && (forall j :: 0 <= j < k ==> ds[k] < ds[j])
  }

  /** No value lies strictly below the cut-off (this includes an empty sequence). */
  ghost predicate NoneBelow(ds: seq<real>, bound: real) {
    forall j :: 0 <= j < |ds| ==> ds[j] >= bound
  }

  /** Whatever the scan settles on is the first minimum; settling on nothing means nothing is below the cut-off. */
  lemma {:induction false} FirstArgminSound(ds: seq<real>, bound: real)
    ensures FirstArgmin(ds, bound).Some? ==> IsFirstMin(ds, bound, FirstArgmin(ds, bound).value)
    ensures FirstArgmin(ds, bound).None? ==> NoneBelow(ds, bound)
    decreases |ds|
  {
    if |ds| > 0 {
      FirstArgminSound(ds[..|ds| - 1], bound);
    }
  }

  /** The strict comparison makes the first minimum unique. */
  lemma FirstMinUnique(ds: seq<real>, bound: real, k1: nat, k2: nat)
    requires IsFirstMin(ds, bound, k1) && IsFirstMin(ds, bound, k2)
    ensures k1 == k2
  {
  }

  /** The scan's choice, characterised without reference to the scan (both directions). */
  lemma FirstArgminSpec(ds: seq<real>, bound: real, k: nat)
    ensures FirstArgmin(ds, bound) == Some(k) <==> IsFirstMin(ds, bound, k)
    ensures FirstArgmin(ds, bound) == None <==> NoneBelow(ds, bound)
  {
    FirstArgminSound(ds, bound);
    var r := FirstArgmin(ds, bound);
    if IsFirstMin(ds, bound, k) {
      assert !NoneBelow(ds, bound);
      FirstMinUnique(ds, bound, r.value, k);
    }
  }

  // ---------------------------------------------------------------------
  // Submaps and their planar distances

  /** Identifies a submap: the trajectory it belongs to and its index there. */
  datatype SubmapId = SubmapId(trajectoryId: int, submapIndex: int)

  /** One entry of the pose graph's submap list: a submap and its global pose. */
  datatype SubmapEntry = SubmapEntry(id: SubmapId, pose: Pose)

  /** The initial running minimum of the scan. */
  const SearchRadius: real := 1000000.0

  const SearchRadiusSquared: real := SearchRadius * SearchRadius

  /** Squared horizontal distance; the vertical offset is zeroed before measuring. */
  function PlanarDist2(u: Vec3, v: Vec3): (d: real)
    ensures d >= 0.0
  {
    var dx := u.x - v.x;
    var dy := u.y - v.y;
    assert dx * dx >= 0.0 && dy * dy >= 0.0;
    dx * dx + dy * dy
  }

  /** The planar distance sees the x and y coordinates only. */
  lemma PlanarDist2Planar(u1: Vec3, v1: Vec3, u2: Vec3, v2: Vec3)
    requires u1.x == u2.x && u1.y == u2.y && v1.x == v2.x && v1.y == v2.y
    ensures PlanarDist2(u1, v1) == PlanarDist2(u2, v2)
  {
  }

  /** The squared planar distance of every submap's origin from the point, in list order. */
  function Distances(submaps: seq<SubmapEntry>, at: Vec3): seq<real> {
    seq(|submaps|, j requires 0 <= j < |submaps| => PlanarDist2(submaps[j].pose.origin, at))
  }

  /** The submap the scan settles on, if any is within the cut-off. */
  function NearestSubmap(submaps: seq<SubmapEntry>, at: Vec3): (r: Option<nat>)
    ensures r.Some? ==> r.value < |submaps| && PlanarDist2(submaps[r.value].pose.origin, at) < SearchRadiusSquared
  {
    FirstArgmin(Distances(submaps, at), SearchRadiusSquared)
  }

  /** k is the first submap at the least planar distance, and that distance is below the cut-off. */
  ghost predicate IsFirstNearest(submaps: seq<SubmapEntry>, at: Vec3, k: nat) {
    IsFirstMin(Distances(submaps, at), SearchRadiusSquared, k)
  }

  /** No submap lies strictly within the cut-off (this includes an empty list). */
  ghost predicate NoneWithinRadius(submaps: seq<SubmapEntry>, at: Vec3) {
    NoneBelow(Distances(submaps, at), SearchRadiusSquared)
  }

  /** Two submap lists that agree on every submap's horizontal position, index by index. */
  ghost predicate SamePlanarLayout(s1: seq<SubmapEntry>, s2: seq<SubmapEntry>) {
    && |s1| == |s2|
    && (forall j :: 0 <= j < |s1| ==>
          s1[j].pose.origin.x == s2[j].pose.origin.x && s1[j].pose.origin.y == s2[j].pose.origin.y)
  }

  /** The scan picks submap k if and only if it is the first nearest, and nothing if and only if none is in range. */
  lemma NearestSubmapSpec(submaps: seq<SubmapEntry>, at: Vec3, k: nat)
    ensures NearestSubmap(submaps, at) == Some(k) <==> IsFirstNearest(submaps, at, k)
    ensures NearestSubmap(submaps, at) == None <==> NoneWithinRadius(submaps, at)
  {
    FirstArgminSpec(Distances(submaps, at), SearchRadiusSquared, k);
  }

  /**
    Heights play no part in the choice: neither the submaps' own heights nor
    the estimate's height, because the vertical offset is zeroed.
  */
  lemma NearestIgnoresHeights(s1: seq<SubmapEntry>, s2: seq<SubmapEntry>, p1: Vec3, p2: Vec3)
    requires SamePlanarLayout(s1, s2)
    requires p1.x == p2.x && p1.y == p2.y
    ensures NearestSubmap(s1, p1) == NearestSubmap(s2, p2)
  {
    forall j | 0 <= j < |s1|
      ensures Distances(s1, p1)[j] == Distances(s2, p2)[j]
    {
      PlanarDist2Planar(s1[j].pose.origin, p1, s2[j].pose.origin, p2);
    }
    assert Distances(s1, p1) == Distances(s2, p2);
  }

  // ---------------------------------------------------------------------
  // The height fix-up

  /** The estimate with only its height replaced. */
  function WithHeight(estimate: Pose, z: real): Pose {
    Pose(estimate.basis, Vec3(estimate.origin.x, estimate.origin.y, z))
  }

  /** The estimate carrying the height of the chosen submap, or unchanged when none was chosen. */
  function HeightFrom(estimate: Pose, submaps: seq<SubmapEntry>, choice: Option<nat>): Pose
    requires choice.Some? ==> choice.value < |submaps|
  {
    match choice
    case None => estimate
    case Some(k) => WithHeight(estimate, submaps[k].pose.origin.z)
  }

  /** The estimate after the height fix-up. */
  function AdjustHeight(estimate: Pose, submaps: seq<SubmapEntry>): (r: Pose)
    ensures r.basis == estimate.basis
    ensures r.origin.x == estimate.origin.x && r.origin.y == estimate.origin.y
  {
    HeightFrom(estimate, submaps, NearestSubmap(submaps, estimate.origin))
  }

  /** The fix-up takes the height of the first nearest submap, and keeps the estimate as it is when none is in range. */
  lemma AdjustHeightSpec(estimate: Pose, submaps: seq<SubmapEntry>, k: nat)
    ensures IsFirstNearest(submaps, estimate.origin, k) ==>
              AdjustHeight(estimate, submaps) == WithHeight(estimate, submaps[k].pose.origin.z)
    ensures NoneWithinRadius(submaps, estimate.origin) ==> AdjustHeight(estimate, submaps) == estimate
  {
    NearestSubmapSpec(submaps, estimate.origin, k);
  }

  /** With no submaps at all the estimate keeps its height. */
  lemma EmptySubmapsKeepEstimate(estimate: Pose)
    ensures AdjustHeight(estimate, []) == estimate
  {
  }

  /** Running the fix-up on its own output changes nothing. */
  lemma AdjustHeightIdempotent(estimate: Pose, submaps: seq<SubmapEntry>)
    ensures AdjustHeight(AdjustHeight(estimate, submaps), submaps) == AdjustHeight(estimate, submaps)
  {
    var r := AdjustHeight(estimate, submaps);
    NearestIgnoresHeights(submaps, submaps, estimate.origin, r.origin);
  }

  /** Whenever some submap is in range, the height chosen does not depend on the estimate's own height. */
  lemma AdjustHeightIgnoresEstimateHeight(estimate: Pose, submaps: seq<SubmapEntry>, z: real)
    ensures AdjustHeight(WithHeight(estimate, z), submaps).origin.z == AdjustHeight(estimate, submaps).origin.z
            || NoneWithinRadius(submaps, estimate.origin)
  {
    NearestIgnoresHeights(submaps, submaps, estimate.origin, WithHeight(estimate, z).origin);
    NearestSubmapSpec(submaps, estimate.origin, 0);
  }

  /**
    Submaps at planar origins (0,0), (5,0), (2,1) with
    heights 0, 1, 2 and an estimate at (2.1, 0.9) take the height 2 of the
    submap at (2,1).
  */
  lemma ThreeSubmapExample()
    ensures
      var submaps := [SubmapEntry(SubmapId(0, 0), Pose(IdentityMat, Vec3(0.0, 0.0, 0.0))),
                      SubmapEntry(SubmapId(0, 1), Pose(IdentityMat, Vec3(5.0, 0.0, 1.0))),
                      SubmapEntry(SubmapId(0, 2), Pose(IdentityMat, Vec3(2.0, 1.0, 2.0)))];
      var estimate := Pose(IdentityMat, Vec3(2.1, 0.9, 0.0));
      NearestSubmap(submaps, estimate.origin) == Some(2) && AdjustHeight(estimate, submaps).origin.z == 2.0
  {
  }

  /**
    The scan loop as written: walk the submaps in order, keep a running
    minimum that starts at the cut-off, and on every strictly closer submap
    overwrite the estimate's height and lower the minimum.
  */
  method FixHeight(estimate: Pose, submaps: seq<SubmapEntry>) returns (adjusted: Pose)
    ensures adjusted.basis == estimate.basis
    ensures adjusted.origin.x == estimate.origin.x && adjusted.origin.y == estimate.origin.y
    ensures NoneWithinRadius(submaps, estimate.origin) ==> adjusted == estimate
    ensures forall k :: 0 <= k < |submaps| && IsFirstNearest(submaps, estimate.origin, k) ==>
              adjusted.origin.z == submaps[k].pose.origin.z
    ensures adjusted == AdjustHeight(estimate, submaps)
  {
    ghost var ds := Distances(submaps, estimate.origin);
    adjusted := estimate;
    var minDist2 := SearchRadiusSquared;
    var i := 0;
    while i < |submaps|
      invariant 0 <= i <= |submaps|
      invariant adjusted == HeightFrom(estimate, submaps, FirstArgmin(ds[..i], SearchRadiusSquared))
      invariant minDist2 == RunningMin(ds[..i], FirstArgmin(ds[..i], SearchRadiusSquared), SearchRadiusSquared)
    {
      var submapOrigin := submaps[i].pose.origin;
      // the estimate's height may already have changed; the planar distance does not see it
      var delta2 := PlanarDist2(submapOrigin, adjusted.origin);
      PlanarDist2Planar(submapOrigin, adjusted.origin, submapOrigin, estimate.origin);
      assert ds[..i + 1][..i] == ds[..i];
      if delta2 < minDist2 {
        adjusted := WithHeight(adjusted, submapOrigin.z);
        minDist2 := delta2;
      }
      i := i + 1;
    }
    assert ds[..i] == ds;
    forall k | 0 <= k < |submaps| && IsFirstNearest(submaps, estimate.origin, k)
      ensures adjusted.origin.z == submaps[k].pose.origin.z
    {
      AdjustHeightSpec(estimate, submaps, k);
    }
    AdjustHeightSpec(estimate, submaps, 0);
  }
}
