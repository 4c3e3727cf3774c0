/** Point queries allow a slack that routes do not: what the atlas contains need
    not be connected to anything, not even to itself. */
module QuerySlack {
  import opened Support
  import opened Boxes
  import opened Certificates
  import opened Refinement
  import opened Routing
  import opened AtlasBuilder
  import opened BuiltAtlas
  import opened RouteTheorems
  import opened RegionIndex
  import opened ToleranceGap

  /** The regions a point query finds, in storage order. */
  function FoundAt(atlas: SafeAtlas, q: Point): seq<nat> {
    RegionIndex.Holding(atlas.regions, q, Iota(|atlas.regions|))
  }

  /** A query finds exactly the regions that hold the configuration up to the slack. */
  lemma {:induction false} FoundIsExact(atlas: SafeAtlas, q: Point, i: nat)
    ensures i in FoundAt(atlas, q) <==> i < |atlas.regions| && Contains(atlas.regions[i].bounds, q, QUERY_TOLERANCE)
  {
    HoldingIsExact(atlas.regions, q, Iota(|atlas.regions|));
    if i < |atlas.regions| {
      assert Iota(|atlas.regions|)[i] == i;
    }
  }

  /** Some region that the query finds holds the configuration without any slack. */
  ghost predicate FoundExactly(atlas: SafeAtlas, q: Point) {
    exists i :: i in FoundAt(atlas, q) && i < |atlas.regions| && In(q, atlas.regions[i].bounds)
  }

  lemma {:induction false} CoveredIffFoundExactly(atlas: SafeAtlas, q: Point)
    ensures Covered(atlas, q) <==> FoundExactly(atlas, q)
  {
    if Covered(atlas, q) {
      var i: nat :| i < |atlas.regions| && In(q, atlas.regions[i].bounds);
      assert Contains(atlas.regions[i].bounds, q, QUERY_TOLERANCE) by {
        assert forall k :: 0 <= k < |q| ==> atlas.regions[i].bounds[k].Contains(q[k], 0.0);
      }
      FoundIsExact(atlas, q, i);
    }
  }

  /** A configuration is connected to itself exactly when a region the query
      finds there holds it without slack; otherwise it is connected to nothing. */
  lemma {:induction false} ConnectedIffFoundExactly(hash: Hash, cell: Workcell, options: BuildOptions, atlas: SafeAtlas,
                                                    a: Point, b: Point)
    requires Built(hash, cell, options, atlas)
    ensures Connected(atlas, a, a) <==> FoundExactly(atlas, a)
    ensures Connected(atlas, a, b) || Connected(atlas, b, a) ==> FoundExactly(atlas, a)
  {
    ConnectedIsEquivalence(hash, cell, options, atlas, a, b, a);
    ConnectedIsEquivalence(hash, cell, options, atlas, b, a, b);
    CoveredIffFoundExactly(atlas, a);
  }

  /** A configuration below the lower region by no more than the slack. */
  function JustBelow(): Point {
    [-QUERY_TOLERANCE]
  }

  lemma {:induction false} JustBelowIsNear(t: real)
    requires t > 0.0
    ensures Contains(Below(t), JustBelow(), QUERY_TOLERANCE)
    ensures !In(JustBelow(), Below(t)) && !In(JustBelow(), Above(t))
  {
    assert !Below(t)[0].Contains(JustBelow()[0], 0.0) && !Above(t)[0].Contains(JustBelow()[0], 0.0);
  }

  /** The gap atlas contains that configuration, and no region holds it exactly. */
  lemma {:induction false} JustBelowIsFound(t: real, atlas: SafeAtlas)
    requires t > 0.0 && |atlas.regions| == 2
    requires (atlas.regions[0].bounds == Below(t) && atlas.regions[1].bounds == Above(t))
          || (atlas.regions[0].bounds == Above(t) && atlas.regions[1].bounds == Below(t))
    ensures FoundAt(atlas, JustBelow()) != [] && !FoundExactly(atlas, JustBelow())
  {
    JustBelowIsNear(t);
    FoundIsExact(atlas, JustBelow(), if atlas.regions[0].bounds == Below(t) then 0 else 1);
  }

  /** For every positive tolerance there are a build, for an admissible robot, and
      a configuration its atlas contains that is connected to no configuration. */
  lemma {:induction false} ContainedButUnconnected(hash: Hash, robotDigest: string, sceneDigest: string, t: real)
    returns (atlas: SafeAtlas, q: Point)
    requires IsSha256(hash) && ValidSha256(robotDigest) && ValidSha256(sceneDigest) && t > 0.0
    ensures AdmissibleRobot(GapCell(robotDigest, sceneDigest, t))
    ensures var build := BuildOf(hash, GapCell(robotDigest, sceneDigest, t), [GapSample(t)], GapOptions(t), Never());
            build.Ok? && build.value.atlas == atlas
    ensures |atlas.adjacency| == |atlas.regions| && FoundAt(atlas, q) != []
    ensures forall b :: !Connected(atlas, q, b)
  {
    atlas := GapAtlas(hash, robotDigest, sceneDigest, t);
    q := JustBelow();
    JustBelowIsFound(t, atlas);
    forall b ensures !Connected(atlas, q, b) {
      ConnectedIffFoundExactly(hash, GapCell(robotDigest, sceneDigest, t), GapOptions(t), atlas, q, b);
    }
  }
}
