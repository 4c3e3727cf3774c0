/** What routing guarantees on built atlases: it never fails, connection is an
    equivalence, the polyline stays inside certified regions, and components
    agree with exact connectivity. */
module RouteTheorems {
  import opened Support
  import opened Sequences
  import opened Boxes
  import opened Certificates
  import opened Refinement
  import opened Graphs
  import opened ChainSearch
  import opened Adjacency
  import opened Routing
  import opened BuiltAtlas

  // ----- no internal error

  /** Every query of the right dimension is answered. */
  ghost predicate RoutesAlways(hash: Hash, atlas: SafeAtlas) {
    && RouteReady(atlas) && UniqueIds(RegionIdsOf(atlas.regions))
    && forall first, second, p :: RegionChain(atlas.regions, atlas.adjacency, p) ==>
                                    RouteAlong(hash, atlas, first, second, p).Ok?
  }

  lemma {:induction false} BuiltEvidence(hash: Hash, cell: Workcell, options: BuildOptions, atlas: SafeAtlas, i: nat)
    requires Built(hash, cell, options, atlas) && i < |atlas.regions|
    ensures CertificateUsable(atlas, i) && CertificateOf(atlas, i) == atlas.certificates[i]
    ensures CertificateOf(atlas, i).policy.obstaclePadding == options.obstaclePadding >= 0.0
    ensures CertificateOf(atlas, i).clearance >= 0.0
    ensures ValidSha256(atlas.robotDigest) && ValidSha256(atlas.sceneDigest)
  {
    assert RegionBuilt(hash, cell, options.obstaclePadding, atlas, i);
  }

  lemma {:induction false} BuiltIds(hash: Hash, cell: Workcell, options: BuildOptions, atlas: SafeAtlas)
    requires Built(hash, cell, options, atlas)
    ensures UniqueIds(RegionIdsOf(atlas.regions))
  {
    var ids := RegionIdsOf(atlas.regions);
    forall i, j | 0 <= i < j < |ids| ensures ids[i] != ids[j] {
      assert atlas.regions[i].id < atlas.regions[j].id;
    }
  }

  lemma {:induction false} BuiltChainUsable(hash: Hash, cell: Workcell, options: BuildOptions, atlas: SafeAtlas,
                                            p: seq<nat>)
    requires Built(hash, cell, options, atlas) && RegionChain(atlas.regions, atlas.adjacency, p)
    ensures EvidenceUsable(atlas, p)
    ensures CertificateOf(atlas, p[0]).policy.obstaclePadding >= 0.0 && ChainClearance(atlas, p) >= 0.0
    ensures ValidSha256(atlas.robotDigest) && ValidSha256(atlas.sceneDigest)
  {
    forall k | 0 <= k < |p|
      ensures CertificateUsable(atlas, p[k])
              && CertificateOf(atlas, p[k]).policy.obstaclePadding == options.obstaclePadding >= 0.0
      ensures CertificateOf(atlas, p[k]).clearance >= 0.0
    {
      BuiltEvidence(hash, cell, options, atlas, p[k]);
    }
    BuiltEvidence(hash, cell, options, atlas, p[0]);
  }

  /** On a built atlas no internal-error branch of routing is reachable, and no
      route fails to be certified. */
  lemma {:induction false} BuiltRoutesAlways(hash: Hash, cell: Workcell, options: BuildOptions, atlas: SafeAtlas)
    requires IsSha256(hash) && Built(hash, cell, options, atlas)
    ensures RoutesAlways(hash, atlas)
  {
    BuiltIds(hash, cell, options, atlas);
    forall p: seq<nat> | RegionChain(atlas.regions, atlas.adjacency, p) ensures EvidenceUsable(atlas, p) {
      BuiltChainUsable(hash, cell, options, atlas, p);
    }
    forall first: Point, second: Point, p: seq<nat> | RegionChain(atlas.regions, atlas.adjacency, p)
      ensures RouteAlong(hash, atlas, first, second, p).Ok?
    {
      BuiltRouteSucceeds(hash, cell, options, atlas, first, second, p);
    }
  }

  lemma {:induction false} BuiltRouteSucceeds(hash: Hash, cell: Workcell, options: BuildOptions, atlas: SafeAtlas,
                                              first: Point, second: Point, p: seq<nat>)
    requires IsSha256(hash) && Built(hash, cell, options, atlas) && RegionChain(atlas.regions, atlas.adjacency, p)
    ensures EvidenceUsable(atlas, p) && RouteAlong(hash, atlas, first, second, p).Ok?
  {
    BuiltChainUsable(hash, cell, options, atlas, p);
  }

  // ----- connection

  ghost predicate Connected(atlas: SafeAtlas, first: Point, second: Point)
    requires |atlas.adjacency| == |atlas.regions|
  {
    exists p :: RouteChain(atlas, first, second, p)
  }

  ghost predicate Covered(atlas: SafeAtlas, q: Point) {
    exists i :: 0 <= i < |atlas.regions| && In(q, atlas.regions[i].bounds)
  }

  /** Connection is decided by searching for a route: an answer is right whatever
      the atlas, and on a built atlas a query of the right dimension is answered. */
  method IsConnected(hash: Hash, atlas: SafeAtlas, first: Point, second: Point) returns (result: Result<bool>)
    ensures result.Ok? ==> |atlas.adjacency| == |atlas.regions| && result.value == Connected(atlas, first, second)
    ensures RoutesAlways(hash, atlas) && |first| == |second| == atlas.dimension ==> result.Ok?
    ensures |first| != atlas.dimension || |second| != atlas.dimension ==> result == Err(DimensionMismatch)
  {
    var route, chain := Route(hash, atlas, first, second);
    if route.Err? {
      return Err(route.code);
    }
    result := Ok(route.value.Some?);
  }

  lemma {:induction false} ConnectedReflexive(atlas: SafeAtlas, q: Point)
    requires |atlas.adjacency| == |atlas.regions| && Covered(atlas, q)
    ensures Connected(atlas, q, q)
  {
    var i :| 0 <= i < |atlas.regions| && In(q, atlas.regions[i].bounds);
    assert RouteChain(atlas, q, q, [i]);
  }

  ghost predicate ChainFromTo(atlas: SafeAtlas, p: seq<nat>, i: nat, j: nat)
    requires |atlas.adjacency| == |atlas.regions|
  {
    RegionChain(atlas.regions, atlas.adjacency, p) && p[0] == i && Last(p) == j
  }

  /** In a symmetric graph a chain can be walked backwards. */
  lemma {:induction false} ChainReversed(atlas: SafeAtlas, p: seq<nat>, i: nat, j: nat)
    requires |atlas.adjacency| == |atlas.regions| && Graphs.WellFormed(atlas.adjacency) && Symmetric(atlas.adjacency)
    requires ChainFromTo(atlas, p, i, j)
    ensures ChainFromTo(atlas, Reverse(p), j, i)
  {
    ReverseAt(p);
    var r: seq<nat> := Reverse(p);
    forall k | 0 < k < |r|
      ensures r[k] in atlas.adjacency[r[k - 1]]
      ensures WitnessOf(atlas.regions[r[k - 1]].bounds, atlas.regions[r[k]].bounds).Some?
    {
      var m := |p| - k;
      assert p[m] in atlas.adjacency[p[m - 1]];
      WitnessIsSymmetric(atlas.regions[p[m - 1]].bounds, atlas.regions[p[m]].bounds);
    }
  }

  lemma {:induction false} ConnectedSymmetric(hash: Hash, cell: Workcell, options: BuildOptions, atlas: SafeAtlas,
                                              a: Point, b: Point)
    requires Built(hash, cell, options, atlas) && Connected(atlas, a, b)
    ensures Connected(atlas, b, a)
  {
    var p :| RouteChain(atlas, a, b, p);
    ChainReversed(atlas, p, p[0], Last(p));
    assert RouteChain(atlas, b, a, Reverse(p));
  }

  /** Two regions that share a configuration are equal or adjacent with a witness. */
  lemma {:induction false} SharingIsAdjacent(hash: Hash, cell: Workcell, options: BuildOptions, atlas: SafeAtlas,
                                             i: nat, j: nat, q: Point)
    requires Built(hash, cell, options, atlas) && i < |atlas.regions| && j < |atlas.regions| && i != j
    requires In(q, atlas.regions[i].bounds) && In(q, atlas.regions[j].bounds)
    ensures j in atlas.adjacency[i] && WitnessOf(atlas.regions[i].bounds, atlas.regions[j].bounds).Some?
  {
    WitnessIffShared(atlas.regions[i].bounds, atlas.regions[j].bounds);
    WitnessImpliesOverlap(atlas.regions[i].bounds, atlas.regions[j].bounds, options.adjacencyTolerance);
    assert Adjacent(atlas.regions, options.adjacencyTolerance, i, j);
  }

  /** Chains that meet in a region join there. */
  lemma {:induction false} ChainsMeet(atlas: SafeAtlas, p: seq<nat>, r: seq<nat>, i: nat, j: nat, k: nat)
    requires |atlas.adjacency| == |atlas.regions| && ChainFromTo(atlas, p, i, j) && ChainFromTo(atlas, r, j, k)
    ensures ChainFromTo(atlas, p + r[1..], i, k)
  {
    var joined := p + r[1..];
    forall m | 0 < m < |joined|
      ensures joined[m] in atlas.adjacency[joined[m - 1]]
      ensures WitnessOf(atlas.regions[joined[m - 1]].bounds, atlas.regions[joined[m]].bounds).Some?
    {
      if m < |p| {
        assert joined[m] == p[m] && joined[m - 1] == p[m - 1];
      } else {
        var n := m - |p| + 1;
        assert joined[m] == r[n] && joined[m - 1] == r[n - 1];
      }
    }
  }

  /** An edge between two regions that share a configuration is a chain. */
  lemma {:induction false} EdgeIsChain(hash: Hash, cell: Workcell, options: BuildOptions, atlas: SafeAtlas, i: nat,
                                       j: nat, q: Point)
    requires Built(hash, cell, options, atlas) && i < |atlas.regions| && j < |atlas.regions|
    requires In(q, atlas.regions[i].bounds) && In(q, atlas.regions[j].bounds)
    ensures ExactlyLinked(atlas, i, j)
  {
    if i == j {
      assert ChainFromTo(atlas, [i], i, j);
    } else {
      SharingIsAdjacent(hash, cell, options, atlas, i, j, q);
      assert ChainFromTo(atlas, [i, j], i, j);
    }
  }

  /** Chains join through a configuration their end regions share. */
  lemma {:induction false} JoinChains(hash: Hash, cell: Workcell, options: BuildOptions, atlas: SafeAtlas, a: Point,
                                      b: Point, c: Point, p: seq<nat>, r: seq<nat>)
    requires Built(hash, cell, options, atlas) && RouteChain(atlas, a, b, p) && RouteChain(atlas, b, c, r)
    ensures Connected(atlas, a, c)
  {
    EdgeIsChain(hash, cell, options, atlas, Last(p), r[0], b);
    var e :| ChainFromTo(atlas, e, Last(p), r[0]);
    ChainsMeet(atlas, p, e, p[0], Last(p), r[0]);
    ChainsMeet(atlas, p + e[1..], r, p[0], r[0], Last(r));
    assert RouteChain(atlas, a, c, p + e[1..] + r[1..]);
  }

  /** On the covered configurations of a built atlas, connection is an equivalence. */
  lemma {:induction false} ConnectedIsEquivalence(hash: Hash, cell: Workcell, options: BuildOptions, atlas: SafeAtlas,
                                                  a: Point, b: Point, c: Point)
    requires Built(hash, cell, options, atlas)
    ensures Connected(atlas, a, a) <==> Covered(atlas, a)
    ensures Connected(atlas, a, b) <==> Connected(atlas, b, a)
    ensures Connected(atlas, a, b) && Connected(atlas, b, c) ==> Connected(atlas, a, c)
  {
    if Connected(atlas, a, a) {
      var p :| RouteChain(atlas, a, a, p);
      assert In(a, atlas.regions[p[0]].bounds);
    }
    if Covered(atlas, a) {
      ConnectedReflexive(atlas, a);
    }
    if Connected(atlas, a, b) {
      ConnectedSymmetric(hash, cell, options, atlas, a, b);
    }
    if Connected(atlas, b, a) {
      ConnectedSymmetric(hash, cell, options, atlas, b, a);
    }
    if Connected(atlas, a, b) && Connected(atlas, b, c) {
      var p :| RouteChain(atlas, a, b, p);
      var r :| RouteChain(atlas, b, c, r);
      JoinChains(hash, cell, options, atlas, a, b, c, p, r);
    }
  }

  // ----- the polyline

  /** One waypoint more than regions, and both ends of segment `k` in region `k`. */
  lemma {:induction false} SegmentInRegion(atlas: SafeAtlas, first: Point, second: Point, p: seq<nat>, k: nat)
    requires |atlas.adjacency| == |atlas.regions| && RouteChain(atlas, first, second, p) && k < |p|
    ensures var w := Polyline(atlas, first, second, p);
            && |w| == |p| + 1 && w[0] == first && w[|p|] == second
            && In(w[k], atlas.regions[p[k]].bounds) && In(w[k + 1], atlas.regions[p[k]].bounds)
  {
    var w := Polyline(atlas, first, second, p);
    if k > 0 {
      WitnessIsShared(atlas.regions[p[k - 1]].bounds, atlas.regions[p[k]].bounds);
      assert w[k] == Witnesses(atlas.regions, p)[k - 1];
    }
    if k + 1 < |p| {
      var m := k + 1;
      WitnessIsShared(atlas.regions[p[m - 1]].bounds, atlas.regions[p[m]].bounds);
      assert w[m] == Witnesses(atlas.regions, p)[m - 1];
    }
  }

  /** The validator never certifies more clearance than the box has. */
  ghost predicate Sound(cell: Workcell, clearanceAt: Point -> real) {
    forall box, q :: cell.validate(box).Ok? && cell.validate(box).value.disposition == CertifiedFree && In(q, box) ==>
                       clearanceAt(q) >= cell.validate(box).value.clearance
  }

  /** With a sound validator, every point of every segment of a route on a built
      atlas lies in a certified region and has at least the clearance of the
      route's certificate, which is the least along the chain. */
  lemma {:induction false} RouteIsSafe(hash: Hash, cell: Workcell, options: BuildOptions, atlas: SafeAtlas,
                                       clearanceAt: Point -> real, first: Point, second: Point, p: seq<nat>,
                                       route: AtlasRoute, k: nat, t: real)
    requires Built(hash, cell, options, atlas) && Sound(cell, clearanceAt)
    requires RouteChain(atlas, first, second, p) && EvidenceUsable(atlas, p)
    requires RouteAlong(hash, atlas, first, second, p) == Ok(route)
    requires k < |route.regionSequence| && 0.0 <= t <= 1.0
    ensures |route.waypoints| == |route.regionSequence| + 1
    ensures |route.waypoints[k]| == |route.waypoints[k + 1]|
    ensures var q := Lerp(route.waypoints[k], route.waypoints[k + 1], t);
            && atlas.regions[p[k]].id == route.regionSequence[k] && In(q, atlas.regions[p[k]].bounds)
            && clearanceAt(q) >= route.certificate.clearance >= 0.0
    ensures exists m :: 0 <= m < |p| && route.certificate.clearance == CertificateOf(atlas, p[m]).clearance
  {
    SegmentInRegion(atlas, first, second, p, k);
    var w := Polyline(atlas, first, second, p);
    var region := atlas.regions[p[k]].bounds;
    BoxIsConvex(region, w[k], w[k + 1], t);
    BuiltEvidence(hash, cell, options, atlas, p[k]);
    assert RegionBuilt(hash, cell, options.obstaclePadding, atlas, p[k]);
    assert clearanceAt(Lerp(w[k], w[k + 1], t)) >= cell.validate(region).value.clearance;
    assert ChainClearance(atlas, p) <= CertificateOf(atlas, p[k]).clearance;
  }

  // ----- storage order

  /** Region `i` of `a` is region `f[i]` of `b`, with the same neighbours. */
  ghost predicate Embeds(a: SafeAtlas, b: SafeAtlas, f: seq<nat>)
    requires |a.adjacency| == |a.regions| && |b.adjacency| == |b.regions|
  {
    && |f| == |a.regions|
    && (forall i :: 0 <= i < |f| ==> f[i] < |b.regions| && b.regions[f[i]].id == a.regions[i].id
                                     && b.regions[f[i]].bounds == a.regions[i].bounds)
    && (forall i, j :: 0 <= i < |f| && 0 <= j < |f| && j in a.adjacency[i] ==> f[j] in b.adjacency[f[i]])
  }

  function MapChain(f: seq<nat>, p: seq<nat>): (q: seq<nat>)
    requires forall k :: 0 <= k < |p| ==> p[k] < |f|
    ensures |q| == |p|
  {
    seq(|p|, k requires 0 <= k < |p| => f[p[k]])
  }

  lemma {:induction false} EmbeddedChain(a: SafeAtlas, b: SafeAtlas, f: seq<nat>, first: Point, second: Point,
                                         p: seq<nat>)
    requires |a.adjacency| == |a.regions| && |b.adjacency| == |b.regions|
    requires Embeds(a, b, f) && RouteChain(a, first, second, p)
    ensures RouteChain(b, first, second, MapChain(f, p)) && SequenceOf(b, MapChain(f, p)) == SequenceOf(a, p)
  {
    var q := MapChain(f, p);
    forall k | 0 < k < |q|
      ensures q[k] in b.adjacency[q[k - 1]] && WitnessOf(b.regions[q[k - 1]].bounds, b.regions[q[k]].bounds).Some?
    {
      assert p[k] in a.adjacency[p[k - 1]];
    }
  }

  /** A least route of one atlas is, region by region, a least route of the other. */
  lemma {:induction false} EmbeddedLeast(a: SafeAtlas, b: SafeAtlas, f: seq<nat>, g: seq<nat>, first: Point,
                                         second: Point, p: seq<nat>)
    requires |a.adjacency| == |a.regions| && |b.adjacency| == |b.regions|
    requires Embeds(a, b, f) && Embeds(b, a, g) && LeastRoute(a, first, second, p)
    ensures LeastRoute(b, first, second, MapChain(f, p)) && SequenceOf(b, MapChain(f, p)) == SequenceOf(a, p)
  {
    EmbeddedChain(a, b, f, first, second, p);
    forall q | RouteChain(b, first, second, q) ensures ShortLexLe(SequenceOf(b, MapChain(f, p)), SequenceOf(b, q)) {
      EmbeddedChain(b, a, g, first, second, q);
    }
  }

  /** The region at `i` of `a` and the one at `f[i]` of `b` carry the same certificate. */
  ghost predicate CarriesCertificates(a: SafeAtlas, b: SafeAtlas, f: seq<nat>)
    requires |f| == |a.regions| && forall i :: 0 <= i < |f| ==> f[i] < |b.regions|
  {
    && a.robotDigest == b.robotDigest && a.sceneDigest == b.sceneDigest
    && forall i :: 0 <= i < |f| ==> (CertificateUsable(a, i) <==> CertificateUsable(b, f[i]))
                                    && (CertificateUsable(a, i) ==> CertificateOf(a, i) == CertificateOf(b, f[i]))
  }

  /** The two chains pass through regions with the same certificates. */
  ghost predicate SameCertificates(a: SafeAtlas, b: SafeAtlas, p: seq<nat>, q: seq<nat>)
    requires forall k :: 0 <= k < |p| ==> p[k] < |a.regions|
    requires forall k :: 0 <= k < |q| ==> q[k] < |b.regions|
  {
    && |p| == |q|
    && forall k :: 0 <= k < |p| ==> CertificateUsable(a, p[k]) && CertificateUsable(b, q[k])
                                    && CertificateOf(a, p[k]) == CertificateOf(b, q[k])
  }

  /** ... with the same ids and bounds. */
  ghost predicate SameRegions(a: SafeAtlas, b: SafeAtlas, p: seq<nat>, q: seq<nat>)
    requires forall k :: 0 <= k < |p| ==> p[k] < |a.regions|
    requires forall k :: 0 <= k < |q| ==> q[k] < |b.regions|
  {
    && |p| == |q|
    && forall k :: 0 <= k < |p| ==>
        a.regions[p[k]].id == b.regions[q[k]].id && a.regions[p[k]].bounds == b.regions[q[k]].bounds
  }

  lemma {:induction false} CarriedCertificates(a: SafeAtlas, b: SafeAtlas, f: seq<nat>, p: seq<nat>)
    requires |f| == |a.regions| && forall i :: 0 <= i < |f| ==> f[i] < |b.regions|
    requires CarriesCertificates(a, b, f) && (forall k :: 0 <= k < |p| ==> p[k] < |a.regions|) && EvidenceUsable(a, p)
    ensures SameCertificates(a, b, p, MapChain(f, p))
  {
    forall k | 0 <= k < |p|
      ensures CertificateUsable(b, f[p[k]]) && CertificateOf(b, f[p[k]]) == CertificateOf(a, p[k]) {
      assert CertificateUsable(a, p[k]);
    }
  }

  lemma {:induction false} SameEvidenceUsable(a: SafeAtlas, b: SafeAtlas, p: seq<nat>, q: seq<nat>)
    requires (forall k :: 0 <= k < |p| ==> p[k] < |a.regions|) && (forall k :: 0 <= k < |q| ==> q[k] < |b.regions|)
    requires p != [] && EvidenceUsable(a, p) && SameCertificates(a, b, p, q)
    ensures EvidenceUsable(b, q)
  {
    forall k | 0 <= k < |q|
      ensures CertificateOf(b, q[k]).policy.obstaclePadding == CertificateOf(b, q[0]).policy.obstaclePadding {
      assert CertificateOf(b, q[k]) == CertificateOf(a, p[k]) && CertificateOf(b, q[0]) == CertificateOf(a, p[0]);
    }
  }

  lemma {:induction false} ClearanceAtMost(a: SafeAtlas, b: SafeAtlas, p: seq<nat>, q: seq<nat>)
    requires (forall k :: 0 <= k < |p| ==> p[k] < |a.regions|) && (forall k :: 0 <= k < |q| ==> q[k] < |b.regions|)
    requires p != [] && q != [] && EvidenceUsable(a, p) && EvidenceUsable(b, q) && SameCertificates(a, b, p, q)
    ensures ChainClearance(b, q) <= ChainClearance(a, p)
  {
    var m :| 0 <= m < |p| && ChainClearance(a, p) == CertificateOf(a, p[m]).clearance;
    assert CertificateOf(b, q[m]) == CertificateOf(a, p[m]);
  }

  /** Chains with the same certificates have the same evidence. */
  lemma {:induction false} SameEvidence(a: SafeAtlas, b: SafeAtlas, p: seq<nat>, q: seq<nat>)
    requires (forall k :: 0 <= k < |p| ==> p[k] < |a.regions|) && (forall k :: 0 <= k < |q| ==> q[k] < |b.regions|)
    requires p != [] && EvidenceUsable(a, p) && SameCertificates(a, b, p, q)
    ensures EvidenceUsable(b, q) && ChainClearance(b, q) == ChainClearance(a, p)
  {
    SameEvidenceUsable(a, b, p, q);
    ClearanceAtMost(a, b, p, q);
    ClearanceAtMost(b, a, q, p);
  }

  /** Chains through the same boxes lead over the same waypoints. */
  lemma {:induction false} SamePolyline(a: SafeAtlas, b: SafeAtlas, first: Point, second: Point, p: seq<nat>,
                                        q: seq<nat>)
    requires |a.adjacency| == |a.regions| && |b.adjacency| == |b.regions|
    requires RegionChain(a.regions, a.adjacency, p) && RegionChain(b.regions, b.adjacency, q)
    requires SameRegions(a, b, p, q)
    ensures Polyline(a, first, second, p) == Polyline(b, first, second, q)
  {
    var v, w := Witnesses(a.regions, p), Witnesses(b.regions, q);
    forall i | 0 <= i < |v| ensures v[i] == w[i] {
      var k := i + 1;
      assert v[k - 1] == WitnessOf(a.regions[p[k - 1]].bounds, a.regions[p[k]].bounds).value;
      assert w[k - 1] == WitnessOf(b.regions[q[k - 1]].bounds, b.regions[q[k]].bounds).value;
    }
  }

  lemma {:induction false} SameRouteTree(a: SafeAtlas, b: SafeAtlas, p: seq<nat>, q: seq<nat>, waypoints: seq<Point>)
    requires (forall k :: 0 <= k < |p| ==> p[k] < |a.regions|) && (forall k :: 0 <= k < |q| ==> q[k] < |b.regions|)
    requires EvidenceUsable(a, p) && EvidenceUsable(b, q) && SameCertificates(a, b, p, q)
    requires SameRegions(a, b, p, q)
    ensures RouteTree(a, waypoints, p) == RouteTree(b, waypoints, q)
  {
    var x, y := RouteTree(a, waypoints, p).fields, RouteTree(b, waypoints, q).fields;
    assert x[Key.RegionSequence] == y[Key.RegionSequence];
    assert x[Key.RegionCertificates] == y[Key.RegionCertificates];
    assert x[Key.RegionBounds] == y[Key.RegionBounds];
  }

  lemma {:induction false} SameSequence(a: SafeAtlas, b: SafeAtlas, p: seq<nat>, q: seq<nat>)
    requires (forall k :: 0 <= k < |p| ==> p[k] < |a.regions|) && (forall k :: 0 <= k < |q| ==> q[k] < |b.regions|)
    requires SameRegions(a, b, p, q)
    ensures SequenceOf(a, p) == SequenceOf(b, q)
  {
    forall k | 0 <= k < |p| ensures SequenceOf(a, p)[k] == SequenceOf(b, q)[k] {
      assert a.regions[p[k]].id == b.regions[q[k]].id;
    }
  }

  /** Chains through the same regions with the same certificates are certified alike. */
  lemma {:induction false} SameRoute(hash: Hash, a: SafeAtlas, b: SafeAtlas, first: Point, second: Point, p: seq<nat>,
                                     q: seq<nat>)
    requires |a.adjacency| == |a.regions| && |b.adjacency| == |b.regions|
    requires RegionChain(a.regions, a.adjacency, p) && RegionChain(b.regions, b.adjacency, q)
    requires a.robotDigest == b.robotDigest && a.sceneDigest == b.sceneDigest
    requires EvidenceUsable(a, p) && SameCertificates(a, b, p, q) && SameRegions(a, b, p, q)
    ensures EvidenceUsable(b, q) && RouteAlong(hash, a, first, second, p) == RouteAlong(hash, b, first, second, q)
  {
    SameEvidence(a, b, p, q);
    SamePolyline(a, b, first, second, p, q);
    SameRouteTree(a, b, p, q, Polyline(a, first, second, p));
    SameSequence(a, b, p, q);
  }

  /** A chain and its image are certified alike. */
  lemma {:induction false} EmbeddedRoute(hash: Hash, a: SafeAtlas, b: SafeAtlas, f: seq<nat>, first: Point,
                                         second: Point, p: seq<nat>)
    requires |a.adjacency| == |a.regions| && |b.adjacency| == |b.regions|
    requires Embeds(a, b, f) && CarriesCertificates(a, b, f) && RouteChain(a, first, second, p) && EvidenceUsable(a, p)
    ensures RouteChain(b, first, second, MapChain(f, p)) && EvidenceUsable(b, MapChain(f, p))
    ensures RouteAlong(hash, a, first, second, p) == RouteAlong(hash, b, first, second, MapChain(f, p))
  {
    EmbeddedChain(a, b, f, first, second, p);
    CarriedCertificates(a, b, f, p);
    SameRoute(hash, a, b, first, second, p, MapChain(f, p));
  }

  lemma {:induction false} SameLeastChain(a: SafeAtlas, b: SafeAtlas, f: seq<nat>, g: seq<nat>, first: Point,
                                          second: Point, p: seq<nat>, q: seq<nat>)
    requires |a.adjacency| == |a.regions| && |b.adjacency| == |b.regions|
    requires Embeds(a, b, f) && Embeds(b, a, g)
    requires LeastRoute(a, first, second, p) && LeastRoute(b, first, second, q)
    ensures SequenceOf(a, p) == SequenceOf(b, q)
    ensures UniqueIds(RegionIdsOf(b.regions)) ==> q == MapChain(f, p)
  {
    EmbeddedLeast(a, b, f, g, first, second, p);
    var m := MapChain(f, p);
    ShortLexAntisymmetric(SequenceOf(b, m), SequenceOf(b, q));
    if UniqueIds(RegionIdsOf(b.regions)) {
      var ids := RegionIdsOf(b.regions);
      assert |m| == |q|;
      forall k | 0 <= k < |q| ensures q[k] == m[k] {
        assert SequenceOf(b, m)[k] == SequenceOf(b, q)[k];
        assert ids[m[k]] == ids[q[k]];
        assert !(m[k] < q[k]) && !(q[k] < m[k]);
      }
    }
  }

  /** One direction of the next lemma's first two statements. */
  lemma {:induction false} EmbeddedConnection(a: SafeAtlas, b: SafeAtlas, f: seq<nat>, g: seq<nat>, first: Point,
                                              second: Point)
    requires |a.adjacency| == |a.regions| && |b.adjacency| == |b.regions|
    requires Embeds(a, b, f) && Embeds(b, a, g)
    ensures Connected(a, first, second) ==> Connected(b, first, second)
    ensures HasLeastRoute(a, first, second) ==> HasLeastRoute(b, first, second)
  {
    if Connected(a, first, second) {
      var p :| RouteChain(a, first, second, p);
      EmbeddedChain(a, b, f, first, second, p);
    }
    if HasLeastRoute(a, first, second) {
      var p :| LeastRoute(a, first, second, p);
      EmbeddedLeast(a, b, f, g, first, second, p);
    }
  }

  ghost predicate HasLeastRoute(atlas: SafeAtlas, first: Point, second: Point)
    requires |atlas.adjacency| == |atlas.regions|
  {
    exists p :: LeastRoute(atlas, first, second, p)
  }

  /** The order in which regions are stored changes neither whether there is a
      route nor its region sequence; nor, when certificates move with their
      regions and ids are unique, its waypoints and certificate. */
  lemma {:induction false} RouteIgnoresStorageOrder(hash: Hash, a: SafeAtlas, b: SafeAtlas, f: seq<nat>, g: seq<nat>,
                                                    first: Point, second: Point, p: seq<nat>, q: seq<nat>)
    requires |a.adjacency| == |a.regions| && |b.adjacency| == |b.regions|
    requires Embeds(a, b, f) && Embeds(b, a, g)
    ensures Connected(a, first, second) <==> Connected(b, first, second)
    ensures HasLeastRoute(a, first, second) <==> HasLeastRoute(b, first, second)
    ensures LeastRoute(a, first, second, p) && LeastRoute(b, first, second, q) ==>
              && SequenceOf(a, p) == SequenceOf(b, q)
              && (UniqueIds(RegionIdsOf(b.regions)) && CarriesCertificates(a, b, f) && EvidenceUsable(a, p) ==>
                    EvidenceUsable(b, q)
                        && RouteAlong(hash, a, first, second, p) == RouteAlong(hash, b, first, second, q))
  {
    EmbeddedConnection(a, b, f, g, first, second);
    EmbeddedConnection(b, a, g, f, first, second);
    if LeastRoute(a, first, second, p) && LeastRoute(b, first, second, q) {
      SameLeastChain(a, b, f, g, first, second, p, q);
      if UniqueIds(RegionIdsOf(b.regions)) && CarriesCertificates(a, b, f) && EvidenceUsable(a, p) {
        EmbeddedRoute(hash, a, b, f, first, second, p);
      }
    }
  }

  // ----- components

  lemma {:induction false} ChainIsLinked(atlas: SafeAtlas, p: seq<nat>)
    requires |atlas.adjacency| == |atlas.regions| && RegionChain(atlas.regions, atlas.adjacency, p)
    ensures Linked(atlas.adjacency, p[0], Last(p))
  {
    assert WalkFromTo(atlas.adjacency, p, p[0], Last(p));
  }

  /** The end regions of a route carry the same component label. */
  lemma {:induction false} RouteStaysInComponent(hash: Hash, cell: Workcell, options: BuildOptions, atlas: SafeAtlas,
                                                 first: Point, second: Point, p: seq<nat>)
    requires Built(hash, cell, options, atlas) && RouteChain(atlas, first, second, p)
    ensures atlas.regions[p[0]].component == atlas.regions[Last(p)].component
  {
    ChainIsLinked(atlas, p);
    LabelsAreComponents(atlas.adjacency, p[0], Last(p));
  }

  ghost predicate ExactlyLinked(atlas: SafeAtlas, i: nat, j: nat)
    requires |atlas.adjacency| == |atlas.regions|
  {
    exists p :: ChainFromTo(atlas, p, i, j)
  }

  /** Regions of one label are joined by exact intersections. */
  ghost predicate ComponentsAreExact(atlas: SafeAtlas)
    requires |atlas.adjacency| == |atlas.regions|
  {
    forall i, j ::
      0 <= i < |atlas.regions| && 0 <= j < |atlas.regions|
      && atlas.regions[i].component == atlas.regions[j].component ==>
        ExactlyLinked(atlas, i, j)
  }

  /** Adjacent regions are joined by exact intersections. */
  ghost predicate EdgesAreExact(atlas: SafeAtlas)
    requires |atlas.adjacency| == |atlas.regions|
  {
    forall i, j :: 0 <= i < |atlas.regions| && 0 <= j < |atlas.regions| && j in atlas.adjacency[i] ==>
        ExactlyLinked(atlas, i, j)
  }

  lemma {:induction false} WalkIsExactlyLinked(atlas: SafeAtlas, p: seq<nat>, n: nat)
    requires |atlas.adjacency| == |atlas.regions| && Walk(atlas.adjacency, p) && n < |p| && EdgesAreExact(atlas)
    ensures ExactlyLinked(atlas, p[0], p[n])
  {
    if n == 0 {
      assert ChainFromTo(atlas, [p[0]], p[0], p[0]);
    } else {
      WalkIsExactlyLinked(atlas, p, n - 1);
      assert p[n] in atlas.adjacency[p[n - 1]];
      assert ExactlyLinked(atlas, p[n - 1], p[n]);
      var q :| ChainFromTo(atlas, q, p[0], p[n - 1]);
      var e :| ChainFromTo(atlas, e, p[n - 1], p[n]);
      ChainsMeet(atlas, q, e, p[0], p[n - 1], p[n]);
    }
  }

  /** Labels promise routes exactly when every adjacency edge, which may only
      bridge a gap within the tolerance, is bridged by exact intersections. */
  lemma {:induction false} ComponentsExactIffEdgesExact(hash: Hash, cell: Workcell, options: BuildOptions,
                                                        atlas: SafeAtlas)
    requires Built(hash, cell, options, atlas)
    ensures ComponentsAreExact(atlas) <==> EdgesAreExact(atlas)
  {
    var g := atlas.adjacency;
    if ComponentsAreExact(atlas) {
      forall i, j | 0 <= i < |g| && 0 <= j < |g| && j in g[i] ensures ExactlyLinked(atlas, i, j) {
        assert WalkFromTo(g, [i, j], i, j);
        LabelsAreComponents(g, i, j);
      }
    }
    if EdgesAreExact(atlas) {
      forall i, j | 0 <= i < |g| && 0 <= j < |g| && atlas.regions[i].component == atlas.regions[j].component
        ensures ExactlyLinked(atlas, i, j)
      {
        LabelsAreComponents(g, i, j);
        var p :| WalkFromTo(g, p, i, j);
        WalkIsExactlyLinked(atlas, p, |p| - 1);
      }
    }
  }

  /** Exact links are the links of the graph routing searches. */
  lemma {:induction false} CertifiedLinked(atlas: SafeAtlas, i: nat, j: nat)
    requires |atlas.adjacency| == |atlas.regions| && NeighborsInRange(atlas.adjacency, |atlas.regions|)
    ensures Linked(CertifiedGraph(atlas.regions, atlas.adjacency), i, j) <==> ExactlyLinked(atlas, i, j)
  {
    var g := CertifiedGraph(atlas.regions, atlas.adjacency);
    forall p: seq<nat> ensures WalkFromTo(g, p, i, j) <==> ChainFromTo(atlas, p, i, j) {
      WalkIffRegionChain(atlas.regions, atlas.adjacency, p);
    }
  }

  /** The graph routing searches is symmetric on a built atlas. */
  lemma {:induction false} CertifiedIsSymmetric(hash: Hash, cell: Workcell, options: BuildOptions, atlas: SafeAtlas)
    requires Built(hash, cell, options, atlas)
    ensures var g := CertifiedGraph(atlas.regions, atlas.adjacency); WellFormed(g) && Symmetric(g)
  {
    var g := CertifiedGraph(atlas.regions, atlas.adjacency);
    CertifiedGraphWellFormed(atlas.regions, atlas.adjacency);
    forall i, j | 0 <= i < |g| && j in g[i] ensures i in g[j] {
      CertifiedNeighborsAreExact(atlas.regions, RegionIdsOf(atlas.regions), i, atlas.adjacency[i]);
      CertifiedNeighborsAreExact(atlas.regions, RegionIdsOf(atlas.regions), j, atlas.adjacency[j]);
      WitnessIsSymmetric(atlas.regions[i].bounds, atlas.regions[j].bounds);
    }
  }

  /** The stored labels are those of the graph routing searches. */
  ghost predicate LabelsAreExact(atlas: SafeAtlas)
    requires |atlas.adjacency| == |atlas.regions| && NeighborsInRange(atlas.adjacency, |atlas.regions|)
  {
    forall i :: 0 <= i < |atlas.regions| ==>
        atlas.regions[i].component == Label(CertifiedGraph(atlas.regions, atlas.adjacency), i)
  }

  /** Labels promise routes exactly when labelling the exactly intersecting
      neighbours gives them again, which a caller can compute. */
  lemma {:induction false} ComponentsExactIffLabelsExact(hash: Hash, cell: Workcell, options: BuildOptions,
                                                         atlas: SafeAtlas)
    requires Built(hash, cell, options, atlas)
    ensures ComponentsAreExact(atlas) <==> LabelsAreExact(atlas)
  {
    if ComponentsAreExact(atlas) {
      ExactComponentsLabelAlike(hash, cell, options, atlas);
    }
    if LabelsAreExact(atlas) {
      var g := CertifiedGraph(atlas.regions, atlas.adjacency);
      CertifiedIsSymmetric(hash, cell, options, atlas);
      forall i, j | 0 <= i < |g| && 0 <= j < |g| && atlas.regions[i].component == atlas.regions[j].component
        ensures ExactlyLinked(atlas, i, j)
      {
        LabelsAreComponents(g, i, j);
        CertifiedLinked(atlas, i, j);
      }
    }
  }

  lemma {:induction false} ExactComponentsLabelAlike(hash: Hash, cell: Workcell, options: BuildOptions,
                                                     atlas: SafeAtlas)
    requires Built(hash, cell, options, atlas) && ComponentsAreExact(atlas)
    ensures LabelsAreExact(atlas)
  {
    var g := CertifiedGraph(atlas.regions, atlas.adjacency);
    forall i, j | 0 <= i < |g| && 0 <= j < |g| ensures Linked(atlas.adjacency, i, j) <==> Linked(g, i, j) {
      LabelsAreComponents(atlas.adjacency, i, j);
      CertifiedLinked(atlas, i, j);
      if ExactlyLinked(atlas, i, j) {
        var p :| ChainFromTo(atlas, p, i, j);
        ChainIsLinked(atlas, p);
      }
    }
    forall i | 0 <= i < |g| ensures atlas.regions[i].component == Label(g, i) {
      SameLinksSameLabels(atlas.adjacency, g, i);
    }
  }

  lemma {:induction false} EdgeIsExactAtZero(hash: Hash, cell: Workcell, options: BuildOptions, atlas: SafeAtlas,
                                             i: nat, j: nat)
    requires Built(hash, cell, options, atlas) && options.adjacencyTolerance == 0.0
    requires i < |atlas.regions| && j in atlas.adjacency[i]
    ensures j < |atlas.regions| && ExactlyLinked(atlas, i, j)
  {
    assert j < |atlas.regions| && Adjacent(atlas.regions, 0.0, i, j);
    assert RegionBuilt(hash, cell, options.obstaclePadding, atlas, i)
           && RegionBuilt(hash, cell, options.obstaclePadding, atlas, j);
    OverlapImpliesWitness(atlas.regions[i].bounds, atlas.regions[j].bounds);
    assert ChainFromTo(atlas, [i, j], i, j);
  }

  /** At adjacency tolerance zero they always are. */
  lemma {:induction false} ComponentsExactAtZero(hash: Hash, cell: Workcell, options: BuildOptions, atlas: SafeAtlas)
    requires Built(hash, cell, options, atlas) && options.adjacencyTolerance == 0.0
    ensures ComponentsAreExact(atlas)
  {
    forall i, j | 0 <= i < |atlas.regions| && 0 <= j < |atlas.regions| && j in atlas.adjacency[i]
      ensures ExactlyLinked(atlas, i, j)
    {
      EdgeIsExactAtZero(hash, cell, options, atlas, i, j);
    }
    ComponentsExactIffEdgesExact(hash, cell, options, atlas);
  }

  /** ... so two covered configurations are connected exactly when their regions share a label. */
  lemma {:induction false} ConnectedIffSameComponent(hash: Hash, cell: Workcell, options: BuildOptions,
                                                     atlas: SafeAtlas, a: Point, b: Point, i: nat, j: nat)
    requires Built(hash, cell, options, atlas) && options.adjacencyTolerance == 0.0
    requires i < |atlas.regions| && j < |atlas.regions| && In(a, atlas.regions[i].bounds)
             && In(b, atlas.regions[j].bounds)
    ensures Connected(atlas, a, b) <==> atlas.regions[i].component == atlas.regions[j].component
  {
    ComponentsExactAtZero(hash, cell, options, atlas);
    if atlas.regions[i].component == atlas.regions[j].component {
      assert ExactlyLinked(atlas, i, j);
      var p :| ChainFromTo(atlas, p, i, j);
      assert RouteChain(atlas, a, b, p);
    }
    if Connected(atlas, a, b) {
      var p :| RouteChain(atlas, a, b, p);
      RouteStaysInComponent(hash, cell, options, atlas, a, b, p);
      SharedLabel(hash, cell, options, atlas, i, p[0], a);
      SharedLabel(hash, cell, options, atlas, Last(p), j, b);
    }
  }

  /** Regions sharing a configuration share their label. */
  lemma {:induction false} SharedLabel(hash: Hash, cell: Workcell, options: BuildOptions, atlas: SafeAtlas, i: nat,
                                       j: nat, q: Point)
    requires Built(hash, cell, options, atlas) && i < |atlas.regions| && j < |atlas.regions|
    requires In(q, atlas.regions[i].bounds) && In(q, atlas.regions[j].bounds)
    ensures atlas.regions[i].component == atlas.regions[j].component
  {
    if i != j {
      SharingIsAdjacent(hash, cell, options, atlas, i, j, q);
      assert WalkFromTo(atlas.adjacency, [i, j], i, j);
      LabelsAreComponents(atlas.adjacency, i, j);
    }
  }
}
