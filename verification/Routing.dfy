/** The atlas and its certified router: the least chain of exactly intersecting
    regions, the witness polyline through it, and the connectivity certificate. */
module Routing {
  import opened Support
  import opened Sequences
  import opened Boxes
  import opened Certificates
  import opened Refinement
  import opened Graphs
  import opened ChainSearch
  import opened Assembly
  import opened Decimal

  datatype SafeAtlas = SafeAtlas(
    dimension: nat,
    robotDigest: string,
    sceneDigest: string,
    regions: seq<SafeRegion>,
    certificates: seq<Certificate>,
    dependencies: seq<RegionDependency>,
    repairDomains: seq<RepairDomain>,
    adjacency: Graph)

  datatype AtlasRoute = AtlasRoute(waypoints: seq<Point>, regionSequence: seq<U64>, certificate: Certificate)

  function RegionIdsOf(regions: seq<SafeRegion>): (ids: seq<U64>)
    ensures |ids| == |regions| && forall i :: 0 <= i < |ids| ==> ids[i] == regions[i].id
  {
    if regions == [] then [] else [regions[0].id] + RegionIdsOf(regions[1..])
  }

  // ----- start, goal and certified adjacency

  /** The first `n` regions whose bounds contain the configuration, in storage order. */
  function Containing(regions: seq<SafeRegion>, q: Point, n: nat): seq<nat>
    requires n <= |regions|
  {
    if n == 0 then [] else
      var before := Containing(regions, q, n - 1);
      if In(q, regions[n - 1].bounds) then before + [n - 1] else before
  }

  lemma {:induction false} ContainingIsExact(regions: seq<SafeRegion>, q: Point, n: nat)
    requires n <= |regions|
    ensures forall i: nat :: i in Containing(regions, q, n) <==> i < n && In(q, regions[i].bounds)
    ensures NoDuplicates(Containing(regions, q, n))
  {
    if n > 0 {
      ContainingIsExact(regions, q, n - 1);
    }
  }

  predicate NeighborsInRange(adjacency: Graph, n: nat) {
    forall i, k :: 0 <= i < |adjacency| && 0 <= k < |adjacency[i]| ==> adjacency[i][k] < n
  }

  /** The neighbours that share a configuration with the region, in list order. */
  function Touching(regions: seq<SafeRegion>, i: nat, list: seq<nat>): seq<nat>
    requires i < |regions| && forall k :: 0 <= k < |list| ==> list[k] < |regions|
  {
    if list == [] then [] else
      var before := Touching(regions, i, list[..|list| - 1]);
      if WitnessOf(regions[i].bounds, regions[Last(list)].bounds).Some? then before + [Last(list)] else before
  }

  lemma {:induction false} TouchingIsExact(regions: seq<SafeRegion>, i: nat, list: seq<nat>)
    requires i < |regions| && forall k :: 0 <= k < |list| ==> list[k] < |regions|
    ensures forall j: nat :: j in Touching(regions, i, list) <==>
              j in list && j < |regions| && WitnessOf(regions[i].bounds, regions[j].bounds).Some?
  {
    if list != [] {
      TouchingIsExact(regions, i, list[..|list| - 1]);
      assert list == list[..|list| - 1] + [Last(list)];
    }
  }

  function IdAt(ids: seq<U64>, i: nat): U64 {
    if i < |ids| then ids[i] else 0
  }

  predicate ByIdLe(ids: seq<U64>, i: nat, j: nat) {
    IdAt(ids, i) <= IdAt(ids, j)
  }

  function SortById(ids: seq<U64>, s: seq<nat>): seq<nat> {
    Sort((i: nat, j: nat) => ByIdLe(ids, i, j), s)
  }

  lemma {:induction false} SortByIdMembers(ids: seq<U64>, s: seq<nat>)
    ensures forall i: nat :: i in SortById(ids, s) <==> i in s
    ensures NoDuplicates(s) ==> NoDuplicates(SortById(ids, s))
  {
    var le := (i: nat, j: nat) => ByIdLe(ids, i, j);
    SortMembers(le, s);
    if NoDuplicates(s) {
      SortKeepsDistinct(le, s);
    }
  }

  /** Sorting distinct indices by unique ids sorts them strictly. */
  lemma {:induction false} SortByIdSorts(ids: seq<U64>, s: seq<nat>)
    requires UniqueIds(ids) && NoDuplicates(s) && forall k :: 0 <= k < |s| ==> s[k] < |ids|
    ensures forall k :: 0 <= k < |SortById(ids, s)| ==> SortById(ids, s)[k] < |ids|
    ensures SortedById(ids, SortById(ids, s))
  {
    var le := (i: nat, j: nat) => ByIdLe(ids, i, j);
    var sorted := SortById(ids, s);
    SortByIdMembers(ids, s);
    SortSorts(le, s);
    forall k | 0 <= k < |sorted| ensures sorted[k] < |ids| {
      assert sorted[k] in s;
    }
    forall i, j | 0 <= i < j < |sorted| ensures ids[sorted[i]] < ids[sorted[j]] {
      assert le(sorted[i], sorted[j]) && sorted[i] != sorted[j];
      if sorted[i] < sorted[j] {
        assert ids[sorted[i]] != ids[sorted[j]];
      } else {
        assert ids[sorted[j]] != ids[sorted[i]];
      }
    }
  }

  /** The exactly intersecting neighbours of each region, by id, without repeats. */
  function CertifiedNeighbors(regions: seq<SafeRegion>, ids: seq<U64>, i: nat, list: seq<nat>): seq<nat>
    requires i < |regions| && forall k :: 0 <= k < |list| ==> list[k] < |regions|
  {
    DropRepeats(SortById(ids, Touching(regions, i, list)))
  }

  lemma {:induction false} CertifiedNeighborsAreExact(regions: seq<SafeRegion>, ids: seq<U64>, i: nat, list: seq<nat>)
    requires i < |regions| && forall k :: 0 <= k < |list| ==> list[k] < |regions|
    ensures forall j: nat :: j in CertifiedNeighbors(regions, ids, i, list) <==>
              j in list && j < |regions| && WitnessOf(regions[i].bounds, regions[j].bounds).Some?
  {
    TouchingIsExact(regions, i, list);
    SortByIdMembers(ids, Touching(regions, i, list));
    DropRepeatsKeeps(SortById(ids, Touching(regions, i, list)));
  }

  lemma {:induction false} CertifiedNeighborsSorted(regions: seq<SafeRegion>, ids: seq<U64>, i: nat, list: seq<nat>)
    requires i < |regions| == |ids| && forall k :: 0 <= k < |list| ==> list[k] < |regions|
    requires UniqueIds(ids)
    ensures forall k :: 0 <= k < |CertifiedNeighbors(regions, ids, i, list)| ==>
            CertifiedNeighbors(regions, ids, i, list)[k] < |ids|
    ensures SortedById(ids, CertifiedNeighbors(regions, ids, i, list))
  {
    var le := (a: nat, b: nat) => ByIdLe(ids, a, b);
    var touching := Touching(regions, i, list);
    var sorted := SortById(ids, touching);
    TouchingIsExact(regions, i, list);
    SortByIdMembers(ids, touching);
    SortSorts(le, touching);
    forall x, y | x in sorted && y in sorted && le(x, y) && le(y, x) ensures x == y {
      assert x < |ids| && y < |ids| && ids[x] == ids[y];
      assert !(x < y) && !(y < x);
    }
    DropRepeatsSorts(le, sorted);
    CertifiedNeighborsAreExact(regions, ids, i, list);
    var kept := DropRepeats(sorted);
    forall k | 0 <= k < |kept| ensures kept[k] < |ids| {
      assert kept[k] in kept;
    }
    forall a, b | 0 <= a < b < |kept| ensures ids[kept[a]] < ids[kept[b]] {
      assert le(kept[a], kept[b]) && kept[a] != kept[b];
      assert !(kept[a] < kept[b]) || ids[kept[a]] != ids[kept[b]];
      assert !(kept[b] < kept[a]) || ids[kept[b]] != ids[kept[a]];
    }
  }

  function CertifiedGraph(regions: seq<SafeRegion>, adjacency: Graph): (g: Graph)
    requires |adjacency| == |regions| && NeighborsInRange(adjacency, |regions|)
    ensures |g| == |regions|
  {
    seq(|regions|, i requires 0 <= i < |regions| => CertifiedNeighbors(regions, RegionIdsOf(regions), i, adjacency[i]))
  }

  lemma {:induction false} CertifiedGraphWellFormed(regions: seq<SafeRegion>, adjacency: Graph)
    requires |adjacency| == |regions| && NeighborsInRange(adjacency, |regions|)
    ensures WellFormed(CertifiedGraph(regions, adjacency))
  {
    var g := CertifiedGraph(regions, adjacency);
    forall i, k | 0 <= i < |g| && 0 <= k < |g[i]| ensures g[i][k] < |g| {
      CertifiedNeighborsAreExact(regions, RegionIdsOf(regions), i, adjacency[i]);
      assert g[i][k] in g[i];
    }
  }

  /** Keeps the exactly intersecting neighbours, or fails on an index out of range. */
  method CertifyNeighbors(regions: seq<SafeRegion>, ids: seq<U64>, i: nat, list: seq<nat>)
    returns (certified: Result<seq<nat>>)
    requires i < |regions|
    ensures if forall k :: 0 <= k < |list| ==> list[k] < |regions|
              then certified == Ok(CertifiedNeighbors(regions, ids, i, list))
            else certified == Err(InternalError)
  {
    var kept: seq<nat> := [];
    for n := 0 to |list|
      invariant forall k :: 0 <= k < n ==> list[k] < |regions|
      invariant kept == Touching(regions, i, list[..n])
    {
      if list[n] >= |regions| {
        return Err(InternalError);
      }
      assert list[..n + 1][..n] == list[..n];
      var shared := IntersectionWitness(regions[i].bounds, regions[list[n]].bounds);
      if shared.Some? {
        kept := kept + [list[n]];
      }
    }
    assert list[..|list|] == list;
    certified := Ok(DropRepeats(SortById(ids, kept)));
  }

  method CertifyAdjacency(regions: seq<SafeRegion>, adjacency: Graph) returns (certified: Result<Graph>)
    requires |adjacency| == |regions|
    ensures if NeighborsInRange(adjacency, |regions|) then certified == Ok(CertifiedGraph(regions, adjacency))
            else certified == Err(InternalError)
  {
    var ids := RegionIdsOf(regions);
    var g: Graph := [];
    for i := 0 to |adjacency|
      invariant |g| == i
      invariant forall k, n :: 0 <= k < i && 0 <= n < |adjacency[k]| ==> adjacency[k][n] < |regions|
      invariant forall k :: 0 <= k < i ==> g[k] == CertifiedNeighbors(regions, ids, k, adjacency[k])
    {
      var neighbors := CertifyNeighbors(regions, ids, i, adjacency[i]);
      if neighbors.Err? {
        return Err(neighbors.code);
      }
      g := g + [neighbors.value];
    }
    assert g == CertifiedGraph(regions, adjacency);
    certified := Ok(g);
  }

  // ----- chains of regions

  /** Consecutive regions are adjacent and share a configuration. */
  ghost predicate RegionChain(regions: seq<SafeRegion>, adjacency: Graph, p: seq<nat>)
    requires |adjacency| == |regions|
  {
    && p != []
    && (forall k :: 0 <= k < |p| ==> p[k] < |regions|)
    && (forall k :: 0 < k < |p| ==> p[k] in adjacency[p[k - 1]])
    && (forall k :: 0 < k < |p| ==> WitnessOf(regions[p[k - 1]].bounds, regions[p[k]].bounds).Some?)
  }

  /** A chain from a region containing `first` to one containing `second`. */
  ghost predicate RouteChain(atlas: SafeAtlas, first: Point, second: Point, p: seq<nat>)
    requires |atlas.adjacency| == |atlas.regions|
  {
    && RegionChain(atlas.regions, atlas.adjacency, p)
    && In(first, atlas.regions[p[0]].bounds) && In(second, atlas.regions[Last(p)].bounds)
  }

  lemma {:induction false} WalkIffRegionChain(regions: seq<SafeRegion>, adjacency: Graph, p: seq<nat>)
    requires |adjacency| == |regions| && NeighborsInRange(adjacency, |regions|)
    ensures Walk(CertifiedGraph(regions, adjacency), p) <==> RegionChain(regions, adjacency, p)
  {
    var g := CertifiedGraph(regions, adjacency);
    forall i, j: nat | 0 <= i < |g|
      ensures j in g[i] <==> j in adjacency[i] && j < |regions| && WitnessOf(regions[i].bounds, regions[j].bounds).Some?
    {
      CertifiedNeighborsAreExact(regions, RegionIdsOf(regions), i, adjacency[i]);
    }
  }

  /** The region ids along a chain. */
  function SequenceOf(atlas: SafeAtlas, p: seq<nat>): (ids: seq<U64>)
    requires forall k :: 0 <= k < |p| ==> p[k] < |atlas.regions|
    ensures |ids| == |p|
  {
    IdsOf(RegionIdsOf(atlas.regions), p)
  }

  /** The least of all route chains, shorter first and then by region ids. */
  ghost predicate LeastRoute(atlas: SafeAtlas, first: Point, second: Point, p: seq<nat>)
    requires |atlas.adjacency| == |atlas.regions|
  {
    && RouteChain(atlas, first, second, p)
    && forall q :: RouteChain(atlas, first, second, q) ==> ShortLexLe(SequenceOf(atlas, p), SequenceOf(atlas, q))
  }

  // ----- waypoints

  /** One shared configuration for each consecutive pair. */
  function Witnesses(regions: seq<SafeRegion>, p: seq<nat>): (points: seq<Point>)
    requires forall k :: 0 <= k < |p| ==> p[k] < |regions|
    requires forall k :: 0 < k < |p| ==> WitnessOf(regions[p[k - 1]].bounds, regions[p[k]].bounds).Some?
    ensures |points| == if |p| == 0 then 0 else |p| - 1
    ensures forall k :: 0 < k < |p| ==> points[k - 1] == WitnessOf(regions[p[k - 1]].bounds, regions[p[k]].bounds).value
  {
    if |p| < 2 then [] else
      Witnesses(regions, p[..|p| - 1]) + [WitnessOf(regions[p[|p| - 1 - 1]].bounds, regions[p[|p| - 1]].bounds).value]
  }

  lemma {:induction false} WitnessesAre(regions: seq<SafeRegion>, p: seq<nat>, found: seq<Point>)
    requires p != [] && forall k :: 0 <= k < |p| ==> p[k] < |regions|
    requires forall k :: 0 < k < |p| ==> WitnessOf(regions[p[k - 1]].bounds, regions[p[k]].bounds).Some?
    requires |found| == |p| - 1
    requires forall k :: 0 < k < |p| ==> found[k - 1] == WitnessOf(regions[p[k - 1]].bounds, regions[p[k]].bounds).value
    ensures found == Witnesses(regions, p)
  {
    forall i | 0 <= i < |found| ensures found[i] == Witnesses(regions, p)[i] {
      var k := i + 1;
      assert found[k - 1] == WitnessOf(regions[p[k - 1]].bounds, regions[p[k]].bounds).value;
    }
  }

  method CollectWitnesses(regions: seq<SafeRegion>, p: seq<nat>) returns (points: Result<seq<Point>>)
    requires forall k :: 0 <= k < |p| ==> p[k] < |regions|
    ensures if forall k :: 0 < k < |p| ==> WitnessOf(regions[p[k - 1]].bounds, regions[p[k]].bounds).Some?
            then points == Ok(Witnesses(regions, p)) else points == Err(InternalError)
  {
    if p == [] {
      return Ok([]);
    }
    var found: seq<Point> := [];
    for n := 1 to |p|
      invariant forall k :: 0 < k < n ==> WitnessOf(regions[p[k - 1]].bounds, regions[p[k]].bounds).Some?
      invariant |found| == n - 1
      invariant forall k :: 0 < k < n ==>
                found[k - 1] == WitnessOf(regions[p[k - 1]].bounds, regions[p[k]].bounds).value
    {
      var shared := IntersectionWitness(regions[p[n - 1]].bounds, regions[p[n]].bounds);
      if shared.None? {
        return Err(InternalError);
      }
      found := found + [shared.value];
    }
    WitnessesAre(regions, p, found);
    points := Ok(found);
  }

  // ----- evidence along the chain

  /** The certificate of a region is present and certifies this robot and scene. */
  predicate CertificateUsable(atlas: SafeAtlas, i: nat)
    requires i < |atlas.regions|
  {
    && atlas.regions[i].certificateIndex < |atlas.certificates|
    && atlas.certificates[atlas.regions[i].certificateIndex].level == CertifiedRegion
    && atlas.certificates[atlas.regions[i].certificateIndex].robotDigest == atlas.robotDigest
    && atlas.certificates[atlas.regions[i].certificateIndex].sceneDigest == atlas.sceneDigest
  }

  function CertificateOf(atlas: SafeAtlas, i: nat): Certificate
    requires i < |atlas.regions| && CertificateUsable(atlas, i)
  {
    atlas.certificates[atlas.regions[i].certificateIndex]
  }

  /** Every certificate along the chain is usable, and all have one obstacle padding. */
  predicate EvidenceUsable(atlas: SafeAtlas, p: seq<nat>)
    requires forall k :: 0 <= k < |p| ==> p[k] < |atlas.regions|
  {
    && (forall k :: 0 <= k < |p| ==> CertificateUsable(atlas, p[k]))
    && (forall k :: 0 <= k < |p| ==>
          CertificateOf(atlas, p[k]).policy.obstaclePadding == CertificateOf(atlas, p[0]).policy.obstaclePadding)
  }

  /** The least clearance along the chain. */
  function ChainClearance(atlas: SafeAtlas, p: seq<nat>): (clearance: real)
    requires p != [] && (forall k :: 0 <= k < |p| ==> p[k] < |atlas.regions|) && EvidenceUsable(atlas, p)
    ensures forall k :: 0 <= k < |p| ==> clearance <= CertificateOf(atlas, p[k]).clearance
    ensures exists k :: 0 <= k < |p| && clearance == CertificateOf(atlas, p[k]).clearance
  {
    if |p| == 1 then CertificateOf(atlas, p[0]).clearance
    else
      var before := p[..|p| - 1];
      assert EvidenceUsable(atlas, before) by {
        assert before[0] == p[0];
      }
      var clearance := ChainClearance(atlas, before);
      var least := Min(clearance, CertificateOf(atlas, Last(p)).clearance);
      assert exists k :: 0 <= k < |p| && least == CertificateOf(atlas, p[k]).clearance by {
        var k :| 0 <= k < |before| && clearance == CertificateOf(atlas, before[k]).clearance;
        assert before[k] == p[k] && Last(p) == p[|p| - 1];
      }
      least
  }

  function PointTree(q: Point): Json {
    JArray(seq(|q|, i requires 0 <= i < |q| => JNumber(q[i])))
  }

  /** What the connectivity certificate is about: the chain and its polyline. */
  function RouteTree(atlas: SafeAtlas, waypoints: seq<Point>, p: seq<nat>): Json
    requires (forall k :: 0 <= k < |p| ==> p[k] < |atlas.regions|) && EvidenceUsable(atlas, p)
  {
    JObject(map[
      Key.RegionSequence := JArray(seq(|p|, k requires 0 <= k < |p| => JString(Print(atlas.regions[p[k]].id)))),
      Key.RegionCertificates := JArray(seq(|p|, k requires 0 <= k < |p| => JString(CertificateOf(atlas, p[k]).id))),
      Key.RegionBounds := JArray(seq(|p|, k requires 0 <= k < |p| => AxesTree(atlas.regions[p[k]].bounds))),
      Key.Type := JString("atlas-convex-aabb-chain"),
      Key.Waypoints := JArray(seq(|waypoints|, k requires 0 <= k < |waypoints| => PointTree(waypoints[k])))])
  }

  lemma {:induction false} PointTreeIsInjective(a: Point, b: Point)
    requires PointTree(a) == PointTree(b)
    ensures a == b
  {
    var s, t := PointTree(a).items, PointTree(b).items;
    assert |a| == |s| && |b| == |t|;
    forall i | 0 <= i < |a| ensures a[i] == b[i] {
      assert s[i] == t[i] && s[i].x == a[i] && t[i].x == b[i];
    }
  }

  /** Two chains have the same region ids, region certificates and boxes. */
  ghost predicate SameChain(a: SafeAtlas, p: seq<nat>, b: SafeAtlas, q: seq<nat>)
    requires (forall k :: 0 <= k < |p| ==> p[k] < |a.regions|) && EvidenceUsable(a, p)
    requires (forall k :: 0 <= k < |q| ==> q[k] < |b.regions|) && EvidenceUsable(b, q)
  {
    && |p| == |q|
    && forall k :: 0 <= k < |p| ==>
         && a.regions[p[k]].id == b.regions[q[k]].id && a.regions[p[k]].bounds == b.regions[q[k]].bounds
         && CertificateOf(a, p[k]).id == CertificateOf(b, q[k]).id
  }

  /** The subject of a route certificate determines the chain and the polyline. */
  lemma {:induction false} RouteTreeDetermines(a: SafeAtlas, v: seq<Point>, p: seq<nat>, b: SafeAtlas, w: seq<Point>,
                                               q: seq<nat>)
    requires (forall k :: 0 <= k < |p| ==> p[k] < |a.regions|) && EvidenceUsable(a, p)
    requires (forall k :: 0 <= k < |q| ==> q[k] < |b.regions|) && EvidenceUsable(b, q)
    requires RouteTree(a, v, p) == RouteTree(b, w, q)
    ensures v == w && SameChain(a, p, b, q)
  {
    var x, y := RouteTree(a, v, p).fields, RouteTree(b, w, q).fields;
    var s, t := x[Key.Waypoints].items, y[Key.Waypoints].items;
    assert x[Key.Waypoints] == y[Key.Waypoints] && |s| == |v| && |t| == |w|;
    forall k | 0 <= k < |v| ensures v[k] == w[k] {
      assert s[k] == PointTree(v[k]) && t[k] == PointTree(w[k]);
      PointTreeIsInjective(v[k], w[k]);
    }
    assert x[Key.RegionSequence] == y[Key.RegionSequence];
    assert x[Key.RegionCertificates] == y[Key.RegionCertificates];
    assert x[Key.RegionBounds] == y[Key.RegionBounds];
    assert |x[Key.RegionSequence].items| == |p| && |y[Key.RegionSequence].items| == |q|;
    forall k | 0 <= k < |p|
      ensures a.regions[p[k]].id == b.regions[q[k]].id && a.regions[p[k]].bounds == b.regions[q[k]].bounds
      ensures CertificateOf(a, p[k]).id == CertificateOf(b, q[k]).id
    {
      SameEntry(a, v, p, b, w, q, k);
    }
  }

  lemma {:induction false} SameEntry(a: SafeAtlas, v: seq<Point>, p: seq<nat>, b: SafeAtlas, w: seq<Point>,
                                     q: seq<nat>, k: nat)
    requires (forall k :: 0 <= k < |p| ==> p[k] < |a.regions|) && EvidenceUsable(a, p)
    requires (forall k :: 0 <= k < |q| ==> q[k] < |b.regions|) && EvidenceUsable(b, q)
    requires RouteTree(a, v, p) == RouteTree(b, w, q) && k < |p| == |q|
    ensures a.regions[p[k]].id == b.regions[q[k]].id && a.regions[p[k]].bounds == b.regions[q[k]].bounds
    ensures CertificateOf(a, p[k]).id == CertificateOf(b, q[k]).id
  {
    var x, y := RouteTree(a, v, p).fields, RouteTree(b, w, q).fields;
    assert x[Key.RegionSequence].items[k] == y[Key.RegionSequence].items[k];
    PrintIsInjective(a.regions[p[k]].id, b.regions[q[k]].id);
    assert x[Key.RegionCertificates].items[k] == y[Key.RegionCertificates].items[k];
    assert x[Key.RegionBounds].items[k] == y[Key.RegionBounds].items[k];
    AxesTreeIsInjective(a.regions[p[k]].bounds, b.regions[q[k]].bounds);
  }

  /** What has been gathered from the first `n` regions of the chain. */
  ghost predicate Gathered(atlas: SafeAtlas, p: seq<nat>, n: nat, clearance: Option<real>, padding: Option<real>)
    requires n <= |p| && forall k :: 0 <= k < |p| ==> p[k] < |atlas.regions|
  {
    && EvidenceUsable(atlas, p[..n])
    && (n == 0 ==> clearance.None? && padding.None?)
    && (n > 0 ==>
        clearance == Some(ChainClearance(atlas, p[..n]))
            && padding == Some(CertificateOf(atlas, p[..n][0]).policy.obstaclePadding))
  }

  lemma {:induction false} GatheredNext(atlas: SafeAtlas, p: seq<nat>, n: nat, clearance: Option<real>,
                                        padding: Option<real>)
    requires n < |p| && forall k :: 0 <= k < |p| ==> p[k] < |atlas.regions|
    requires Gathered(atlas, p, n, clearance, padding) && CertificateUsable(atlas, p[n])
    requires padding.Some? ==> padding.value == CertificateOf(atlas, p[n]).policy.obstaclePadding
    ensures var certificate := CertificateOf(atlas, p[n]);
            Gathered(atlas, p, n + 1,
                     Some(if clearance.None? then certificate.clearance
                              else Min(clearance.value, certificate.clearance)),
                     Some(certificate.policy.obstaclePadding))
  {
    var prefix := p[..n + 1];
    assert prefix[..n] == p[..n] && prefix[n] == p[n];
    forall k | 0 <= k < |prefix|
      ensures CertificateUsable(atlas, prefix[k])
      ensures CertificateOf(atlas, prefix[k]).policy.obstaclePadding
              == CertificateOf(atlas, prefix[0]).policy.obstaclePadding
    {
      if n > 0 {
        assert prefix[0] == p[..n][0] && (k < n ==> prefix[k] == p[..n][k]);
      }
    }
  }

  lemma {:induction false} PaddingDiffers(atlas: SafeAtlas, p: seq<nat>, n: nat, clearance: Option<real>,
                                          padding: Option<real>)
    requires n < |p| && forall k :: 0 <= k < |p| ==> p[k] < |atlas.regions|
    requires Gathered(atlas, p, n, clearance, padding) && padding.Some?
    requires CertificateUsable(atlas, p[n]) && CertificateOf(atlas, p[n]).policy.obstaclePadding != padding.value
    ensures !EvidenceUsable(atlas, p)
  {
    assert p[..n][0] == p[0];
  }

  /** The clearance and padding accumulated along the chain, or an internal error. */
  method CollectEvidence(atlas: SafeAtlas, p: seq<nat>) returns (evidence: Result<(real, real)>)
    requires p != [] && forall k :: 0 <= k < |p| ==> p[k] < |atlas.regions|
    ensures if EvidenceUsable(atlas, p)
            then evidence == Ok((ChainClearance(atlas, p), CertificateOf(atlas, p[0]).policy.obstaclePadding))
            else evidence == Err(InternalError)
  {
    var clearance: Option<real> := None;
    var padding: Option<real> := None;
    for n := 0 to |p|
      invariant Gathered(atlas, p, n, clearance, padding)
    {
      if !CertificateUsable(atlas, p[n]) {
        return Err(InternalError);
      }
      var certificate := CertificateOf(atlas, p[n]);
      ghost var before := clearance;
      clearance := Some(if clearance.None? then certificate.clearance else Min(clearance.value, certificate.clearance));
      if padding.None? {
        GatheredNext(atlas, p, n, before, padding);
        padding := Some(certificate.policy.obstaclePadding);
      } else if certificate.policy.obstaclePadding != padding.value {
        PaddingDiffers(atlas, p, n, before, padding);
        return Err(InternalError);
      } else {
        GatheredNext(atlas, p, n, before, padding);
      }
    }
    assert p[..|p|] == p;
    evidence := Ok((clearance.value, padding.value));
  }

  // ----- the route

  function Polyline(atlas: SafeAtlas, first: Point, second: Point, p: seq<nat>): seq<Point>
    requires |atlas.adjacency| == |atlas.regions| && RegionChain(atlas.regions, atlas.adjacency, p)
  {
    [first] + Witnesses(atlas.regions, p) + [second]
  }

  /** The route along a chain, with its connectivity certificate. */
  function RouteAlong(hash: Hash, atlas: SafeAtlas, first: Point, second: Point, p: seq<nat>): Result<AtlasRoute>
    requires |atlas.adjacency| == |atlas.regions| && RegionChain(atlas.regions, atlas.adjacency, p)
    requires EvidenceUsable(atlas, p)
  {
    var waypoints := Polyline(atlas, first, second, p);
    var certificate :- MakeSubjectCertificate(
      hash, CertifiedConnectivity, atlas.robotDigest, atlas.sceneDigest,
      ValidationPolicy("atlas-convex-aabb-chain", "1", CertificateOf(atlas, p[0]).policy.obstaclePadding),
      hash(RouteTree(atlas, waypoints, p)), ChainClearance(atlas, p));
    Ok(AtlasRoute(waypoints, SequenceOf(atlas, p), certificate))
  }

  /** What a route states about its chain, and its certificate about both: it
      connects, on the atlas's robot and scene, without a parent, at the one
      padding of the chain and its least clearance, and its subject is the digest
      of exactly this chain and polyline. */
  ghost predicate Attests(hash: Hash, atlas: SafeAtlas, first: Point, second: Point, p: seq<nat>, route: AtlasRoute)
    requires p != [] && (forall k :: 0 <= k < |p| ==> p[k] < |atlas.regions|) && EvidenceUsable(atlas, p)
  {
    var c := route.certificate;
    && c.level == CertifiedConnectivity && c.robotDigest == atlas.robotDigest && c.sceneDigest == atlas.sceneDigest
    && c.parentId == "" && c.transitionDigest == "" && c.id == Identity(hash, c)
    && c.policy.algorithm == "atlas-convex-aabb-chain" && c.policy.algorithmVersion == "1"
    && (forall k :: 0 <= k < |p| ==> c.policy.obstaclePadding == CertificateOf(atlas, p[k]).policy.obstaclePadding)
    && (forall k :: 0 <= k < |p| ==> c.clearance <= CertificateOf(atlas, p[k]).clearance)
    && (exists k :: 0 <= k < |p| && c.clearance == CertificateOf(atlas, p[k]).clearance)
    && c.subjectDigest == hash(RouteTree(atlas, route.waypoints, p))
    && Traces(atlas, first, second, p, route)
  }

  /** One id a region, and from end to end one waypoint in the middle of what consecutive regions share. */
  ghost predicate Traces(atlas: SafeAtlas, first: Point, second: Point, p: seq<nat>, route: AtlasRoute)
    requires p != [] && forall k :: 0 <= k < |p| ==> p[k] < |atlas.regions|
  {
    && |route.regionSequence| == |p| && |route.waypoints| == |p| + 1
    && (forall k :: 0 <= k < |p| ==> route.regionSequence[k] == atlas.regions[p[k]].id)
    && route.waypoints[0] == first && route.waypoints[|p|] == second
    && (forall k :: 0 < k < |p| ==>
          Amid(route.waypoints[k], atlas.regions[p[k - 1]].bounds, atlas.regions[p[k]].bounds))
  }

  lemma {:induction false} PolylineTraces(atlas: SafeAtlas, first: Point, second: Point, p: seq<nat>, route: AtlasRoute)
    requires |atlas.adjacency| == |atlas.regions| && RegionChain(atlas.regions, atlas.adjacency, p)
    requires route.waypoints == Polyline(atlas, first, second, p) && route.regionSequence == SequenceOf(atlas, p)
    ensures Traces(atlas, first, second, p, route)
  {
    var points := Witnesses(atlas.regions, p);
    forall k | 0 < k < |p|
      ensures Amid(route.waypoints[k], atlas.regions[p[k - 1]].bounds, atlas.regions[p[k]].bounds)
    {
      assert route.waypoints[k] == points[k - 1];
      WitnessIsAmid(atlas.regions[p[k - 1]].bounds, atlas.regions[p[k]].bounds);
    }
  }

  lemma {:induction false} RouteAttests(hash: Hash, atlas: SafeAtlas, first: Point, second: Point, p: seq<nat>,
                                        route: AtlasRoute)
    requires |atlas.adjacency| == |atlas.regions| && RegionChain(atlas.regions, atlas.adjacency, p)
    requires EvidenceUsable(atlas, p) && RouteAlong(hash, atlas, first, second, p) == Ok(route)
    ensures Attests(hash, atlas, first, second, p, route)
  {
    PolylineTraces(atlas, first, second, p, route);
    IdentityIgnoresId(hash, route.certificate, "");
  }

  /** The search problem of a query: starts by id, goals flagged. */
  lemma {:induction false} RouteProblem(atlas: SafeAtlas, first: Point, second: Point, isGoal: seq<bool>)
    requires |atlas.adjacency| == |atlas.regions| == |isGoal| && NeighborsInRange(atlas.adjacency, |atlas.regions|)
    requires forall i :: 0 <= i < |isGoal| ==> (isGoal[i] <==> In(second, atlas.regions[i].bounds))
    ensures var ids := RegionIdsOf(atlas.regions);
            var g := CertifiedGraph(atlas.regions, atlas.adjacency);
            var starts := SortById(ids, Containing(atlas.regions, first, |atlas.regions|));
            && Problem(ids, g, starts, isGoal)
            && (UniqueIds(ids) ==> Ordered(ids, g, starts))
            && (forall p :: Chain(g, starts, isGoal, p) <==> RouteChain(atlas, first, second, p))
  {
    var ids := RegionIdsOf(atlas.regions);
    var g := CertifiedGraph(atlas.regions, atlas.adjacency);
    var containing := Containing(atlas.regions, first, |atlas.regions|);
    var starts := SortById(ids, containing);
    CertifiedGraphWellFormed(atlas.regions, atlas.adjacency);
    ContainingIsExact(atlas.regions, first, |atlas.regions|);
    SortByIdMembers(ids, containing);
    forall k | 0 <= k < |starts| ensures starts[k] < |g| {
      assert starts[k] in containing;
    }
    if UniqueIds(ids) {
      StartsAndListsSorted(atlas, first);
    }
    forall p ensures Chain(g, starts, isGoal, p) <==> RouteChain(atlas, first, second, p) {
      WalkIffRegionChain(atlas.regions, atlas.adjacency, p);
    }
  }

  lemma {:induction false} StartsAndListsSorted(atlas: SafeAtlas, first: Point)
    requires |atlas.adjacency| == |atlas.regions| && NeighborsInRange(atlas.adjacency, |atlas.regions|)
    requires UniqueIds(RegionIdsOf(atlas.regions))
    ensures var ids := RegionIdsOf(atlas.regions);
            var g := CertifiedGraph(atlas.regions, atlas.adjacency);
            var starts := SortById(ids, Containing(atlas.regions, first, |atlas.regions|));
            && (forall k :: 0 <= k < |starts| ==> starts[k] < |ids|)
            && WellFormed(g) && Ordered(ids, g, starts)
  {
    var ids := RegionIdsOf(atlas.regions);
    var g := CertifiedGraph(atlas.regions, atlas.adjacency);
    var containing := Containing(atlas.regions, first, |atlas.regions|);
    CertifiedGraphWellFormed(atlas.regions, atlas.adjacency);
    ContainingIsExact(atlas.regions, first, |atlas.regions|);
    forall k | 0 <= k < |containing| ensures containing[k] < |ids| {
      assert containing[k] in containing;
    }
    SortByIdSorts(ids, containing);
    forall i | 0 <= i < |g| ensures SortedById(ids, g[i]) {
      CertifiedNeighborsSorted(atlas.regions, ids, i, atlas.adjacency[i]);
    }
  }

  /** Without a region at either end there is no chain. */
  lemma {:induction false} NoEndMeansNoChain(atlas: SafeAtlas, first: Point, second: Point)
    requires |atlas.adjacency| == |atlas.regions|
    requires || (forall i :: 0 <= i < |atlas.regions| ==> !In(first, atlas.regions[i].bounds))
             || (forall i :: 0 <= i < |atlas.regions| ==> !In(second, atlas.regions[i].bounds))
    ensures forall p :: !RouteChain(atlas, first, second, p)
  {
  }

  /** No internal error is possible: the tables agree in size, neighbours exist,
      and the evidence along every chain is usable. */
  ghost predicate RouteReady(atlas: SafeAtlas) {
    && |atlas.adjacency| == |atlas.regions| && NeighborsInRange(atlas.adjacency, |atlas.regions|)
    && (forall p :: RegionChain(atlas.regions, atlas.adjacency, p) ==> EvidenceUsable(atlas, p))
  }

  /** Routes from `first` to `second`. The ghost result is the chain taken. */
  method Route(hash: Hash, atlas: SafeAtlas, first: Point, second: Point)
    returns (result: Result<Option<AtlasRoute>>, ghost chain: seq<nat>)
    ensures |first| != atlas.dimension || |second| != atlas.dimension ==> result == Err(DimensionMismatch)
    ensures result == Ok(None) ==>
              |atlas.adjacency| == |atlas.regions| && forall p :: !RouteChain(atlas, first, second, p)
    ensures result.Ok? && result.value.Some? ==>
              && |atlas.adjacency| == |atlas.regions| && RouteChain(atlas, first, second, chain)
              && EvidenceUsable(atlas, chain)
              && RouteAlong(hash, atlas, first, second, chain) == Ok(result.value.value)
              && Attests(hash, atlas, first, second, chain, result.value.value)
              && (UniqueIds(RegionIdsOf(atlas.regions)) ==> LeastRoute(atlas, first, second, chain))
    ensures RouteReady(atlas) && |first| == |second| == atlas.dimension && result.Err? ==>
              RouteChain(atlas, first, second, chain)
                  && RouteAlong(hash, atlas, first, second, chain) == Err(result.code)
  {
    chain := [];
    if |first| != atlas.dimension || |second| != atlas.dimension {
      return Err(DimensionMismatch), chain;
    }
    if |atlas.adjacency| != |atlas.regions| {
      return Err(InternalError), chain;
    }
    var starts, goals := [], [];
    for i := 0 to |atlas.regions|
      invariant starts == Containing(atlas.regions, first, i) && goals == Containing(atlas.regions, second, i)
    {
      if In(first, atlas.regions[i].bounds) {
        starts := starts + [i];
      }
      if In(second, atlas.regions[i].bounds) {
        goals := goals + [i];
      }
    }
    ContainingIsExact(atlas.regions, first, |atlas.regions|);
    ContainingIsExact(atlas.regions, second, |atlas.regions|);
    if starts == [] || goals == [] {
      NoEndMeansNoChain(atlas, first, second);
      return Ok(None), chain;
    }
    var ids := RegionIdsOf(atlas.regions);
    starts := SortById(ids, starts);
    var isGoal := seq(|atlas.regions|, i => i in goals);
    var certified := CertifyAdjacency(atlas.regions, atlas.adjacency);
    if certified.Err? {
      return Err(certified.code), chain;
    }
    RouteProblem(atlas, first, second, isGoal);
    var indices := FindChain(ids, certified.value, starts, isGoal);
    chain := indices;
    if indices == [] {
      return Ok(None), chain;
    }
    assert RouteChain(atlas, first, second, chain);
    var points := CollectWitnesses(atlas.regions, indices);
    var evidence := CollectEvidence(atlas, indices);
    if points.Err? || evidence.Err? {
      return Err(InternalError), chain;
    }
    var waypoints := [first] + points.value + [second];
    var certificate := MakeSubjectCertificate(
      hash, CertifiedConnectivity, atlas.robotDigest, atlas.sceneDigest,
      ValidationPolicy("atlas-convex-aabb-chain", "1", evidence.value.1),
      hash(RouteTree(atlas, waypoints, indices)), evidence.value.0);
    if certificate.Err? {
      return Err(certificate.code), chain;
    }
    var route := AtlasRoute(waypoints, SequenceOf(atlas, indices), certificate.value);
    RouteAttests(hash, atlas, first, second, indices, route);
    result := Ok(Some(route));
  }
}
