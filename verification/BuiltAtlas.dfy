/** What every atlas produced by a build is known to be: certified and aligned
    tables, full coverage, merge fixpoint, consistent counters, and independence
    of the order, repetition and parallel treatment of its samples. */
module BuiltAtlas {
  import opened Support
  import opened Sequences
  import opened Boxes
  import opened Certificates
  import opened Lect
  import opened Refinement
  import opened RefinementInvariants
  import opened ParallelRefinement
  import opened Merging
  import opened RegionIds
  import opened Graphs
  import opened Assembly
  import opened Adjacency
  import opened Routing
  import opened AtlasBuilder

  /** Entry `i` of the tables: certified on its own bounds, with the certificate
      and envelope of exactly that validation. */
  ghost predicate RegionBuilt(hash: Hash, cell: Workcell, padding: real, atlas: SafeAtlas, i: nat)
    requires i < |atlas.regions| == |atlas.certificates| == |atlas.dependencies|
  {
    var region, certificate, dependency := atlas.regions[i], atlas.certificates[i], atlas.dependencies[i];
    var validation := RegionValidation(CertifiedFree, certificate.clearance, dependency.envelope);
    && region.certificateIndex == i && dependency.regionId == region.id
    && ValidBox(region.bounds) && |region.bounds| == |cell.domain|
    && cell.validate(region.bounds) == Ok(validation)
    && MakeRegionCertificate(hash, cell, region.bounds, validation, padding) == Ok(certificate)
  }

  /** The validator could not certify the box of the repair domain. */
  ghost predicate RepairBuilt(cell: Workcell, domain: RepairDomain) {
    && ValidBox(domain.bounds) && |domain.bounds| == |cell.domain|
    && cell.validate(domain.bounds).Ok? && cell.validate(domain.bounds).value.disposition == Undetermined
  }

  /** Repair domains are listed by strictly increasing id and all undetermined. */
  ghost predicate RepairsBuilt(cell: Workcell, domains: seq<RepairDomain>) {
    && (forall i, j :: 0 <= i < j < |domains| ==> domains[i].id < domains[j].id)
    && (forall i :: 0 <= i < |domains| ==> RepairBuilt(cell, domains[i]))
  }

  /** The promise of a successful build. */
  ghost predicate Built(hash: Hash, cell: Workcell, options: BuildOptions, atlas: SafeAtlas) {
    && options.adjacencyTolerance >= 0.0
    && atlas.dimension == |cell.domain| && atlas.robotDigest == cell.robotDigest
    && atlas.sceneDigest == cell.sceneDigest
    && |atlas.regions| == |atlas.certificates| == |atlas.dependencies| == |atlas.adjacency|
    && (forall i, j :: 0 <= i < j < |atlas.regions| ==> atlas.regions[i].id < atlas.regions[j].id)
    && (forall i :: 0 <= i < |atlas.regions| ==> RegionBuilt(hash, cell, options.obstaclePadding, atlas, i))
    && Graphs.WellFormed(atlas.adjacency) && Symmetric(atlas.adjacency)
    && (forall i, j: nat {:trigger j in atlas.adjacency[i]} :: 0 <= i < |atlas.regions| ==>
          (j in atlas.adjacency[i] <==>
           j < |atlas.regions| && Adjacent(atlas.regions, options.adjacencyTolerance, i, j)))
    && (forall i :: 0 <= i < |atlas.regions| ==> atlas.regions[i].component == Label(atlas.adjacency, i))
    && RepairsBuilt(cell, atlas.repairDomains)
  }

  // ----- from refinement to tables

  lemma {:induction false} PendingCertified(r: Refiner, root: Box, st: RefineState)
    requires Refined(r, root, st)
    ensures AllCertified(r.validate, |root|, SortBySource(st.pending)) && SourcesSorted(SortBySource(st.pending))
    ensures forall x :: x in SortBySource(st.pending) <==> x in st.pending
  {
    RefinedSourcesDistinct(r, root, st);
    forall i, j | 0 <= i < j < |st.pending| ensures st.pending[i].source != st.pending[j].source {
      assert PendingKeys(st.pending)[i] != PendingKeys(st.pending)[j];
    }
    SortedSources(st.pending);
    var sorted := SortBySource(st.pending);
    forall i | 0 <= i < |sorted| ensures Certified(r.validate, sorted[i]) && |sorted[i].bounds| == |root| {
      assert sorted[i] in st.pending;
      assert PendingOk(r, st.tree, sorted[i]);
      assert NodeOk(st.tree, sorted[i].source);
    }
  }

  lemma {:induction false} UnresolvedUndetermined(r: Refiner, cell: Workcell, st: RefineState)
    requires Refined(r, cell.domain, st) && r.validate == cell.validate
    ensures forall k :: 0 <= k < |st.unresolved| ==> RepairBuilt(cell, st.unresolved[k])
  {
    forall k | 0 <= k < |st.unresolved| ensures RepairBuilt(cell, st.unresolved[k]) {
      assert UnresolvedOk(r, st.tree, st.unresolved[k]);
      assert NodeOk(st.tree, st.unresolved[k].source);
    }
  }

  lemma {:induction false} RepairsListed(hash: Hash, cell: Workcell, unresolved: seq<RepairDomain>)
    requires IsSha256(hash) && |unresolved| <= TWO_TO_THE_64
    requires forall k :: 0 <= k < |unresolved| ==> RepairBuilt(cell, unresolved[k])
    ensures RepairsBuilt(cell, RepairDomainsFor(hash, cell, unresolved))
  {
    var domains := RepairDomainsFor(hash, cell, unresolved);
    RepairDomainsAreCanonical(hash, cell, unresolved);
    forall i | 0 <= i < |domains| ensures RepairBuilt(cell, domains[i]) {
      assert Renames(unresolved, domains[i]);
      var k :| 0 <= k < |unresolved| && unresolved[k].bounds == domains[i].bounds
          && unresolved[k].source == domains[i].source;
      assert RepairBuilt(cell, unresolved[k]);
    }
  }

  /** The graph made from a catalog is canonical, and its labels are stored. */
  lemma {:induction false} GraphTables(hash: Hash, cell: Workcell, options: BuildOptions, merged: seq<PendingRegion>,
                                       unresolved: seq<RepairDomain>)
    requires IsSha256(hash) && |merged| <= TWO_TO_THE_64 && |unresolved| <= TWO_TO_THE_64
    requires AtlasFor(hash, cell, options, merged, unresolved).Ok?
    ensures var atlas := AtlasFor(hash, cell, options, merged, unresolved).value;
            && |atlas.adjacency| == |atlas.regions| && Graphs.WellFormed(atlas.adjacency) && Symmetric(atlas.adjacency)
            && (forall i, j: nat {:trigger j in atlas.adjacency[i]} :: 0 <= i < |atlas.regions| ==>
                  (j in atlas.adjacency[i] <==>
                   j < |atlas.regions| && Adjacent(atlas.regions, options.adjacencyTolerance, i, j)))
            && (forall i :: 0 <= i < |atlas.regions| ==> atlas.regions[i].component == Label(atlas.adjacency, i))
  {
    var catalog := CatalogFor(hash, cell, options.obstaclePadding, merged).value;
    var atlas := AtlasFor(hash, cell, options, merged, unresolved).value;
    AdjacencyIsCanonical(catalog.regions, options.adjacencyTolerance);
    forall i, j: nat | 0 <= i < |atlas.regions|
      ensures j in atlas.adjacency[i] <==>
                j < |atlas.regions| && Adjacent(atlas.regions, options.adjacencyTolerance, i, j)
    {
      NeighborsAreExact(catalog.regions, options.adjacencyTolerance, i, |catalog.regions|);
    }
  }

  lemma {:induction false} AtlasTables(hash: Hash, cell: Workcell, options: BuildOptions, merged: seq<PendingRegion>,
                                       unresolved: seq<RepairDomain>)
    requires IsSha256(hash) && |merged| <= TWO_TO_THE_64 && |unresolved| <= TWO_TO_THE_64
    requires options.adjacencyTolerance >= 0.0 && AllCertified(cell.validate, |cell.domain|, merged)
    requires forall k :: 0 <= k < |unresolved| ==> RepairBuilt(cell, unresolved[k])
    requires AtlasFor(hash, cell, options, merged, unresolved).Ok?
    ensures Built(hash, cell, options, AtlasFor(hash, cell, options, merged, unresolved).value)
  {
    var catalog := CatalogFor(hash, cell, options.obstaclePadding, merged).value;
    var atlas := AtlasFor(hash, cell, options, merged, unresolved).value;
    CatalogIsAligned(hash, cell, options.obstaclePadding, merged);
    GraphTables(hash, cell, options, merged, unresolved);
    RepairsListed(hash, cell, unresolved);
    forall i | 0 <= i < |atlas.regions| ensures RegionBuilt(hash, cell, options.obstaclePadding, atlas, i) {
      EntryBuilt(hash, cell, options.obstaclePadding, merged, catalog, atlas, i);
    }
  }

  lemma {:induction false} EntryBuilt(hash: Hash, cell: Workcell, padding: real, merged: seq<PendingRegion>,
                                      catalog: Catalog, atlas: SafeAtlas, i: nat)
    requires AllCertified(cell.validate, |cell.domain|, merged) && CatalogOk(hash, cell, padding, merged, catalog)
    requires |atlas.adjacency| == |catalog.regions| && atlas.regions == WithComponents(catalog.regions, atlas.adjacency)
    requires atlas.certificates == catalog.certificates && atlas.dependencies == catalog.dependencies
    requires i < |catalog.regions|
    ensures RegionBuilt(hash, cell, padding, atlas, i)
  {
    assert HasOrigin(hash, cell, padding, merged, catalog, i);
    var k :| 0 <= k < |merged| && MadeFrom(hash, cell, padding, merged[k], catalog, i);
    assert Certified(cell.validate, merged[k]);
    IdentityIgnoresId(hash, catalog.certificates[i], "");
  }

  /** A build succeeds when every stage does. */
  lemma {:induction false} BuildUnfolds(hash: Hash, cell: Workcell, samples: seq<Point>, options: BuildOptions,
                                        cancelled: nat -> bool)
    returns (refined: RefineState, merged: seq<PendingRegion>)
    requires IsSha256(hash) && BuildOf(hash, cell, samples, options, cancelled).Ok?
    ensures ValidOptions(options) && samples != [] && SampleFailure(cell.domain, samples).None?
    ensures RefinedState(cell, samples, options, cancelled) == Ok(refined)
    ensures MergeAll(cell.validate, options.adjacencyTolerance, SortBySource(refined.pending)) == Ok(merged)
    ensures |merged| <= TWO_TO_THE_64 && |refined.unresolved| <= TWO_TO_THE_64
    ensures var result := BuildOf(hash, cell, samples, options, cancelled).value;
            && AtlasFor(hash, cell, options, merged, refined.unresolved) == Ok(result.atlas)
            && result.stats == BuildStats(|samples|, |UniqueSamples(samples)|, refined.visited, |refined.pending|,
                                          |refined.unresolved|, |refined.pending| - |merged|)
  {
    refined := RefinedState(cell, samples, options, cancelled).value;
    RefinedStateRefined(cell, samples, options, cancelled);
    SortKeepsCount(refined.pending);
    merged := MergeAll(cell.validate, options.adjacencyTolerance, SortBySource(refined.pending)).value;
    MergeShrinks(cell.validate, options.adjacencyTolerance, SortBySource(refined.pending));
  }

  /** The refinement of admitted samples is finished, and its regions are certified. */
  lemma {:induction false} RefinedStage(cell: Workcell, samples: seq<Point>, options: BuildOptions,
                                        cancelled: nat -> bool, refined: RefineState)
    requires ValidOptions(options) && samples != [] && SampleFailure(cell.domain, samples).None?
    requires RefinedState(cell, samples, options, cancelled) == Ok(refined)
    ensures Refined(RefinerFor(cell, samples, options, cancelled), cell.domain, refined)
    ensures AllCertified(cell.validate, |cell.domain|, SortBySource(refined.pending))
            && SourcesSorted(SortBySource(refined.pending))
    ensures forall x :: x in SortBySource(refined.pending) <==> x in refined.pending
  {
    RefinedStateRefined(cell, samples, options, cancelled);
    PendingCertified(RefinerFor(cell, samples, options, cancelled), cell.domain, refined);
  }

  /** Every successful build delivers certified, sorted and aligned tables, the
      exact adjacency graph and its component labels, and undetermined repair
      domains by increasing id. */
  lemma {:induction false} BuildIsBuilt(hash: Hash, cell: Workcell, samples: seq<Point>, options: BuildOptions,
                                        cancelled: nat -> bool)
    requires IsSha256(hash) && BuildOf(hash, cell, samples, options, cancelled).Ok?
    ensures Built(hash, cell, options, BuildOf(hash, cell, samples, options, cancelled).value.atlas)
  {
    var refined, merged := BuildUnfolds(hash, cell, samples, options, cancelled);
    RefinedStage(cell, samples, options, cancelled, refined);
    UnresolvedUndetermined(RefinerFor(cell, samples, options, cancelled), cell, refined);
    MergedRegions(cell.validate, |cell.domain|, options.adjacencyTolerance, SortBySource(refined.pending));
    AtlasTables(hash, cell, options, merged, refined.unresolved);
  }

  // ----- coverage

  lemma {:induction false} ListedBounds(hash: Hash, cell: Workcell, options: BuildOptions, merged: seq<PendingRegion>,
                                        unresolved: seq<RepairDomain>, k: nat)
    requires IsSha256(hash) && |merged| <= TWO_TO_THE_64 && |unresolved| <= TWO_TO_THE_64
    requires AtlasFor(hash, cell, options, merged, unresolved).Ok? && k < |merged|
    ensures var atlas := AtlasFor(hash, cell, options, merged, unresolved).value;
            exists i :: 0 <= i < |atlas.regions| && atlas.regions[i].bounds == merged[k].bounds
                && atlas.regions[i].source == merged[k].source
  {
    var catalog := CatalogFor(hash, cell, options.obstaclePadding, merged).value;
    var atlas := AtlasFor(hash, cell, options, merged, unresolved).value;
    CatalogIsAligned(hash, cell, options.obstaclePadding, merged);
    assert IsListed(hash, cell, options.obstaclePadding, merged[k], catalog);
    var i :| 0 <= i < |catalog.regions| && MadeFrom(hash, cell, options.obstaclePadding, merged[k], catalog, i);
    assert atlas.regions[i].bounds == merged[k].bounds;
  }

  lemma {:induction false} RepairListed(hash: Hash, cell: Workcell, unresolved: seq<RepairDomain>, k: nat)
    requires IsSha256(hash) && |unresolved| <= TWO_TO_THE_64 && k < |unresolved|
    ensures exists i :: 0 <= i < |RepairDomainsFor(hash, cell, unresolved)|
                        && RepairDomainsFor(hash, cell, unresolved)[i].bounds == unresolved[k].bounds
                        && RepairDomainsFor(hash, cell, unresolved)[i].source == unresolved[k].source
  {
    RepairDomainsAreCanonical(hash, cell, unresolved);
    assert Renames(RepairDomainsFor(hash, cell, unresolved), unresolved[k]);
  }

  /** Some region contains the configuration, up to the slack. */
  ghost predicate InRegion(atlas: SafeAtlas, q: Point, slack: real) {
    exists i :: 0 <= i < |atlas.regions| && Contains(atlas.regions[i].bounds, q, slack)
  }

  /** A leaf certified by the refinement is inside some region of the built atlas. */
  lemma {:induction false} PendingListed(hash: Hash, cell: Workcell, options: BuildOptions, refined: RefineState,
                                         merged: seq<PendingRegion>, k: nat, q: Point, slack: real)
    requires IsSha256(hash) && AllCertified(cell.validate, |cell.domain|, SortBySource(refined.pending))
    requires forall x :: x in SortBySource(refined.pending) <==> x in refined.pending
    requires SourcesSorted(SortBySource(refined.pending))
    requires MergeAll(cell.validate, options.adjacencyTolerance, SortBySource(refined.pending)) == Ok(merged)
    requires |merged| <= TWO_TO_THE_64 && |refined.unresolved| <= TWO_TO_THE_64
    requires AtlasFor(hash, cell, options, merged, refined.unresolved).Ok?
    requires k < |refined.pending| && Contains(refined.pending[k].bounds, q, slack)
    ensures InRegion(AtlasFor(hash, cell, options, merged, refined.unresolved).value, q, slack)
  {
    var sorted := SortBySource(refined.pending);
    assert refined.pending[k] in sorted;
    assert CoveredBy(sorted, q, slack);
    MergedCoverage(cell.validate, |cell.domain|, options.adjacencyTolerance, sorted, q, slack);
    var m :| 0 <= m < |merged| && Contains(merged[m].bounds, q, slack);
    ListedBounds(hash, cell, options, merged, refined.unresolved, m);
  }

  /** Every configuration of the robot's domain is in a certified region or in a repair domain. */
  lemma {:induction false} BuildCovers(hash: Hash, cell: Workcell, samples: seq<Point>, options: BuildOptions,
                                       cancelled: nat -> bool, q: Point)
    requires IsSha256(hash) && BuildOf(hash, cell, samples, options, cancelled).Ok? && In(q, cell.domain)
    ensures var atlas := BuildOf(hash, cell, samples, options, cancelled).value.atlas;
            || (exists i :: 0 <= i < |atlas.regions| && In(q, atlas.regions[i].bounds))
            || (exists i :: 0 <= i < |atlas.repairDomains| && In(q, atlas.repairDomains[i].bounds))
  {
    var refined, merged := BuildUnfolds(hash, cell, samples, options, cancelled);
    RefinedStage(cell, samples, options, cancelled, refined);
    var r := RefinerFor(cell, samples, options, cancelled);
    RefinedCovers(r, cell.domain, refined, q);
    if k :| 0 <= k < |refined.pending| && In(q, refined.pending[k].bounds) {
      PendingListed(hash, cell, options, refined, merged, k, q, 0.0);
    } else {
      var i :| 0 <= i < |refined.unresolved| && In(q, refined.unresolved[i].bounds);
      RepairListed(hash, cell, refined.unresolved, i);
    }
  }

  /** The repair domain could not be refined further. */
  predicate IsExhausted(cell: Workcell, options: BuildOptions, domain: RepairDomain) {
    || domain.source.Depth() >= options.maximumDepth
    || (ValidRoot(cell.domain) && |domain.bounds| == |cell.domain|
        && Unsplittable(cell.domain, options.minimumNormalizedWidth, domain.bounds))
  }

  /** Some repair domain that could not be refined further contains the configuration, up to the slack. */
  ghost predicate InExhausted(cell: Workcell, options: BuildOptions, atlas: SafeAtlas, q: Point, slack: real) {
    exists i :: 0 <= i < |atlas.repairDomains| && Contains(atlas.repairDomains[i].bounds, q, slack)
                && IsExhausted(cell, options, atlas.repairDomains[i])
  }

  /** An exhausted leaf is listed among the repair domains. */
  lemma {:induction false} ExhaustedListed(hash: Hash, cell: Workcell, options: BuildOptions,
                                           merged: seq<PendingRegion>, unresolved: seq<RepairDomain>, k: nat, q: Point,
                                           slack: real)
    requires IsSha256(hash) && |merged| <= TWO_TO_THE_64 && |unresolved| <= TWO_TO_THE_64
    requires AtlasFor(hash, cell, options, merged, unresolved).Ok?
    requires k < |unresolved| && Contains(unresolved[k].bounds, q, slack) && IsExhausted(cell, options, unresolved[k])
    ensures InExhausted(cell, options, AtlasFor(hash, cell, options, merged, unresolved).value, q, slack)
  {
    RepairListed(hash, cell, unresolved, k);
    var domains := RepairDomainsFor(hash, cell, unresolved);
    var i :| 0 <= i < |domains| && domains[i].bounds == unresolved[k].bounds
        && domains[i].source == unresolved[k].source;
    assert IsExhausted(cell, options, domains[i]);
  }

  /** A sample within the domain up to the slack ends, within the same slack, in
      a certified region or in a repair domain that could not be refined further. */
  lemma {:induction false} BuildResolvesWithin(hash: Hash, cell: Workcell, samples: seq<Point>, options: BuildOptions,
                                               cancelled: nat -> bool, q: Point, slack: real)
    requires IsSha256(hash) && BuildOf(hash, cell, samples, options, cancelled).Ok?
    requires q in samples && slack >= 0.0 && Contains(cell.domain, q, slack)
    ensures var atlas := BuildOf(hash, cell, samples, options, cancelled).value.atlas;
            InRegion(atlas, q, slack) || InExhausted(cell, options, atlas, q, slack)
  {
    var refined, merged := BuildUnfolds(hash, cell, samples, options, cancelled);
    RefinedStage(cell, samples, options, cancelled, refined);
    var r := RefinerFor(cell, samples, options, cancelled);
    UniqueSamplesSorted(samples);
    assert q in r.samples;
    var s :| 0 <= s < |r.samples| && r.samples[s] == q;
    var key := RefinedSamples(r, cell.domain, refined, s, slack);
    LeafHasOutcome(r, cell.domain, refined, key);
    if k :| 0 <= k < |refined.pending| && refined.pending[k].source == key
            && refined.pending[k].bounds == refined.tree.nodes[key].box {
      PendingListed(hash, cell, options, refined, merged, k, q, slack);
    } else {
      var u :| 0 <= u < |refined.unresolved| && refined.unresolved[u].source == key
          && refined.unresolved[u].bounds == refined.tree.nodes[key].box;
      ExhaustedListed(hash, cell, options, merged, refined.unresolved, u, q, slack);
    }
  }

  /** Every sample of a successful build is, up to the slack it was admitted
      with, in a certified region, or in a repair domain at the maximum depth or
      too narrow to bisect; a sample inside the domain is so without any slack. */
  lemma {:induction false} BuildResolvesSamples(hash: Hash, cell: Workcell, samples: seq<Point>, options: BuildOptions,
                                                cancelled: nat -> bool, q: Point)
    requires IsSha256(hash) && BuildOf(hash, cell, samples, options, cancelled).Ok? && q in samples
    ensures var atlas := BuildOf(hash, cell, samples, options, cancelled).value.atlas;
            && (InRegion(atlas, q, SAMPLE_SLACK) || InExhausted(cell, options, atlas, q, SAMPLE_SLACK))
            && (In(q, cell.domain) ==> InRegion(atlas, q, 0.0) || InExhausted(cell, options, atlas, q, 0.0))
  {
    SamplesAdmissible(cell.domain, samples);
    assert AdmissibleSample(cell.domain, q);
    BuildResolvesWithin(hash, cell, samples, options, cancelled, q, SAMPLE_SLACK);
    if In(q, cell.domain) {
      BuildResolvesWithin(hash, cell, samples, options, cancelled, q, 0.0);
    }
  }

  /** No two regions of a built atlas could still be merged. */
  lemma {:induction false} BuildIsMerged(hash: Hash, cell: Workcell, samples: seq<Point>, options: BuildOptions,
                                         cancelled: nat -> bool, i: nat, j: nat)
    requires IsSha256(hash) && BuildOf(hash, cell, samples, options, cancelled).Ok?
    requires i < |BuildOf(hash, cell, samples, options, cancelled).value.atlas.regions|
    requires j < |BuildOf(hash, cell, samples, options, cancelled).value.atlas.regions| && i != j
    ensures var regions := BuildOf(hash, cell, samples, options, cancelled).value.atlas.regions;
            var joined := UnionOf(regions[i].bounds, regions[j].bounds, options.adjacencyTolerance);
            joined.Some? ==>
                cell.validate(joined.value).Ok? && cell.validate(joined.value).value.disposition == Undetermined
  {
    var refined, merged := BuildUnfolds(hash, cell, samples, options, cancelled);
    RefinedStage(cell, samples, options, cancelled, refined);
    var tolerance := options.adjacencyTolerance;
    var regions := BuildOf(hash, cell, samples, options, cancelled).value.atlas.regions;
    MergedRegions(cell.validate, |cell.domain|, tolerance, SortBySource(refined.pending));
    var a, b := OriginIndices(hash, cell, options, merged, refined.unresolved, i, j);
    UnionIsSymmetric(regions[i].bounds, regions[j].bounds, tolerance);
    if a < b {
      assert NotMergeable(cell.validate, tolerance, merged[a], merged[b]);
    } else {
      assert NotMergeable(cell.validate, tolerance, merged[b], merged[a]);
    }
  }

  lemma {:induction false} UnionIsSymmetric(a: Box, b: Box, tolerance: real)
    ensures UnionOf(a, b, tolerance) == UnionOf(b, a, tolerance)
  {
    if |a| == |b| {
      assert forall i :: 0 <= i < |a| ==> SameAxis(a[i], b[i], tolerance) == SameAxis(b[i], a[i], tolerance);
      assert forall i :: 0 <= i < |a| ==> a[i].Overlaps(b[i], tolerance) == b[i].Overlaps(a[i], tolerance);
      assert Hull(a, b) == Hull(b, a);
    }
  }

  /** Two different regions come from two different merged regions. */
  lemma {:induction false} OriginIndices(hash: Hash, cell: Workcell, options: BuildOptions, merged: seq<PendingRegion>,
                                         unresolved: seq<RepairDomain>, i: nat, j: nat)
    returns (a: nat, b: nat)
    requires IsSha256(hash) && |merged| <= TWO_TO_THE_64 && |unresolved| <= TWO_TO_THE_64
    requires AtlasFor(hash, cell, options, merged, unresolved).Ok?
    requires var regions := AtlasFor(hash, cell, options, merged, unresolved).value.regions;
             i < |regions| && j < |regions| && i != j
    ensures var regions := AtlasFor(hash, cell, options, merged, unresolved).value.regions;
            && a < |merged| && b < |merged| && a != b
            && regions[i].bounds == merged[a].bounds && regions[j].bounds == merged[b].bounds
  {
    var ids := AssignIds(WantedIds(hash, cell, merged));
    var sorted := Sort(IdLe, UnsortedRegions(merged, ids));
    SortedIndices(merged, ids);
    AssignedAreDistinct(WantedIds(hash, cell, merged));
    DistinctRegions(merged, ids);
    a, b := sorted[i].certificateIndex, sorted[j].certificateIndex;
    assert sorted[i] == UnsortedRegions(merged, ids)[a] && sorted[j] == UnsortedRegions(merged, ids)[b];
    assert sorted[i].id != sorted[j].id by {
      if i < j {
        assert sorted[i].id < sorted[j].id;
      } else {
        assert sorted[j].id < sorted[i].id;
      }
    }
  }

  /** The counters add up: each node visited once within the budget, one more
      leaf than branches, and every certified leaf is a region or was merged. */
  lemma {:induction false} BuildCounts(hash: Hash, cell: Workcell, samples: seq<Point>, options: BuildOptions,
                                       cancelled: nat -> bool)
    requires IsSha256(hash) && BuildOf(hash, cell, samples, options, cancelled).Ok?
    ensures var result := BuildOf(hash, cell, samples, options, cancelled).value;
            && result.stats.nodesVisited <= options.maximumNodes
            && 2 * (result.stats.certifiedNodes + result.stats.unresolvedNodes) == result.stats.nodesVisited + 1
            && result.stats.certifiedNodes == |result.atlas.regions| + result.stats.mergedRegions
            && result.stats.unresolvedNodes == |result.atlas.repairDomains|
            && result.stats.inputSamples == |samples| && result.stats.uniqueSamples == |Members(samples)|
  {
    var refined, merged := BuildUnfolds(hash, cell, samples, options, cancelled);
    RefinedStage(cell, samples, options, cancelled, refined);
    RefinedCounts(RefinerFor(cell, samples, options, cancelled), cell.domain, refined);
    CatalogIsAligned(hash, cell, options.obstaclePadding, merged);
    RepairDomainsAreCanonical(hash, cell, refined.unresolved);
    UniqueSamplesCount(samples);
  }

  lemma {:induction false} UniqueSamplesCount(samples: seq<Point>)
    ensures |UniqueSamples(samples)| == |Members(samples)|
  {
    UniqueSamplesSorted(samples);
    MembersSize(UniqueSamples(samples));
    assert Members(UniqueSamples(samples)) == Members(samples);
  }

  // ----- determinism

  lemma {:induction false} SameRefinement(cell: Workcell, a: seq<Point>, b: seq<Point>, options: BuildOptions,
                                          threads: int, cancelled: nat -> bool)
    requires ValidOptions(options) && threads >= 1 && a != [] && b != []
    requires SampleFailure(cell.domain, a).None? && SampleFailure(cell.domain, b).None?
    requires forall q :: q in a <==> q in b
    ensures var other := options.(threads := threads);
            && (RefinedState(cell, a, options, cancelled).Ok? <==> RefinedState(cell, b, other, cancelled).Ok?)
            && (RefinedState(cell, a, options, cancelled).Ok? ==>
                  RefinedState(cell, a, options, cancelled) == RefinedState(cell, b, other, cancelled))
  {
    var other := options.(threads := threads);
    UniqueSamplesDependOnSet(a, b);
    var tree := Create(cell.domain, options.minimumNormalizedWidth);
    if tree.Ok? {
      BuildRefines(cell, a, options, cancelled, tree.value);
      BuildRefines(cell, b, other, cancelled, tree.value);
      var r := RefinerFor(cell, a, options, cancelled);
      assert RefinerFor(cell, b, other, cancelled) == WithThreads(r, threads);
      var start := InitialState(tree.value, r.samples);
      ThreadsAgree(r, threads, start, start);
    }
  }

  lemma {:induction false} AtlasIgnoresThreads(hash: Hash, cell: Workcell, options: BuildOptions, threads: int,
                                               merged: seq<PendingRegion>, unresolved: seq<RepairDomain>)
    requires IsSha256(hash) && |merged| <= TWO_TO_THE_64 && |unresolved| <= TWO_TO_THE_64
    ensures AtlasFor(hash, cell, options.(threads := threads), merged, unresolved)
            == AtlasFor(hash, cell, options, merged, unresolved)
  {
  }

  /** The same verdict, atlas, and counters, the number of input samples aside. */
  ghost predicate SameBuild(x: Result<AtlasBuildResult>, y: Result<AtlasBuildResult>) {
    && (x.Ok? <==> y.Ok?)
    && (x.Ok? ==>
        x.value.atlas == y.value.atlas && x.value.stats.(inputSamples := 0) == y.value.stats.(inputSamples := 0))
  }

  lemma {:induction false} CompletedAgrees(hash: Hash, cell: Workcell, a: seq<Point>, b: seq<Point>,
                                           options: BuildOptions, threads: int, refined: RefineState)
    requires IsSha256(hash) && UniqueSamples(a) == UniqueSamples(b)
    requires |refined.pending| <= options.maximumNodes && |refined.unresolved| <= options.maximumNodes
    ensures SameBuild(Completed(hash, cell, a, options, refined),
                      Completed(hash, cell, b, options.(threads := threads), refined))
  {
    SortKeepsCount(refined.pending);
    var merged := MergeAll(cell.validate, options.adjacencyTolerance, SortBySource(refined.pending));
    if merged.Ok? {
      MergeShrinks(cell.validate, options.adjacencyTolerance, SortBySource(refined.pending));
      AtlasIgnoresThreads(hash, cell, options, threads, merged.value, refined.unresolved);
    }
  }

  /** A build depends on the set of samples only: reordering or repeating them,
      or validating with another number of threads, changes neither its success
      nor the atlas nor any counter but the number of input samples. */
  lemma {:induction false} BuildIsDeterministic(hash: Hash, cell: Workcell, a: seq<Point>, b: seq<Point>,
                                                options: BuildOptions, threads: int, cancelled: nat -> bool)
    requires IsSha256(hash) && options.threads >= 1 && threads >= 1
    requires forall q :: q in a <==> q in b
    ensures SameBuild(BuildOf(hash, cell, a, options, cancelled),
                      BuildOf(hash, cell, b, options.(threads := threads), cancelled))
  {
    HasElement(a);
    HasElement(b);
    SamplesAdmissible(cell.domain, a);
    SamplesAdmissible(cell.domain, b);
    UniqueSamplesDependOnSet(a, b);
    if a != [] && ValidOptions(options) && SampleFailure(cell.domain, a).None? {
      SameRefinement(cell, a, b, options, threads, cancelled);
      var refined := RefinedState(cell, a, options, cancelled);
      if refined.Ok? {
        RefinedStateRefined(cell, a, options, cancelled);
        CompletedAgrees(hash, cell, a, b, options, threads, refined.value);
      }
    }
  }
}
