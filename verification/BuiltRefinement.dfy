/** What a build makes of the exact refinement: its repair domains are the
    undetermined boxes reached and not divisible, its regions come from certified
    ones, and it refines as long as the boxes reached fit the node budget. */
module BuiltRefinement {
  import opened Support
  import opened Sequences
  import opened Boxes
  import opened Certificates
  import opened Lect
  import opened Refinement
  import opened RefinementInvariants
  import opened RefinementExact
  import opened RefinementBudget
  import opened Merging
  import opened Assembly
  import opened AtlasBuilder
  import opened BuiltAtlas

  lemma {:induction false} AdmittedSetUp(cell: Workcell, samples: seq<Point>, options: BuildOptions,
                                         cancelled: nat -> bool, tree: LectTree)
    requires ValidOptions(options) && samples != [] && SampleFailure(cell.domain, samples).None?
    requires Create(cell.domain, options.minimumNormalizedWidth) == Ok(tree)
    ensures var r := RefinerFor(cell, samples, options, cancelled);
            && SetUp(r, cell.domain) && r.samples != []
            && Refining(r, InitialState(tree, r.samples)) && Sane(r, InitialState(tree, r.samples))
  {
    BuildRefines(cell, samples, options, cancelled, tree);
  }

  /** The refinement inside a successful build, with its exact tree. */
  lemma {:induction false} ExactStage(hash: Hash, cell: Workcell, samples: seq<Point>, options: BuildOptions,
                                      cancelled: nat -> bool) returns (refined: RefineState, merged: seq<PendingRegion>)
    requires IsSha256(hash) && BuildOf(hash, cell, samples, options, cancelled).Ok?
    ensures ValidOptions(options) && samples != [] && SampleFailure(cell.domain, samples).None?
    ensures RefinedState(cell, samples, options, cancelled) == Ok(refined)
    ensures MergeAll(cell.validate, options.adjacencyTolerance, SortBySource(refined.pending)) == Ok(merged)
    ensures |merged| <= TWO_TO_THE_64 && |refined.unresolved| <= TWO_TO_THE_64
    ensures var built := BuildOf(hash, cell, samples, options, cancelled).value;
            && AtlasFor(hash, cell, options, merged, refined.unresolved) == Ok(built.atlas)
            && built.stats.nodesVisited == refined.visited
    ensures var r := RefinerFor(cell, samples, options, cancelled);
            && SetUp(r, cell.domain) && Refined(r, cell.domain, refined) && TreeExact(r, cell.domain, refined.tree)
  {
    refined, merged := BuildUnfolds(hash, cell, samples, options, cancelled);
    var tree := Create(cell.domain, options.minimumNormalizedWidth).value;
    AdmittedSetUp(cell, samples, options, cancelled, tree);
    var st := FinishedFrom(RefinerFor(cell, samples, options, cancelled), cell.domain, tree);
  }

  /** The unresolved boxes are listed under their sources. */
  lemma {:induction false} SourcesListed(hash: Hash, cell: Workcell, unresolved: seq<RepairDomain>, key: NodeKey)
    requires IsSha256(hash) && |unresolved| <= TWO_TO_THE_64
    ensures var domains := RepairDomainsFor(hash, cell, unresolved);
            (exists i :: 0 <= i < |domains| && domains[i].source == key) <==>
            (exists k :: 0 <= k < |unresolved| && unresolved[k].source == key)
  {
    var domains := RepairDomainsFor(hash, cell, unresolved);
    RepairDomainsAreCanonical(hash, cell, unresolved);
    if i :| 0 <= i < |domains| && domains[i].source == key {
      assert Renames(unresolved, domains[i]);
    }
    if k :| 0 <= k < |unresolved| && unresolved[k].source == key {
      assert Renames(domains, unresolved[k]);
    }
  }

  /** The repair domains of a build are exactly the boxes reached that are
      undetermined and not divisible. */
  lemma {:induction false} RepairsAreExact(hash: Hash, cell: Workcell, samples: seq<Point>, options: BuildOptions,
                                           cancelled: nat -> bool, key: NodeKey)
    requires IsSha256(hash) && BuildOf(hash, cell, samples, options, cancelled).Ok?
    ensures var atlas := BuildOf(hash, cell, samples, options, cancelled).value.atlas;
            var r := RefinerFor(cell, samples, options, cancelled);
            && SetUp(r, cell.domain)
            && ((exists i :: 0 <= i < |atlas.repairDomains| && atlas.repairDomains[i].source == key) <==>
                && Reached(r, cell.domain, key) && !Divisible(r, cell.domain, key)
                && cell.validate(BoxOf(cell.domain, key)).Ok?
                && cell.validate(BoxOf(cell.domain, key)).value.disposition == Undetermined)
  {
    var refined, merged := ExactStage(hash, cell, samples, options, cancelled);
    OutcomesAreReached(RefinerFor(cell, samples, options, cancelled), cell.domain, refined, key);
    SourcesListed(hash, cell, refined.unresolved, key);
  }

  /** Each repair domain has the box of its source. */
  lemma {:induction false} RepairsHaveTheirBoxes(hash: Hash, cell: Workcell, samples: seq<Point>,
                                                 options: BuildOptions, cancelled: nat -> bool, i: nat)
    requires IsSha256(hash) && BuildOf(hash, cell, samples, options, cancelled).Ok?
    requires i < |BuildOf(hash, cell, samples, options, cancelled).value.atlas.repairDomains|
    ensures var domain := BuildOf(hash, cell, samples, options, cancelled).value.atlas.repairDomains[i];
            ValidRoot(cell.domain) && domain.bounds == BoxOf(cell.domain, domain.source)
  {
    var refined, merged := ExactStage(hash, cell, samples, options, cancelled);
    var domains := RepairDomainsFor(hash, cell, refined.unresolved);
    RepairDomainsAreCanonical(hash, cell, refined.unresolved);
    assert Renames(refined.unresolved, domains[i]);
    var k :| 0 <= k < |refined.unresolved| && refined.unresolved[k].bounds == domains[i].bounds
             && refined.unresolved[k].source == domains[i].source;
    UnresolvedIsLeaf(RefinerFor(cell, samples, options, cancelled), cell.domain, refined, k);
  }

  // ----- regions

  /** The source is that of one of the regions. */
  ghost predicate IsSource(pending: seq<PendingRegion>, key: NodeKey) {
    exists i :: 0 <= i < |pending| && pending[i].source == key
  }

  lemma {:induction false} MergePairKeepsSources(pending: seq<PendingRegion>, scan: Scan, key: NodeKey)
    requires scan.Found? && scan.left < scan.right < |pending| && IsSource(MergePair(pending, scan), key)
    ensures IsSource(pending, key)
  {
    var after := MergePair(pending, scan);
    var i :| 0 <= i < |after| && after[i].source == key;
    if i == scan.left {
      assert key == pending[scan.left].source || key == pending[scan.right].source;
    } else if i < scan.right {
      assert after[i] == pending[i];
    } else {
      assert after[i] == pending[i + 1];
    }
  }

  lemma {:induction false} MergedSources(validate: Validator, tolerance: real, pending: seq<PendingRegion>,
                                         key: NodeKey)
    requires MergeAll(validate, tolerance, pending).Ok? && IsSource(MergeAll(validate, tolerance, pending).value, key)
    ensures IsSource(pending, key)
    decreases |pending|
  {
    var scan := ScanFrom(validate, tolerance, pending, 0, 1);
    if scan.Found? {
      MergedSources(validate, tolerance, MergePair(pending, scan), key);
      MergePairKeepsSources(pending, scan, key);
    }
  }

  /** Each region of a build comes from a certified box that was reached. */
  lemma {:induction false} RegionsComeFromReached(hash: Hash, cell: Workcell, samples: seq<Point>,
                                                  options: BuildOptions, cancelled: nat -> bool, i: nat)
    requires IsSha256(hash) && BuildOf(hash, cell, samples, options, cancelled).Ok?
    requires i < |BuildOf(hash, cell, samples, options, cancelled).value.atlas.regions|
    ensures var key := BuildOf(hash, cell, samples, options, cancelled).value.atlas.regions[i].source;
            var r := RefinerFor(cell, samples, options, cancelled);
            && SetUp(r, cell.domain) && Reached(r, cell.domain, key)
            && cell.validate(BoxOf(cell.domain, key)).Ok?
            && cell.validate(BoxOf(cell.domain, key)).value.disposition == CertifiedFree
  {
    var refined, merged := ExactStage(hash, cell, samples, options, cancelled);
    RefinedStage(cell, samples, options, cancelled, refined);
    var key := BuildOf(hash, cell, samples, options, cancelled).value.atlas.regions[i].source;
    RegionSource(hash, cell, options, merged, refined.unresolved, i);
    MergedSources(cell.validate, options.adjacencyTolerance, SortBySource(refined.pending), key);
    SortedSource(refined.pending, key);
    OutcomesAreReached(RefinerFor(cell, samples, options, cancelled), cell.domain, refined, key);
  }

  lemma {:induction false} SortedSource(pending: seq<PendingRegion>, key: NodeKey)
    requires IsSource(SortBySource(pending), key)
    ensures IsSource(pending, key)
  {
    SortMembers(SourceLe, pending);
    var sorted := SortBySource(pending);
    var i :| 0 <= i < |sorted| && sorted[i].source == key;
    assert sorted[i] in pending;
  }

  lemma {:induction false} RegionSource(hash: Hash, cell: Workcell, options: BuildOptions, merged: seq<PendingRegion>,
                                        unresolved: seq<RepairDomain>, i: nat)
    requires IsSha256(hash) && |merged| <= TWO_TO_THE_64 && |unresolved| <= TWO_TO_THE_64
    requires AtlasFor(hash, cell, options, merged, unresolved).Ok?
    requires i < |AtlasFor(hash, cell, options, merged, unresolved).value.regions|
    ensures IsSource(merged, AtlasFor(hash, cell, options, merged, unresolved).value.regions[i].source)
  {
    var catalog := CatalogFor(hash, cell, options.obstaclePadding, merged).value;
    CatalogIsAligned(hash, cell, options.obstaclePadding, merged);
    assert HasOrigin(hash, cell, options.obstaclePadding, merged, catalog, i);
    var k :| 0 <= k < |merged| && MadeFrom(hash, cell, options.obstaclePadding, merged[k], catalog, i);
  }

  // ----- the node budget

  /** A build visits exactly the boxes reached, uncancelled and within the budget. */
  lemma {:induction false} BuildVisitsReached(hash: Hash, cell: Workcell, samples: seq<Point>, options: BuildOptions,
                                              cancelled: nat -> bool) returns (keys: set<NodeKey>)
    requires IsSha256(hash) && BuildOf(hash, cell, samples, options, cancelled).Ok?
    ensures var r := RefinerFor(cell, samples, options, cancelled);
            && SetUp(r, cell.domain) && AllReached(r, cell.domain, keys) && Undisturbed(r, cell.domain, keys)
            && BuildOf(hash, cell, samples, options, cancelled).value.stats.nodesVisited
                == |keys| <= options.maximumNodes
  {
    var refined, merged := ExactStage(hash, cell, samples, options, cancelled);
    var tree := Create(cell.domain, options.minimumNormalizedWidth).value;
    AdmittedSetUp(cell, samples, options, cancelled, tree);
    keys := SuccessIsWithinBudget(RefinerFor(cell, samples, options, cancelled), cell.domain, tree);
  }

  /** The refinement of admitted samples succeeds exactly when the boxes reached
      fit the budget, are validated without failure, and no visit is cancelled; if
      only the budget is missing it fails with that. */
  lemma {:induction false} BuildRefinesWithinBudget(cell: Workcell, samples: seq<Point>, options: BuildOptions,
                                                    cancelled: nat -> bool)
    requires ValidOptions(options) && samples != [] && SampleFailure(cell.domain, samples).None?
    requires Create(cell.domain, options.minimumNormalizedWidth).Ok?
    ensures var r := RefinerFor(cell, samples, options, cancelled);
            && SetUp(r, cell.domain)
            && (RefinedState(cell, samples, options, cancelled).Ok? <==>
                exists keys ::
                  AllReached(r, cell.domain, keys) && Undisturbed(r, cell.domain, keys) && Fits(r, cell.domain, keys))
            && (forall keys ::
                  AllReached(r, cell.domain, keys) && Undisturbed(r, cell.domain, keys) && !Fits(r, cell.domain, keys)
                  ==> RefinedState(cell, samples, options, cancelled) == Err(ResourceLimit))
  {
    var tree := Create(cell.domain, options.minimumNormalizedWidth).value;
    AdmittedSetUp(cell, samples, options, cancelled, tree);
    SucceedsIffWithinBudget(RefinerFor(cell, samples, options, cancelled), cell.domain, tree);
  }
}
