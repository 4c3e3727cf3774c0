/** Building an atlas: sample admission, refinement, merging, assembly,
    adjacency and component labels, and what the result is known to be. */
module AtlasBuilder {
  import opened Support
  import opened Sequences
  import opened Boxes
  import opened Certificates
  import opened Lect
  import opened Refinement
  import opened RefinementInvariants
  import opened Merging
  import opened Graphs
  import opened Assembly
  import opened Adjacency
  import opened Routing

  datatype BuildStats = BuildStats(
    inputSamples: nat,
    uniqueSamples: nat,
    nodesVisited: nat,
    certifiedNodes: nat,
    unresolvedNodes: nat,
    mergedRegions: nat)

  datatype AtlasBuildResult = AtlasBuildResult(atlas: SafeAtlas, stats: BuildStats)

  // ----- samples

  predicate RealLess(a: real, b: real) {
    a < b
  }

  predicate PointLe(a: Point, b: Point) {
    LexLe(RealLess, a, b)
  }

  /** The samples in lexicographic order, each once. */
  function UniqueSamples(samples: seq<Point>): seq<Point> {
    DropRepeats(Sort(PointLe, samples))
  }

  lemma {:induction false} PointOrder()
    ensures TotalPreorder(PointLe)
    ensures forall a, b :: PointLe(a, b) && PointLe(b, a) ==> a == b
  {
    forall a, b ensures PointLe(a, b) || PointLe(b, a) {
      LexTotal(RealLess, a, b);
    }
    forall a, b, c | PointLe(a, b) && PointLe(b, c) ensures PointLe(a, c) {
      LexTransitive(RealLess, a, b, c);
    }
    forall a, b | PointLe(a, b) && PointLe(b, a) ensures a == b {
      LexAntisymmetric(RealLess, a, b);
    }
  }

  lemma {:induction false} UniqueSamplesSorted(samples: seq<Point>)
    ensures forall q :: q in UniqueSamples(samples) <==> q in samples
    ensures SortedBy(PointLe, UniqueSamples(samples)) && NoDuplicates(UniqueSamples(samples))
  {
    PointOrder();
    SortSorts(PointLe, samples);
    SortMembers(PointLe, samples);
    DropRepeatsKeeps(Sort(PointLe, samples));
    DropRepeatsSorts(PointLe, Sort(PointLe, samples));
  }

  /** Only the set of samples matters: neither their order nor repetitions. */
  lemma {:induction false} UniqueSamplesDependOnSet(a: seq<Point>, b: seq<Point>)
    requires forall q :: q in a <==> q in b
    ensures UniqueSamples(a) == UniqueSamples(b)
  {
    PointOrder();
    UniqueSamplesSorted(a);
    UniqueSamplesSorted(b);
    SortedSetIsUnique(PointLe, UniqueSamples(a), UniqueSamples(b));
  }

  predicate ValidOptions(options: BuildOptions) {
    && 0 < options.maximumDepth <= 4096 && options.maximumNodes >= 1
    && 0.0 <= options.minimumNormalizedWidth < 1.0
    && options.adjacencyTolerance >= 0.0 && options.obstaclePadding >= 0.0 && options.threads >= 1
  }

  predicate AdmissibleSample(domain: Box, q: Point) {
    |q| == |domain| && Contains(domain, q, SAMPLE_SLACK)
  }

  /** The failure of the first inadmissible sample, if there is one. */
  function SampleFailure(domain: Box, samples: seq<Point>): Option<StatusCode> {
    if samples == [] then None else
      var before := SampleFailure(domain, samples[..|samples| - 1]);
      if before.Some? then before
      else if |Last(samples)| != |domain| then Some(DimensionMismatch)
      else if !Contains(domain, Last(samples), SAMPLE_SLACK) then Some(InvalidArgument)
      else None
  }

  lemma {:induction false} SamplesAdmissible(domain: Box, samples: seq<Point>)
    ensures SampleFailure(domain, samples).None? <==> forall q :: q in samples ==> AdmissibleSample(domain, q)
  {
    if samples != [] {
      var before := samples[..|samples| - 1];
      SamplesAdmissible(domain, before);
      assert samples == before + [Last(samples)];
      assert Last(samples) in samples;
      assert forall q :: q in samples <==> q in before || q == Last(samples);
    }
  }

  lemma {:induction false} SampleFailurePersists(domain: Box, samples: seq<Point>, n: nat)
    requires n <= |samples| && SampleFailure(domain, samples[..n]).Some?
    ensures SampleFailure(domain, samples) == SampleFailure(domain, samples[..n])
    decreases |samples|
  {
    if n == |samples| {
      assert samples[..n] == samples;
    } else {
      assert samples[..|samples| - 1][..n] == samples[..n];
      SampleFailurePersists(domain, samples[..|samples| - 1], n);
    }
  }

  method CheckSamples(domain: Box, samples: seq<Point>) returns (failure: Option<StatusCode>)
    ensures failure == SampleFailure(domain, samples)
  {
    for i := 0 to |samples|
      invariant SampleFailure(domain, samples[..i]).None?
    {
      assert samples[..i + 1][..i] == samples[..i];
      if |samples[i]| != |domain| {
        SampleFailurePersists(domain, samples, i + 1);
        return Some(DimensionMismatch);
      }
      if !Contains(domain, samples[i], SAMPLE_SLACK) {
        SampleFailurePersists(domain, samples, i + 1);
        return Some(InvalidArgument);
      }
    }
    assert samples[..|samples|] == samples;
    failure := None;
  }

  /** A build is admitted exactly for some samples, each within 1e-12 of the domain
      on every axis, with a depth of 1 to 4096, some nodes and threads, a width
      below one, and no negative tolerance, padding or width. */
  lemma {:induction false} AdmittedIff(domain: Box, samples: seq<Point>, options: BuildOptions)
    ensures samples != [] && ValidOptions(options) && SampleFailure(domain, samples).None? <==>
              && samples != [] && 1 <= options.maximumDepth <= 4096 && 1 <= options.maximumNodes
              && 1 <= options.threads && 0.0 <= options.minimumNormalizedWidth < 1.0
              && 0.0 <= options.adjacencyTolerance && 0.0 <= options.obstaclePadding
              && forall q :: q in samples ==> NearDomain(domain, q)
  {
    SamplesAdmissible(domain, samples);
    forall q ensures NearDomain(domain, q) <==> AdmissibleSample(domain, q) {
      if NearDomain(domain, q) {
        assert forall i :: 0 <= i < |domain| ==> domain[i].Contains(q[i], SAMPLE_SLACK);
      }
    }
  }

  ghost predicate NearDomain(domain: Box, q: Point) {
    && |q| == |domain|
    && forall i :: 0 <= i < |q| ==> domain[i].lower - 0.000000000001 <= q[i] <= domain[i].upper + 0.000000000001
  }

  // ----- the build, stage by stage

  function RefinerFor(cell: Workcell, samples: seq<Point>, options: BuildOptions, cancelled: nat -> bool): Refiner {
    Refiner(cell.validate, UniqueSamples(samples), options, cancelled)
  }

  lemma {:induction false} BuildRefines(cell: Workcell, samples: seq<Point>, options: BuildOptions,
                                        cancelled: nat -> bool, tree: LectTree)
    requires ValidOptions(options) && samples != [] && SampleFailure(cell.domain, samples).None?
    requires Create(cell.domain, options.minimumNormalizedWidth) == Ok(tree)
    ensures var r := RefinerFor(cell, samples, options, cancelled);
            Refining(r, InitialState(tree, r.samples)) && r.samples != []
  {
    var r := RefinerFor(cell, samples, options, cancelled);
    UniqueSamplesSorted(samples);
    SamplesAdmissible(cell.domain, samples);
    assert samples[0] in r.samples;
    forall i | 0 <= i < |r.samples| ensures |r.samples[i]| == |cell.domain| {
      assert r.samples[i] in samples;
    }
    InitialRefining(r, cell.domain, tree);
  }

  /** The refinement of an admitted sample set. */
  ghost function RefinedState(cell: Workcell, samples: seq<Point>, options: BuildOptions,
                              cancelled: nat -> bool): Result<RefineState>
    requires ValidOptions(options) && samples != [] && SampleFailure(cell.domain, samples).None?
  {
    var tree :- Create(cell.domain, options.minimumNormalizedWidth);
    BuildRefines(cell, samples, options, cancelled, tree);
    var r := RefinerFor(cell, samples, options, cancelled);
    Run(r, InitialState(tree, r.samples))
  }

  lemma {:induction false} RefinedStateRefined(cell: Workcell, samples: seq<Point>, options: BuildOptions,
                                               cancelled: nat -> bool)
    requires ValidOptions(options) && samples != [] && SampleFailure(cell.domain, samples).None?
    requires RefinedState(cell, samples, options, cancelled).Ok?
    ensures Refined(RefinerFor(cell, samples, options, cancelled), cell.domain,
                    RefinedState(cell, samples, options, cancelled).value)
    ensures |RefinedState(cell, samples, options, cancelled).value.pending| <= options.maximumNodes
    ensures |RefinedState(cell, samples, options, cancelled).value.unresolved| <= options.maximumNodes
  {
    var tree := Create(cell.domain, options.minimumNormalizedWidth).value;
    BuildRefines(cell, samples, options, cancelled, tree);
    var r := RefinerFor(cell, samples, options, cancelled);
    RunKeeps(r, InitialState(tree, r.samples));
    RunKeepsRoot(r, InitialState(tree, r.samples));
    RefinedCounts(r, cell.domain, RefinedState(cell, samples, options, cancelled).value);
  }

  lemma {:induction false} MergeShrinks(validate: Validator, tolerance: real, pending: seq<PendingRegion>)
    requires MergeAll(validate, tolerance, pending).Ok?
    ensures |MergeAll(validate, tolerance, pending).value| <= |pending|
    decreases |pending|
  {
    var scan := ScanFrom(validate, tolerance, pending, 0, 1);
    if scan.Found? {
      MergeShrinks(validate, tolerance, MergePair(pending, scan));
    }
  }

  lemma {:induction false} SortKeepsCount(pending: seq<PendingRegion>)
    ensures |SortBySource(pending)| == |pending|
  {
    SortMembers(SourceLe, pending);
  }

  ghost function WithComponents(regions: seq<SafeRegion>, g: Graph): (labelled: seq<SafeRegion>)
    requires |g| == |regions|
    ensures |labelled| == |regions|
  {
    seq(|regions|, i requires 0 <= i < |regions| => regions[i].(component := Label(g, i)))
  }

  /** The atlas of the merged regions and unresolved domains. */
  ghost function AtlasFor(hash: Hash, cell: Workcell, options: BuildOptions, merged: seq<PendingRegion>,
                          unresolved: seq<RepairDomain>): Result<SafeAtlas>
    requires IsSha256(hash) && |merged| <= TWO_TO_THE_64 && |unresolved| <= TWO_TO_THE_64
  {
    var catalog :- CatalogFor(hash, cell, options.obstaclePadding, merged);
    var g := AdjacencyOf(catalog.regions, options.adjacencyTolerance);
    Ok(SafeAtlas(|cell.domain|, cell.robotDigest, cell.sceneDigest, WithComponents(catalog.regions, g),
                 catalog.certificates, catalog.dependencies, RepairDomainsFor(hash, cell, unresolved), g))
  }

  /** A built atlas with its counters. */
  function WithStats(atlas: Result<SafeAtlas>, stats: BuildStats): Result<AtlasBuildResult> {
    var built :- atlas;
    Ok(AtlasBuildResult(built, stats))
  }

  /** The build from its refinement on: merging, tables, and counters. */
  ghost function Completed(hash: Hash, cell: Workcell, samples: seq<Point>, options: BuildOptions,
                           refined: RefineState): Result<AtlasBuildResult>
    requires IsSha256(hash) && |refined.pending| <= options.maximumNodes && |refined.unresolved| <= options.maximumNodes
  {
    SortKeepsCount(refined.pending);
    match MergeAll(cell.validate, options.adjacencyTolerance, SortBySource(refined.pending))
    case Err(code) => Err(code)
    case Ok(merged) =>
      MergeShrinks(cell.validate, options.adjacencyTolerance, SortBySource(refined.pending));
      Finished(hash, cell, options, refined.unresolved, merged,
               StatsOf(samples, refined, |refined.pending| - |merged|))
  }

  /** The atlas of merged regions, with the counters. */
  ghost function Finished(hash: Hash, cell: Workcell, options: BuildOptions, unresolved: seq<RepairDomain>,
                          merged: seq<PendingRegion>, stats: BuildStats): Result<AtlasBuildResult>
    requires IsSha256(hash) && |merged| <= TWO_TO_THE_64 && |unresolved| <= TWO_TO_THE_64
  {
    WithStats(AtlasFor(hash, cell, options, merged, unresolved), stats)
  }

  function StatsOf(samples: seq<Point>, refined: RefineState, mergedRegions: nat): BuildStats {
    BuildStats(|samples|, |UniqueSamples(samples)|, refined.visited, |refined.pending|, |refined.unresolved|,
               mergedRegions)
  }

  /** The complete build. */
  ghost function BuildOf(hash: Hash, cell: Workcell, samples: seq<Point>, options: BuildOptions, cancelled: nat -> bool)
    : Result<AtlasBuildResult>
    requires IsSha256(hash)
  {
    if samples == [] || !ValidOptions(options) then Err(InvalidArgument)
    else if SampleFailure(cell.domain, samples).Some? then Err(SampleFailure(cell.domain, samples).value)
    else
      var refined :- RefinedState(cell, samples, options, cancelled);
      RefinedStateRefined(cell, samples, options, cancelled);
      Completed(hash, cell, samples, options, refined)
  }

  method FinishAtlas(hash: Hash, cell: Workcell, options: BuildOptions, merged: seq<PendingRegion>,
                     unresolved: seq<RepairDomain>)
    returns (atlas: Result<SafeAtlas>)
    requires IsSha256(hash) && |merged| <= TWO_TO_THE_64 && |unresolved| <= TWO_TO_THE_64
    ensures atlas == AtlasFor(hash, cell, options, merged, unresolved)
  {
    var catalog := Assemble(hash, cell, options.obstaclePadding, merged);
    if catalog.Err? {
      return Err(catalog.code);
    }
    var domains := AssembleRepairDomains(hash, cell, unresolved);
    var adjacency := BuildAdjacency(catalog.value.regions, options.adjacencyTolerance);
    AdjacencyIsCanonical(catalog.value.regions, options.adjacencyTolerance);
    var labels := LabelComponents(adjacency);
    var regions := catalog.value.regions;
    for i := 0 to |regions|
      invariant |regions| == |catalog.value.regions|
      invariant forall k :: 0 <= k < i ==> regions[k] == catalog.value.regions[k].(component := labels[k])
      invariant forall k :: i <= k < |regions| ==> regions[k] == catalog.value.regions[k]
    {
      regions := regions[i := regions[i].(component := labels[i])];
    }
    assert regions == WithComponents(catalog.value.regions, adjacency);
    atlas := Ok(SafeAtlas(|cell.domain|, cell.robotDigest, cell.sceneDigest, regions, catalog.value.certificates,
                          catalog.value.dependencies, domains, adjacency));
  }

  method RefineSamples(cell: Workcell, samples: seq<Point>, options: BuildOptions, cancelled: nat -> bool)
    returns (refined: Result<RefineState>)
    requires ValidOptions(options) && samples != [] && SampleFailure(cell.domain, samples).None?
    ensures refined == RefinedState(cell, samples, options, cancelled)
  {
    var unique := UniqueSamples(samples);
    var tree := Create(cell.domain, options.minimumNormalizedWidth);
    if tree.Err? {
      return Err(tree.code);
    }
    BuildRefines(cell, samples, options, cancelled, tree.value);
    refined := Refine(Refiner(cell.validate, unique, options, cancelled), InitialState(tree.value, unique));
  }

  method Finish(hash: Hash, cell: Workcell, options: BuildOptions, unresolved: seq<RepairDomain>,
                merged: seq<PendingRegion>, stats: BuildStats) returns (result: Result<AtlasBuildResult>)
    requires IsSha256(hash) && |merged| <= TWO_TO_THE_64 && |unresolved| <= TWO_TO_THE_64
    ensures result == Finished(hash, cell, options, unresolved, merged, stats)
  {
    var atlas := FinishAtlas(hash, cell, options, merged, unresolved);
    result := WithStats(atlas, stats);
  }

  method Complete(hash: Hash, cell: Workcell, samples: seq<Point>, options: BuildOptions, refined: RefineState)
    returns (result: Result<AtlasBuildResult>)
    requires IsSha256(hash) && |refined.pending| <= options.maximumNodes && |refined.unresolved| <= options.maximumNodes
    ensures result == Completed(hash, cell, samples, options, refined)
  {
    SortKeepsCount(refined.pending);
    var merged, mergedRegions := MergeRegions(cell.validate, options.adjacencyTolerance, SortBySource(refined.pending));
    if merged.Err? {
      return Err(merged.code);
    }
    var stats := StatsOf(samples, refined, mergedRegions);
    assert stats == StatsOf(samples, refined, |refined.pending| - |merged.value|);
    result := Finish(hash, cell, options, refined.unresolved, merged.value, stats);
  }

  method Build(hash: Hash, cell: Workcell, samples: seq<Point>, options: BuildOptions, cancelled: nat -> bool)
    returns (result: Result<AtlasBuildResult>)
    requires IsSha256(hash)
    ensures result == BuildOf(hash, cell, samples, options, cancelled)
  {
    if samples == [] || !ValidOptions(options) {
      return Err(InvalidArgument);
    }
    var failure := CheckSamples(cell.domain, samples);
    if failure.Some? {
      return Err(failure.value);
    }
    var refined := RefineSamples(cell, samples, options, cancelled);
    if refined.Err? {
      return Err(refined.code);
    }
    RefinedStateRefined(cell, samples, options, cancelled);
    result := Complete(hash, cell, samples, options, refined.value);
  }
}
