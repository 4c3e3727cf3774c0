/** A family of builds, one for each positive adjacency tolerance, in which two
    regions share a component label although no route joins them. */
module ToleranceGap {
  import opened Support
  import opened Sequences
  import opened Boxes
  import opened Certificates
  import opened Lect
  import opened Refinement
  import opened Merging
  import opened Graphs
  import opened Assembly
  import opened RefinementInvariants
  import opened Adjacency
  import opened Routing
  import opened AtlasBuilder
  import opened BuiltAtlas
  import opened RouteTheorems

  // ----- the input

  /** One joint over `[0, 4t]`; everything but the open gap `(2t, 3t)` is free. */
  function GapValidator(t: real): Validator {
    (box: Box) =>
      var free := |box| == 1 && (box[0].upper <= 2.0 * t || 3.0 * t <= box[0].lower);
      Ok(RegionValidation(if free then CertifiedFree else Undetermined, 0.0, GapEnvelope()))
  }

  /** The envelope of the one link. */
  function GapEnvelope(): Envelope {
    [WorkspaceAabb(Interval(0.0, 0.0), Interval(0.0, 0.0), Interval(0.0, 0.0))]
  }

  function GapCell(robotDigest: string, sceneDigest: string, t: real): Workcell {
    Workcell(robotDigest, sceneDigest, [Interval(0.0, 4.0 * t)], 1, "interval", "1", GapValidator(t))
  }

  /** What robot validation asks of the parts of a robot that a workcell shows: 1
      to 64 joints with valid limits, a link for each, and at most one more for a tool. */
  predicate AdmissibleRobot(cell: Workcell) {
    && |cell.domain| <= 64 && ValidBox(cell.domain)
    && (cell.linkCount == |cell.domain| || cell.linkCount == |cell.domain| + 1)
  }

  function GapSample(t: real): Point {
    [2.5 * t]
  }

  /** Two bisections deep, with a tolerance as wide as the gap. */
  function GapOptions(t: real): BuildOptions {
    BuildOptions(2, 5, 0.0, t, 0.0, 1)
  }

  function Never(): nat -> bool {
    _ => false
  }

  function Below(t: real): Box {
    [Interval(0.0, 2.0 * t)]
  }

  function Above(t: real): Box {
    [Interval(3.0 * t, 4.0 * t)]
  }

  // ----- its refinement

  function GapRefiner(t: real): Refiner {
    Refiner(GapValidator(t), [GapSample(t)], GapOptions(t), Never())
  }

  function Whole(t: real): Box {
    [Interval(0.0, 4.0 * t)]
  }

  function Upper(t: real): Box {
    [Interval(2.0 * t, 4.0 * t)]
  }

  function Gap(t: real): Box {
    [Interval(2.0 * t, 3.0 * t)]
  }

  /** The undivided domain ... */
  function Undivided(t: real): LectTree {
    LectTree(Whole(t), 0.0, map[Root := LectNode(Whole(t), true, 0)])
  }

  /** ... bisected at `2t` ... */
  function Halved(t: real): LectTree {
    Undivided(t).(nodes := Undivided(t).nodes[Root := LectNode(Whole(t), false, 0)]
                             [Left(Root) := LectNode(Below(t), true, 0)]
                             [Right(Root) := LectNode(Upper(t), true, 0)])
  }

  /** ... and its upper half at `3t`. */
  function Quartered(t: real): LectTree {
    Halved(t).(nodes := Halved(t).nodes[Right(Root) := LectNode(Upper(t), false, 0)]
                          [Left(Right(Root)) := LectNode(Gap(t), true, 0)]
                          [Right(Right(Root)) := LectNode(Above(t), true, 0)])
  }

  function Free(box: Box, source: NodeKey): PendingRegion {
    PendingRegion(box, source, 0.0, GapEnvelope())
  }

  /** A leaf the sample descends to, and one it does not. */
  function Holding(key: NodeKey): WorkItem {
    WorkItem(key, [0], true, None)
  }

  function Empty(key: NodeKey): WorkItem {
    WorkItem(key, [], false, None)
  }

  // The states the refinement passes through, and its result.

  function AtFirst(t: real): RefineState {
    RefineState(Undivided(t), [Holding(Root)], [], [], 0)
  }

  function OnceSplit(t: real): RefineState {
    RefineState(Halved(t), [Empty(Left(Root)), Holding(Right(Root))], [], [], 1)
  }

  function BelowDone(t: real): RefineState {
    RefineState(Halved(t), [Holding(Right(Root))], [Free(Below(t), Left(Root))], [], 2)
  }

  function TwiceSplit(t: real): RefineState {
    RefineState(Quartered(t), [Holding(Left(Right(Root))), Empty(Right(Right(Root)))], [Free(Below(t), Left(Root))], [],
                3)
  }

  function GapDone(t: real): RefineState {
    RefineState(Quartered(t), [Empty(Right(Right(Root)))], [Free(Below(t), Left(Root))],
                [RepairDomain(0, Gap(t), Left(Right(Root)))], 4)
  }

  function GapResult(t: real): RefineState {
    RefineState(Quartered(t), [], [Free(Below(t), Left(Root)), Free(Above(t), Right(Right(Root)))],
                [RepairDomain(0, Gap(t), Left(Right(Root)))], 5)
  }

  /** The one item of a list of one goes to its side. */
  lemma {:induction false} OneSide(r: Refiner, box: Box, left: bool)
    requires |box| == 1 && |r.samples| == 1 && |r.samples[0]| == 1
    ensures Side(r, box, 0, [0], left) == if (r.samples[0][0] <= box[0].Center()) == left then [0] else []
  {
    var list: seq<nat> := [0];
    assert list[..0] == [];
  }

  lemma {:induction false} GapSplits(t: real)
    requires t > 0.0
    ensures ValidRoot(Whole(t)) && LongestAxis(Whole(t), Whole(t), 1) == 0 == LongestAxis(Whole(t), Upper(t), 1)
    ensures Split(Undivided(t), Root) == Ok(Halved(t))
    ensures Split(Halved(t), Right(Root)) == Ok(Quartered(t))
  {
    assert Whole(t)[0].Width() > 0.0 && Upper(t)[0].Width() > 0.0;
    assert NormalizedWidth(Whole(t), Whole(t), 0) > 0.0;
    assert NormalizedWidth(Whole(t), Upper(t), 0) > 0.0;
    assert LeftHalf(Whole(t), 0) == Below(t) && RightHalf(Whole(t), 0) == Upper(t);
    assert LeftHalf(Upper(t), 0) == Gap(t) && RightHalf(Upper(t), 0) == Above(t);
  }

  /** A visit that certifies its leaf. */
  lemma {:induction false} CertifiedVisit(r: Refiner, st: RefineState, next: RefineState)
    requires Sane(r, st) && st.work != [] && st.work[0] == Empty(st.work[0].key) && !r.cancelled(st.visited)
    requires var box := st.tree.nodes[st.work[0].key].box;
             && r.validate(box) == Ok(RegionValidation(CertifiedFree, 0.0, GapEnvelope()))
             && next == RefineState(st.tree, st.work[1..], st.pending + [Free(box, st.work[0].key)], st.unresolved,
                                    st.visited + 1)
    ensures Sane(r, next) && Run(r, st) == Run(r, next)
  {
    StepSane(r, st);
  }

  /** The halves of a leaf that holds the sample. */
  predicate HalvesOf(t: real, box: Box, key: NodeKey, left: WorkItem, right: WorkItem)
    requires |box| == 1
  {
    if 2.5 * t <= box[0].Center() then left == Holding(Left(key)) && right == Empty(Right(key))
    else left == Empty(Left(key)) && right == Holding(Right(key))
  }

  lemma {:induction false} BisectedItem(t: real, st: RefineState, key: NodeKey, tree: LectTree, left: WorkItem,
                                        right: WorkItem)
    requires Lect.WellFormed(st.tree) && key in Leaves(st.tree) && |st.tree.root| == 1
    requires Split(st.tree, key) == Ok(tree) && tree.root == st.tree.root
    requires LongestAxis(st.tree.root, st.tree.nodes[key].box, 1) == 0
    requires HalvesOf(t, st.tree.nodes[key].box, key, left, right)
    ensures SplitItem(GapRefiner(t), st, Holding(key)) == Ok(st.(tree := tree, work := st.work + [left, right]))
  {
    OneSide(GapRefiner(t), st.tree.nodes[key].box, true);
    OneSide(GapRefiner(t), st.tree.nodes[key].box, false);
  }

  /** A visit that bisects a leaf holding the sample, into the given halves. */
  lemma {:induction false} BisectingVisit(t: real, st: RefineState, key: NodeKey, tree: LectTree, left: WorkItem,
                                          right: WorkItem, next: RefineState)
    requires Sane(GapRefiner(t), st) && st.work != [] && st.work[0] == Holding(key)
    requires |st.tree.root| == 1 && LongestAxis(st.tree.root, st.tree.nodes[key].box, 1) == 0
    requires GapValidator(t)(st.tree.nodes[key].box) == Ok(RegionValidation(Undetermined, 0.0, GapEnvelope()))
    requires HalvesOf(t, st.tree.nodes[key].box, key, left, right)
    requires Split(st.tree, key) == Ok(tree) && tree.root == st.tree.root
    requires key.Depth() < 2 && |st.tree.nodes| <= 3
    requires next == RefineState(tree, st.work[1..] + [left, right], st.pending, st.unresolved, st.visited + 1)
    ensures Sane(GapRefiner(t), next) && Run(GapRefiner(t), st) == Run(GapRefiner(t), next)
  {
    assert Step(GapRefiner(t), st) == Ok(next) by {
      BisectedItem(t, Popped(st), key, tree, left, right);
    }
    RunStep(GapRefiner(t), st, next);
  }

  lemma {:induction false} RunStep(r: Refiner, st: RefineState, next: RefineState)
    requires Sane(r, st) && st.work != [] && Step(r, st) == Ok(next)
    ensures Sane(r, next) && Run(r, st) == Run(r, next)
  {
    StepSane(r, st);
  }

  /** A visit that gives up a leaf at the maximum depth. */
  lemma {:induction false} DeepestVisit(r: Refiner, st: RefineState, next: RefineState)
    requires Sane(r, st) && st.work != [] && st.work[0].cached.None? && !r.cancelled(st.visited)
    requires st.work[0].key.Depth() >= r.options.maximumDepth
    requires var box := st.tree.nodes[st.work[0].key].box;
             && r.validate(box).Ok? && r.validate(box).value.disposition == Undetermined
             && next == RefineState(st.tree, st.work[1..], st.pending,
                                    st.unresolved + [RepairDomain(0, box, st.work[0].key)], st.visited + 1)
    ensures Sane(r, next) && Run(r, st) == Run(r, next)
  {
    StepSane(r, st);
  }

  lemma {:induction false} FirstBisection(t: real)
    requires t > 0.0 && Sane(GapRefiner(t), AtFirst(t))
    ensures Sane(GapRefiner(t), OnceSplit(t)) && Run(GapRefiner(t), AtFirst(t)) == Run(GapRefiner(t), OnceSplit(t))
  {
    GapSplits(t);
    BisectingVisit(t, AtFirst(t), Root, Halved(t), Empty(Left(Root)), Holding(Right(Root)), OnceSplit(t));
  }

  lemma {:induction false} BelowVisit(t: real)
    requires t > 0.0 && Sane(GapRefiner(t), OnceSplit(t))
    ensures Sane(GapRefiner(t), BelowDone(t)) && Run(GapRefiner(t), OnceSplit(t)) == Run(GapRefiner(t), BelowDone(t))
  {
    assert OnceSplit(t).work[1..] == BelowDone(t).work;
    CertifiedVisit(GapRefiner(t), OnceSplit(t), BelowDone(t));
  }

  lemma {:induction false} SecondBisection(t: real)
    requires t > 0.0 && Sane(GapRefiner(t), BelowDone(t))
    ensures Sane(GapRefiner(t), TwiceSplit(t)) && Run(GapRefiner(t), BelowDone(t)) == Run(GapRefiner(t), TwiceSplit(t))
  {
    GapSplits(t);
    assert Right(Root).Depth() == 1;
    assert Halved(t).nodes.Keys == {Root, Left(Root), Right(Root)};
    BisectingVisit(t, BelowDone(t), Right(Root), Quartered(t), Holding(Left(Right(Root))), Empty(Right(Right(Root))),
                   TwiceSplit(t));
  }

  lemma {:induction false} GapVisit(t: real)
    requires t > 0.0 && Sane(GapRefiner(t), TwiceSplit(t))
    ensures Sane(GapRefiner(t), GapDone(t)) && Run(GapRefiner(t), TwiceSplit(t)) == Run(GapRefiner(t), GapDone(t))
  {
    assert Left(Right(Root)).Depth() == 2;
    assert TwiceSplit(t).work[1..] == GapDone(t).work;
    DeepestVisit(GapRefiner(t), TwiceSplit(t), GapDone(t));
  }

  lemma {:induction false} AboveVisit(t: real)
    requires t > 0.0 && Sane(GapRefiner(t), GapDone(t))
    ensures Sane(GapRefiner(t), GapResult(t)) && Run(GapRefiner(t), GapDone(t)) == Ok(GapResult(t))
  {
    CertifiedVisit(GapRefiner(t), GapDone(t), GapResult(t));
  }

  /** Five visits: two bisections, two certified leaves, and the gap given up. */
  lemma {:induction false} GapRun(t: real)
    requires t > 0.0 && Sane(GapRefiner(t), AtFirst(t))
    ensures Run(GapRefiner(t), AtFirst(t)) == Ok(GapResult(t))
  {
    FirstBisection(t);
    BelowVisit(t);
    SecondBisection(t);
    GapVisit(t);
    AboveVisit(t);
  }

  // ----- the build

  lemma {:induction false} OneSample(q: Point)
    ensures UniqueSamples([q]) == [q]
  {
    assert [q][1..] == [];
    assert Sort(PointLe, [q]) == [q];
  }

  lemma {:induction false} GapRefined(robotDigest: string, sceneDigest: string, t: real)
    requires t > 0.0
    ensures ValidOptions(GapOptions(t)) && SampleFailure([Interval(0.0, 4.0 * t)], [GapSample(t)]).None?
    ensures RefinedState(GapCell(robotDigest, sceneDigest, t), [GapSample(t)], GapOptions(t), Never())
            == Ok(GapResult(t))
  {
    var cell, samples := GapCell(robotDigest, sceneDigest, t), [GapSample(t)];
    assert samples[..0] == [];
    OneSample(GapSample(t));
    assert RefinerFor(cell, samples, GapOptions(t), Never()) == GapRefiner(t);
    GapSplits(t);
    BuildRefines(cell, samples, GapOptions(t), Never(), Undivided(t));
    assert AllSamples(1) == [0];
    assert InitialState(Undivided(t), samples) == AtFirst(t);
    GapRun(t);
  }

  /** The union of the two regions is the whole domain, which is not certified. */
  lemma {:induction false} GapUnion(t: real)
    requires t > 0.0
    ensures UnionOf(Below(t), Above(t), t) == Some(Whole(t))
    ensures GapValidator(t)(Whole(t)) == Ok(RegionValidation(Undetermined, 0.0, GapEnvelope()))
  {
    assert Hull(Below(t), Above(t))[0] == Whole(t)[0];
    assert Hull(Below(t), Above(t)) == Whole(t);
  }

  lemma {:induction false} NothingMerges(validate: Validator, tolerance: real, a: PendingRegion, b: PendingRegion)
    requires SourceLe(a, b) && NotMergeable(validate, tolerance, a, b)
    ensures SortBySource([a, b]) == [a, b]
    ensures MergeAll(validate, tolerance, [a, b]) == Ok([a, b])
  {
    assert [a, b][1..] == [b] && [b][1..] == [];
    assert Sort(SourceLe, [b]) == [b];
    var pending := [a, b];
    assert ScanFrom(validate, tolerance, pending, 0, 2) == ScanFrom(validate, tolerance, pending, 1, 2)
        == ScanFrom(validate, tolerance, pending, 2, 3) == Exhausted;
  }

  lemma {:induction false} GapMerges(t: real)
    requires t > 0.0
    ensures SortBySource(GapResult(t).pending) == GapResult(t).pending
    ensures MergeAll(GapValidator(t), t, GapResult(t).pending) == Ok(GapResult(t).pending)
  {
    var below, above := Free(Below(t), Left(Root)), Free(Above(t), Right(Right(Root)));
    assert Left(Root).Path() == "0" && Right(Right(Root)).Path() == "11";
    GapUnion(t);
    NothingMerges(GapValidator(t), t, below, above);
  }

  lemma {:induction false} TwoCertificates(hash: Hash, cell: Workcell, padding: real, a: PendingRegion,
                                           b: PendingRegion)
    requires CertificateFor(hash, cell, padding, a).Ok? && CertificateFor(hash, cell, padding, b).Ok?
    ensures CertificatesFor(hash, cell, padding, [a, b]).Ok?
  {
    assert [a, b][..1] == [a] && [a][..0] == [];
    assert CertificatesFor(hash, cell, padding, [a]).Ok?;
  }

  lemma {:induction false} GapCertificates(hash: Hash, robotDigest: string, sceneDigest: string, t: real)
    requires IsSha256(hash) && ValidSha256(robotDigest) && ValidSha256(sceneDigest) && t > 0.0
    ensures CertificatesFor(hash, GapCell(robotDigest, sceneDigest, t), 0.0, GapResult(t).pending).Ok?
  {
    TwoCertificates(hash, GapCell(robotDigest, sceneDigest, t), 0.0, Free(Below(t), Left(Root)),
                    Free(Above(t), Right(Right(Root))));
  }

  lemma {:induction false} GapBuilds(hash: Hash, robotDigest: string, sceneDigest: string, t: real)
    requires IsSha256(hash) && ValidSha256(robotDigest) && ValidSha256(sceneDigest) && t > 0.0
    ensures var cell := GapCell(robotDigest, sceneDigest, t);
            && BuildOf(hash, cell, [GapSample(t)], GapOptions(t), Never()).Ok?
            && AtlasFor(hash, cell, GapOptions(t), GapResult(t).pending, GapResult(t).unresolved)
               == Ok(BuildOf(hash, cell, [GapSample(t)], GapOptions(t), Never()).value.atlas)
  {
    GapRefined(robotDigest, sceneDigest, t);
    GapMerges(t);
    GapCertificates(hash, robotDigest, sceneDigest, t);
  }

  /** Two regions, adjacent within the tolerance, that share no configuration. */
  ghost predicate TwoApart(options: BuildOptions, atlas: SafeAtlas) {
    && |atlas.regions| == 2
    && Overlaps(atlas.regions[0].bounds, atlas.regions[1].bounds, options.adjacencyTolerance)
    && WitnessOf(atlas.regions[0].bounds, atlas.regions[1].bounds).None?
  }

  lemma {:induction false} NoStepAcross(hash: Hash, cell: Workcell, options: BuildOptions, atlas: SafeAtlas, i: nat,
                                        j: nat)
    requires Built(hash, cell, options, atlas) && TwoApart(options, atlas) && i < 2 && j in atlas.adjacency[i]
    ensures j < 2 && WitnessOf(atlas.regions[i].bounds, atlas.regions[j].bounds).None?
  {
    WitnessIsSymmetric(atlas.regions[0].bounds, atlas.regions[1].bounds);
    assert Adjacent(atlas.regions, options.adjacencyTolerance, i, j);
  }

  /** Chains stay in one of them ... */
  lemma {:induction false} NoChainAcross(hash: Hash, cell: Workcell, options: BuildOptions, atlas: SafeAtlas,
                                         p: seq<nat>)
    requires Built(hash, cell, options, atlas) && TwoApart(options, atlas)
             && RegionChain(atlas.regions, atlas.adjacency, p)
    ensures p[0] == Last(p)
  {
    if |p| > 1 {
      NoStepAcross(hash, cell, options, atlas, p[0], p[1]);
      assert false;
    }
  }

  /** ... although the regions carry the same label. */
  lemma {:induction false} SameLabelAcross(hash: Hash, cell: Workcell, options: BuildOptions, atlas: SafeAtlas)
    requires Built(hash, cell, options, atlas) && TwoApart(options, atlas)
    ensures 1 in atlas.adjacency[0] && atlas.regions[0].component == atlas.regions[1].component
    ensures !ExactlyLinked(atlas, 0, 1) && !ComponentsAreExact(atlas)
  {
    assert Adjacent(atlas.regions, options.adjacencyTolerance, 0, 1);
    assert WalkFromTo(atlas.adjacency, [0, 1], 0, 1);
    LabelsAreComponents(atlas.adjacency, 0, 1);
    forall p | ChainFromTo(atlas, p, 0, 1) ensures false {
      NoChainAcross(hash, cell, options, atlas, p);
    }
  }

  lemma {:induction false} BelowAndAbove(t: real)
    requires t > 0.0
    ensures Overlaps(Below(t), Above(t), t) && Overlaps(Above(t), Below(t), t)
    ensures WitnessOf(Below(t), Above(t)).None? && WitnessOf(Above(t), Below(t)).None?
    ensures In([0.0], Below(t)) && In([4.0 * t], Above(t)) && !In([0.0], Above(t)) && !In([4.0 * t], Below(t))
    ensures Below(t) != Above(t)
  {
    assert !Meets(Below(t)[0], Above(t)[0]) && !Meets(Above(t)[0], Below(t)[0]);
    assert !Above(t)[0].Contains([0.0][0], 0.0) && !Below(t)[0].Contains([4.0 * t][0], 0.0);
  }

  /** Two merged regions are the two regions of the atlas, in the order of their ids. */
  lemma {:induction false} TwoListed(hash: Hash, cell: Workcell, options: BuildOptions, merged: seq<PendingRegion>,
                                     unresolved: seq<RepairDomain>, atlas: SafeAtlas)
    requires IsSha256(hash) && |merged| == 2 && |unresolved| <= TWO_TO_THE_64 && merged[0].bounds != merged[1].bounds
    requires AtlasFor(hash, cell, options, merged, unresolved) == Ok(atlas)
    ensures |atlas.regions| == 2
    ensures (atlas.regions[0].bounds == merged[0].bounds && atlas.regions[1].bounds == merged[1].bounds)
         || (atlas.regions[0].bounds == merged[1].bounds && atlas.regions[1].bounds == merged[0].bounds)
  {
    CatalogIsAligned(hash, cell, options.obstaclePadding, merged);
    var a, b := OriginIndices(hash, cell, options, merged, unresolved, 0, 1);
  }

  /** What the built atlas looks like. */
  lemma {:induction false} GapAtlas(hash: Hash, robotDigest: string, sceneDigest: string, t: real)
    returns (atlas: SafeAtlas)
    requires IsSha256(hash) && ValidSha256(robotDigest) && ValidSha256(sceneDigest) && t > 0.0
    ensures var build := BuildOf(hash, GapCell(robotDigest, sceneDigest, t), [GapSample(t)], GapOptions(t), Never());
            build.Ok? && build.value.atlas == atlas
    ensures Built(hash, GapCell(robotDigest, sceneDigest, t), GapOptions(t), atlas)
    ensures |atlas.regions| == 2
    ensures (atlas.regions[0].bounds == Below(t) && atlas.regions[1].bounds == Above(t))
         || (atlas.regions[0].bounds == Above(t) && atlas.regions[1].bounds == Below(t))
  {
    var cell, options, result := GapCell(robotDigest, sceneDigest, t), GapOptions(t), GapResult(t);
    GapBuilds(hash, robotDigest, sceneDigest, t);
    BuildIsBuilt(hash, cell, [GapSample(t)], options, Never());
    atlas := BuildOf(hash, cell, [GapSample(t)], options, Never()).value.atlas;
    BelowAndAbove(t);
    TwoListed(hash, cell, options, result.pending, result.unresolved, atlas);
  }

  lemma {:induction false} NoRouteAcross(hash: Hash, cell: Workcell, options: BuildOptions, atlas: SafeAtlas,
                                         first: Point, second: Point)
    requires Built(hash, cell, options, atlas) && TwoApart(options, atlas)
    requires forall i :: 0 <= i < 2 ==> !(In(first, atlas.regions[i].bounds) && In(second, atlas.regions[i].bounds))
    ensures !Connected(atlas, first, second)
  {
    if Connected(atlas, first, second) {
      var p :| RouteChain(atlas, first, second, p);
      NoChainAcross(hash, cell, options, atlas, p);
      assert false;
    }
  }

  /** For every positive tolerance there is a build, for an admissible robot,
      whose atlas consists of two regions that share a label although nothing
      routes between them: its two end configurations are covered and not connected. */
  lemma {:induction false} ToleranceBridgesGaps(hash: Hash, robotDigest: string, sceneDigest: string, t: real)
    returns (atlas: SafeAtlas)
    requires IsSha256(hash) && ValidSha256(robotDigest) && ValidSha256(sceneDigest) && t > 0.0
    ensures AdmissibleRobot(GapCell(robotDigest, sceneDigest, t))
    ensures var build := BuildOf(hash, GapCell(robotDigest, sceneDigest, t), [GapSample(t)], GapOptions(t), Never());
            build.Ok? && build.value.atlas == atlas
    ensures |atlas.regions| == |atlas.adjacency| == 2 && 1 in atlas.adjacency[0]
    ensures atlas.regions[0].component == atlas.regions[1].component
    ensures !ExactlyLinked(atlas, 0, 1) && !ComponentsAreExact(atlas)
    ensures Covered(atlas, [0.0]) && Covered(atlas, [4.0 * t]) && !Connected(atlas, [0.0], [4.0 * t])
  {
    var cell, options := GapCell(robotDigest, sceneDigest, t), GapOptions(t);
    atlas := GapAtlas(hash, robotDigest, sceneDigest, t);
    BelowAndAbove(t);
    SameLabelAcross(hash, cell, options, atlas);
    NoRouteAcross(hash, cell, options, atlas, [0.0], [4.0 * t]);
    assert In([0.0], atlas.regions[0].bounds) || In([0.0], atlas.regions[1].bounds);
    assert In([4.0 * t], atlas.regions[0].bounds) || In([4.0 * t], atlas.regions[1].bounds);
  }
}
