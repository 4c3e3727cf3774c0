# Safe Atlas and calibration lifecycle in Dafny

This project models four connected parts of the robot-safety library and proves
what its users rely on.

* **The Safe Atlas** (`src/atlas.cpp`, `src/lect.cpp`, `src/region_index.cpp`).
  The builder refines the robot's configuration domain along a work list, merges
  certified boxes until nothing merges, numbers and aligns the tables, and labels
  the components of the adjacency graph. The router searches for the least chain
  of exactly intersecting regions and certifies the polyline through it. A
  bounding-box hierarchy answers point and nearest-region queries.
* **Certificates** (`src/certificate.cpp`). Identities of region, route and
  scene-transition certificates, and what the id of the last one commits to.
* **Calibration profiles** (`src/calibration.cpp`). The bin partition, the Wilson
  lower bound, calibration errors, lookup, the confidence-adjusting gate, and the
  stored form.
* **The calibration lifecycle** (`src/calibration_lifecycle.cpp`,
  `src/calibration_lifecycle_persistence.cpp`). A hash-chained log with
  optimistic head checks, drift assessment, a state machine under review, full
  replay, and the stored form with its load limits.

## Main results

1. The region sequence of a route is the least one, shorter chains first and then
   by region ids, among all chains of exactly intersecting adjacent regions; no
   route means no chain; storage order does not matter
   (`ChainSearch.FindChain`, `Routing.Route`, `RouteTheorems.RouteIgnoresStorageOrder`).
2. On every built atlas, connection is an equivalence on covered configurations,
   routing never fails internally, and with a sound validator the whole polyline
   keeps the certified clearance (`RouteTheorems.ConnectedIsEquivalence`,
   `RouteTheorems.BuiltRoutesAlways`, `RouteTheorems.RouteIsSafe`).
3. A build covers the domain, resolves every sample as far as it can, ends merged,
   keeps its tables aligned and its counters balanced, and depends only on the set
   of samples (`BuiltAtlas`). Which boxes it bisects, and whether it succeeds, is
   decided by the domain, the samples and the validator alone
   (`RefinementExact.TreeIsReached`, `RefinementBudget.SucceedsIffWithinBudget`).
4. The hierarchy is balanced, returns exactly what a linear scan returns, and the
   nearest region is the closest in Euclidean distance
   (`RegionIndex.RegionQueryIndex.ContainingRegions`, `RegionIndex.NearestIsUnique`,
   `RegionIndex.RegionQueryIndex.NearestRegion`).
5. Replay accepts exactly the logs of runs, except that it also accepts logs that
   assess a retired lifecycle (`LifecycleReplay.AcceptedIffRun`,
   `LifecycleReplay.RetiredCanBeReopened`).
6. The head of a lifecycle commits to its whole history, active means ready, and no
   drift is forgotten without review (`LifecycleIdentity`, `LifecycleHistory`,
   `GuardedGate`).
7. For every window the overall success-rate drop is at most the largest bin drop
   plus the total variation distance (`DriftBounds.OverallDropIsBounded`), and each
   reason a report lists holds exactly when its own statistic exceeds its own limit
   (`DriftMeaning.ReasonsAreExact`, `DriftMeaning.ReportMeans`).
8. Every proposal the gate hands on carries the lower of its own confidence and the
   Wilson bound of its bin (`GateMeaning.EffectiveConfidenceIsRoot`).
9. Loading undoes storing, and what is stored loads exactly when it is valid and
   within its limits (`LifecycleRoundTrip.LoadsIffValid`, `ProfileMeaning.LoadsIffValid`).

## Where the code does less than one might expect

* Component labels use the adjacency tolerance, routes need an exact witness
  (`src/atlas.cpp:367-368` against `src/atlas.cpp:499`). For every positive tolerance
  there is a build, for a robot that validation admits (`ToleranceGap.AdmissibleRobot`,
  `src/model.cpp:220-245`), in which two regions share a label and nothing routes
  between them (`ToleranceGap.ToleranceBridgesGaps`). Labels promise routes exactly when
  labelling the exactly intersecting neighbours, which `Routing.CertifyAdjacency` and
  `Adjacency.LabelComponents` compute, gives the stored labels again
  (`RouteTheorems.ComponentsExactIffLabelsExact`), and at tolerance zero they always
  do (`RouteTheorems.ComponentsExactAtZero`).
* Point queries allow a slack of 1e-12 (`src/region_index.cpp:112-131`), routes none
  (`src/atlas.cpp:478-481`), so an atlas may contain a configuration that it connects
  to nothing (`QuerySlack.ContainedButUnconnected`). A configuration is connected to
  itself exactly when a region found there holds it without the slack
  (`QuerySlack.ConnectedIffFoundExactly`).
* Assessing a retired lifecycle is refused (`src/calibration_lifecycle.cpp:319`), but
  replay has no such check (`src/calibration_lifecycle.cpp:463-480`).
  `LifecycleReplay.RetiredCanBeReopened` exhibits the gap for every valid profile.
* The node budget is checked before a box is found too narrow to bisect
  (`src/atlas.cpp:226-238`), so a build may fail with ResourceLimit although all boxes
  it reaches would fit (`NarrowBudget.BudgetBeforeWidth`). It refines exactly when at
  every sampled box that is only too narrow there is room for two nodes more
  (`BuiltRefinement.BuildRefinesWithinBudget`).
* A certificate with a transition digest but no parent would not have its own
  identity (`src/certificate.cpp:23-27`). No constructor makes one
  (`Certificates.ConstructorsIdentify`).

## How the model is set up

* Numbers are exact: `real` for the source's `double`, `U64` for its 64-bit counters
  with wrap-around written out where ids are probed. The 1e-12 comparisons of stored
  statistics, samples and point queries are kept as written.
* `sha256` is a parameter of type `Hash` on JSON trees. Where a result needs two
  digests to differ, it says so for the finitely many trees involved, never for all
  trees. Where it needs a digest to have 64 hexadecimal characters it requires
  `IsSha256`.
* The region validator is a parameter `Box -> Result<RegionValidation>`, and its
  soundness a hypothesis of the one lemma that needs it. The square root of the
  Wilson bound is a parameter with `s >= 0` and `s * s == x`. Cancellation is a
  parameter that says at which visit the token is seen set.
* A lifecycle sees its profile through a `Calibration`: identity, validity and
  assessment. `Basis.Calibrate` builds it from a profile, and `Faithful` and
  `Bounded`, which lemmas require of it, hold for every one so built
  (`LifecycleRuns.BasisIsFaithful`, `LifecycleRoundTrip.BasisIsBounded`).
* `IsCreated` says that a profile is what `create` derives from its counts. Every
  profile `create` or `load` returns is (`Profile.CreatedIsValid`,
  `ProfileCodec.LoadedIsCreated`), so results about created profiles are results
  about all valid profiles a program can hold.
* JSON member names are constructors of `Key`; trees stand for the canonical text
  the source digests and stores.
* Loops are loops: every method with a loop is proved equal to a recursive
  specification function, about which the lemmas speak. Some loops of the source are
  split into a method for the loop and one for its body.
* Every lemma carries `{:induction false}`, so every induction is written out. A
  lemma without a body states what its definitions unfold to.

## Model

| member | source | states |
|---|---|---|
| `Boxes.RectangularUnion` | src/atlas.cpp:70-92 | returns the bounding box of two boxes exactly when they agree on all axes but at most one and overlap on that one, else nothing |
| `Boxes.UnionCovers` | src/atlas.cpp:70-92 | at every tolerance the union contains whatever either box contains, up to any slack |
| `Boxes.UnionIsExact` | src/atlas.cpp:70-92 | at tolerance zero a configuration is in the union exactly when it is in one of the boxes |
| `Boxes.UnionIff` | src/atlas.cpp:70-92 | two boxes have a union exactly when, up to the tolerance, they end at the same values on every axis but at most one, on which they overlap |
| `Boxes.UnionIsLeast` | src/atlas.cpp:87-87 | of valid boxes the union is the least box that contains both |
| `Boxes.IntersectionWitness` | src/atlas.cpp:115-128 | returns the middle of the intersection, or nothing when the boxes share no configuration |
| `Boxes.WitnessIffShared` | src/atlas.cpp:115-128 | a witness exists exactly when some configuration lies in both boxes |
| `Boxes.WitnessIsShared` | src/atlas.cpp:115-128 | the witness lies in both boxes |
| `Boxes.WitnessIsAmid` | src/atlas.cpp:115-128 | on every axis the witness is as far from the lower as from the upper end of what the boxes share |
| `Boxes.SharedEnds` | src/atlas.cpp:119-125 | what two boxes share is, on every axis, what lies between the greater lower and the lesser upper end |
| `Boxes.OverlapsIffWithin` | src/atlas.cpp:367-368 | valid boxes overlap within a tolerance exactly when some configurations of theirs are no farther apart than it on any axis |
| `Boxes.OverlapImpliesWitness` | src/atlas.cpp:367-368 | at tolerance zero, overlapping valid boxes have a witness |
| `Boxes.BoxIsConvex` | src/atlas.cpp:541-554 | every point of a segment between two configurations of a box is in the box |
| `Lect.BisectLeaves` | src/lect.cpp:252-291 | bisecting a leaf replaces it among the leaves by two new ones and adds exactly two nodes |
| `Lect.BisectCovers` | src/lect.cpp:252-291 | bisection keeps every configuration of the root domain in some leaf box |
| `Lect.DescentIsUnique` | src/lect.cpp:293-313 | the centre rule sends no configuration to two different leaves |
| `Lect.DescentIsContained` | src/lect.cpp:293-313 | a configuration within the root up to a tolerance stays within every box it descends through |
| `LectShape.HalvesAreEqual` | src/lect.cpp:252-291 | the halves of a box are equally wide, meet in one value of the split axis, and agree with the box on all others |
| `LectShape.BoxesStayProportional` | src/lect.cpp:252-291 | however deep, no box keeps more than twice the share of the domain's width on one axis as on another |
| `Refinement.ShareSamples` | src/atlas.cpp:243-252 | splits a sample list at the centre: at most the centre goes left, order kept |
| `Refinement.Bisect` | src/atlas.cpp:226-280 | node budget, refusal by the tree, sample split and cached child validations, as the specified split |
| `Refinement.Refine` | src/atlas.cpp:200-281 | the work-list loop terminates and returns the specified run, cancellation and validator failures included; what that run bisects, and when it succeeds, is said in RefinementExact and RefinementBudget |
| `RefinementInvariants.StepKeeps` | src/atlas.cpp:200-281 | every visit keeps: work, certified and unresolved nodes are together exactly the leaves, the root is covered, each item lists exactly the samples that descend to it, outcomes carry their validation |
| `RefinementInvariants.RunKeeps` | src/atlas.cpp:200-281 | a finished refinement keeps that invariant and has no work left |
| `RefinementInvariants.RefinedCovers` | src/atlas.cpp:200-281 | every configuration of the domain ends in a certified or an unresolved box |
| `RefinementInvariants.RefinedCounts` | src/atlas.cpp:200-281 | visited nodes equal tree nodes, stay within the node budget, and twice the closed leaves is one more than the visited nodes |
| `RefinementInvariants.RefinedSamples` | src/atlas.cpp:221-225 | each sample ends in exactly one leaf, which contains it; an unresolved one is at maximum depth or unsplittable |
| `RefinementExact.StepKeepsExact` | src/atlas.cpp:221-281 | every visit keeps: each branch has its own box, was left undetermined, lies below the maximum depth, has a sample that descends to it, is wide enough, and is split along its longest axis |
| `RefinementExact.TreeIsReached` | src/atlas.cpp:200-281 | the nodes of a finished refinement are exactly the domain and the halves of divisible boxes, and its branches are exactly the divisible ones, so every leaf but the root has a parent that a sample descends to |
| `RefinementExact.OutcomesAreReached` | src/atlas.cpp:215-225 | certified regions are exactly the boxes reached that the validator certifies, unresolved ones exactly those it leaves undetermined and that are not divisible |
| `RefinementBudget.NodesAtVisit` | src/atlas.cpp:204-280 | visits go breadth first: when a node is visited, the nodes are exactly those reached whose parents come before it |
| `RefinementBudget.SucceedsIffWithinBudget` | src/atlas.cpp:200-281 | a refinement succeeds exactly when the boxes reached fit the node budget, with room for two nodes more at each sampled box too narrow to bisect, every validation succeeds and no visit is cancelled; lacking only the budget it fails with ResourceLimit |
| `ParallelRefinement.DoomedRunFails` | src/atlas.cpp:257-276 | a validator failure waiting in the work list fails the sequential run too |
| `ParallelRefinement.ThreadsAgree` | src/atlas.cpp:257-280 | refinements with one and with several threads succeed together and then agree on tree, regions, unresolved boxes and counts |
| `Merging.ScanPairs` | src/atlas.cpp:288-307 | finds the first pair, in scan order, whose union the validator certifies, stopping at a validator failure |
| `Merging.MergeRegions` | src/atlas.cpp:285-309 | the restart-on-change loop terminates with the specified merge, each merge removing one region |
| `Merging.MergedIff` | src/atlas.cpp:285-309 | merging ends with given regions exactly when a sequence of merges leads there, each replacing the first pair in scan order whose union is certified by that union, with its own validation and the lesser source, and no pair is left to merge |
| `Merging.MergedRegions` | src/atlas.cpp:285-309 | at the end every region is certified on its final bounds, sources strictly increase, and no two regions have a certifiable union |
| `Merging.MergedCoverage` | src/atlas.cpp:285-309 | merging uncovers no configuration, with whatever slack it was covered, and at tolerance zero covers exactly the same ones |
| `RegionIds.ParseId` | src/atlas.cpp:42-54 | reads the first sixteen hexadecimal digits as a 64-bit number, zero replaced by one |
| `BuiltIdentity.IdKeepsDigits` | src/atlas.cpp:46-53 | equal ids other than one mean the same first sixteen digits |
| `RegionIds.ProbeId` | src/atlas.cpp:332-334 | increments, with 64-bit wrap-around, to the first id not taken; terminates while ids remain |
| `RegionIds.AssignedAreDistinct` | src/atlas.cpp:320-336 | the ids handed out in one build are pairwise different |
| `RegionIds.DistinctIdsAreKept` | src/atlas.cpp:332-334 | without collisions every region keeps the id its digest gives |
| `Assembly.BuildTables` | src/atlas.cpp:321-337 | one certificate, region and dependency a merged region, under probed ids, or the first certificate failure |
| `Assembly.Realign` | src/atlas.cpp:341-352 | moves each certificate and dependency to the index of its region and renumbers it |
| `Assembly.CatalogIsAligned` | src/atlas.cpp:338-352 | after sorting and reordering, ids strictly increase and entry by entry region, certificate and dependency come from the same merged region, with nothing lost |
| `Assembly.AssembleRepairDomains` | src/atlas.cpp:353-362 | repair domains get their own probed ids and are sorted by them |
| `Assembly.RepairDomainsAreCanonical` | src/atlas.cpp:353-362 | the ids of repair domains strictly increase, whatever they collided on, and the domains are the unresolved boxes, none lost and none added |
| `Adjacency.BuildAdjacency` | src/atlas.cpp:364-373 | the pairwise loop yields exactly the graph of overlapping regions, lists in increasing order |
| `Adjacency.AdjacencyIsCanonical` | src/atlas.cpp:364-373 | the graph is symmetric, free of self-edges, and lists every overlapping region exactly once |
| `Adjacency.LabelComponents` | src/atlas.cpp:374-393 | the flood fill labels every region with the number of its component |
| `Adjacency.LabelsAreComponents` | src/atlas.cpp:374-393 | two labels are equal exactly when the regions are linked, and are ordered by the least region of each component |
| `Adjacency.LabelBounds` | src/atlas.cpp:374-393 | labels run from one to the number of components |
| `Adjacency.EveryLabelIsUsed` | src/atlas.cpp:374-393 | every number in that range labels some region |
| `AtlasBuilder.CheckSamples` | src/atlas.cpp:166-175 | finds the first sample of a wrong dimension or outside the joint limits |
| `AtlasBuilder.AdmittedIff` | src/atlas.cpp:153-175 | a build is admitted exactly for samples within 1e-12 of the domain on every axis, at least one of them, and options in range |
| `AtlasBuilder.UniqueSamplesDependOnSet` | src/atlas.cpp:176-178 | sorting and removing repeats leaves a sequence that depends on the set of samples only |
| `AtlasBuilder.Build` | src/atlas.cpp:137-400 | the complete build is the specified one: sample checks, refinement, merging, tables, adjacency, labels, counters; what that is known to be is said in BuiltAtlas, BuiltRefinement and BuiltIdentity |
| `BuiltAtlas.BuildIsBuilt` | src/atlas.cpp:311-393 | a successful build has strictly sorted unique region ids, aligned certificates of exactly its final bounds, exact adjacency and component labels, and repair domains by strictly increasing id that the validator left undetermined |
| `BuiltAtlas.BuildCovers` | src/atlas.cpp:200-362 | every configuration of the domain is in a region or a repair domain of the built atlas |
| `BuiltAtlas.BuildResolvesSamples` | src/atlas.cpp:176-362 | every sample is, up to the slack it was admitted with, in a region or in a repair domain at maximum depth or too narrow to bisect; a sample inside the domain is so exactly |
| `BuiltRefinement.RepairsAreExact` | src/atlas.cpp:221-236 | the repair domains of a build are exactly the boxes reached that are undetermined and not divisible; a box without samples is never bisected |
| `BuiltRefinement.RepairsHaveTheirBoxes` | src/atlas.cpp:221-236 | each repair domain has the box its source names |
| `BuiltRefinement.RegionsComeFromReached` | src/atlas.cpp:215-309 | each region of a build has the source of a certified box that was reached |
| `BuiltRefinement.BuildVisitsReached` | src/atlas.cpp:200-281 | the nodes a successful build visits are exactly those reached, each validated, within the budget and uncancelled |
| `BuiltRefinement.BuildRefinesWithinBudget` | src/atlas.cpp:200-281 | the refinement inside a build of admitted samples succeeds exactly when the boxes reached fit the budget, are validated, and no visit is cancelled |
| `NarrowBudget.BudgetBeforeWidth` | src/atlas.cpp:226-238 | three boxes reached and a budget of three nodes: the build fails for lack of nodes, as the budget is checked before a box is found too narrow |
| `BuiltIdentity.BuiltCertificate` | src/atlas.cpp:321-352 | each region of a build carries a region-level certificate on the build's robot, scene, algorithm and padding, without a parent, for exactly its own box, with the clearance and envelope validated there |
| `BuiltIdentity.RegionTreeDetermines` | src/atlas.cpp:42-46 | in one robot and scene the digested tree of a region determines its box and source |
| `BuiltIdentity.RepairTreeDetermines` | src/atlas.cpp:56-59 | so does that of a repair domain |
| `BuiltIdentity.TreesDiffer` | src/atlas.cpp:42-68 | regions and repair domains, other robots and other scenes never share a tree |
| `BuiltIdentity.RegionIdsAreProbed` | src/atlas.cpp:320-336 | the id of each region of a build is the first one, from the leading digits of the digest of its own box and source on, that no region with an earlier source has |
| `BuiltIdentity.BuiltRepairIds` | src/atlas.cpp:353-359 | the id of each repair domain starts from the digest of its own box and source and skips ids of other repair domains only |
| `BuiltAtlas.BuildIsMerged` | src/atlas.cpp:285-309 | no two regions of a built atlas have a union the validator certifies |
| `BuiltAtlas.BuildCounts` | src/atlas.cpp:165-304 | twice certified plus unresolved is one more than visited, visited is within the budget, certified nodes are regions plus merges, unresolved nodes are repair domains, and samples are counted with and without repetition |
| `BuiltAtlas.BuildIsDeterministic` | src/atlas.cpp:176-276 | permuting or repeating samples, or another number of threads, changes neither success nor atlas nor counters except the input count |
| `ChainSearch.Expand` | src/atlas.cpp:523-528 | visiting the neighbours of a popped region keeps the discovery invariant and the sibling order |
| `ChainSearch.Backtrack` | src/atlas.cpp:533-539 | following predecessors and reversing gives the recorded path |
| `ChainSearch.FindChain` | src/atlas.cpp:508-539 | returns the least chain, shorter first and then by region ids, among all chains from a start to a goal, and nothing exactly when there is none |
| `ChainSearch.PathIsLeast` | src/atlas.cpp:508-529 | the recorded path to a discovered region is no greater than any walk to it from a start |
| `ChainSearch.ExhaustedMeansNoChain` | src/atlas.cpp:530-531 | a drained frontier without a goal means there is no chain |
| `Routing.CertifyAdjacency` | src/atlas.cpp:492-506 | keeps exactly the neighbours that share a configuration, sorted by id without repeats, or fails on an index out of range |
| `Routing.CollectEvidence` | src/atlas.cpp:556-586 | the least clearance and the common padding along the chain, or an internal error for missing, foreign or mixed certificates |
| `Routing.Route` | src/atlas.cpp:462-606 | returns nothing when there is no chain of exactly intersecting regions, otherwise the polyline and certificate along one, which is the least for unique ids; the certificate attests connectivity (see Routing.RouteAttests); every failure is accounted for |
| `Routing.RouteAttests` | src/atlas.cpp:541-605 | the certificate of a route is one of connectivity on the atlas's robot and scene, without a parent, under the route algorithm, at the padding shared by all region certificates of the chain and their least clearance, and its subject is the digest of exactly this chain and polyline; inner waypoints are in the middle of what consecutive regions share |
| `Routing.RouteTreeDetermines` | src/atlas.cpp:590-598 | equal subject trees mean the same region sequence, certificate ids, bounds and waypoints |
| `RouteTheorems.BuiltRoutesAlways` | src/atlas.cpp:470-604 | on a built atlas no internal-error branch is reachable and every chain yields a certified route |
| `RouteTheorems.IsConnected` | src/atlas.cpp:455-460 | an answer says, on any atlas, whether some chain connects the two configurations; a built atlas always answers a query of the right dimension |
| `RouteTheorems.ConnectedIsEquivalence` | src/atlas.cpp:455-460 | on a built atlas, connection is reflexive exactly on covered configurations, symmetric and transitive |
| `RouteTheorems.SegmentInRegion` | src/atlas.cpp:541-554 | one waypoint more than regions, and both ends of segment k in region k |
| `RouteTheorems.RouteIsSafe` | src/atlas.cpp:541-605 | with a sound validator every point of the polyline has at least the certificate's clearance, which is attained by a region of the chain |
| `RouteTheorems.RouteIgnoresStorageOrder` | src/atlas.cpp:475-605 | atlases with the same regions and adjacency in different storage order connect the same configurations and give the same region sequence, and the same waypoints and certificate when the certificates move with their regions and ids are unique |
| `RouteTheorems.RouteStaysInComponent` | src/atlas.cpp:374-393 | the end regions of a route share a component label |
| `RouteTheorems.ComponentsExactIffLabelsExact` | src/atlas.cpp:367-499 | equal labels promise a route exactly when labelling the graph of exactly intersecting neighbours gives the stored labels again |
| `RouteTheorems.ComponentsExactIffEdgesExact` | src/atlas.cpp:367-499 | equivalently, exactly when every adjacency edge, which may only overlap within the tolerance, is bridged by exact intersections |
| `RouteTheorems.ComponentsExactAtZero` | src/atlas.cpp:367-499 | at adjacency tolerance zero they do |
| `RouteTheorems.ConnectedIffSameComponent` | src/atlas.cpp:374-531 | at adjacency tolerance zero two covered configurations are connected exactly when their regions share a label |
| `ToleranceGap.ToleranceBridgesGaps` | src/atlas.cpp:132-531 | for every positive tolerance there is a build of one sample, for a robot that validation admits, whose two regions share a label, while no route joins them |
| `RegionIndex.ChooseAxis` | src/region_index.cpp:72-88 | the first axis of the largest normalised spread of centres |
| `RegionIndex.RegionQueryIndex.constructor` | src/region_index.cpp:46-62 | the built hierarchy spans a permutation of all regions and is balanced from its root down |
| `RegionIndex.RegionQueryIndex.BuildNode` | src/region_index.cpp:64-105 | permutes its slice in place and leaves the rest and all earlier nodes alone; boxes enclose their regions; leaves hold at most eight regions; every larger node splits at its middle along its first axis of the largest spread, no region of the lower half after one of the upper by centre and then id |
| `RegionIndex.SpreadIgnoresOrder` | src/region_index.cpp:72-88 | the spread of a slice, and so its split axis, does not depend on the order its regions are in |
| `RegionIndex.RegionQueryIndex.ContainingRegions` | src/region_index.cpp:107-132 | the pruned search, sorted, equals the linear scan of all regions |
| `RegionIndex.SortedHolding` | src/region_index.cpp:107-114 | sorting what any permutation of the regions yields gives what the scan in storage order yields |
| `RegionIndex.NothingHeld` | src/region_index.cpp:116-121 | a configuration outside a node's box is in none of its regions, so pruning loses nothing |
| `RegionIndex.LargerIsNearer` | src/region_index.cpp:17-28 | a box is at least as far away as any box enclosing it |
| `RegionIndex.RegionQueryIndex.NearestRegion` | src/region_index.cpp:134-172 | branch and bound returns a region with a configuration at least as close in Euclidean distance as every configuration of every region, ties by smallest id, and nothing only without regions |
| `RegionIndex.NearestByScan` | src/atlas.cpp:442-450 | the linear path returns such a region, ties by smallest id |
| `RegionIndex.DistanceIsLeast` | src/region_index.cpp:17-28 | no configuration of a box is closer than the distance of the box |
| `RegionIndex.DistanceIsAttained` | src/region_index.cpp:17-28 | and some configuration of it is exactly that close |
| `RegionIndex.NearestIsUnique` | src/atlas.cpp:430-453 | with unique ids the two paths return the same region |
| `QuerySlack.ConnectedIffFoundExactly` | src/atlas.cpp:406-481 | on a built atlas a configuration is connected to itself exactly when a region the point query finds there holds it without slack, and otherwise to nothing |
| `QuerySlack.ContainedButUnconnected` | src/atlas.cpp:406-481 | for every positive tolerance there are a build and a configuration its atlas contains that is connected to no configuration |
| `Certificates.IdentityIsInjective` | src/certificate.cpp:12-29 | certificates whose lineage fields are empty together are determined by their identity tree |
| `Certificates.UnpairedLineageCollides` | src/certificate.cpp:23-27 | a transition digest without a parent is not part of the identity: two different certificates share it |
| `Certificates.SubjectIff` | src/certificate.cpp:51-72 | a subject certificate is made exactly for the two certified levels from well-formed digests, a named policy and no negative number, and records just these |
| `Certificates.TransitionIff` | src/certificate.cpp:96-121 | a transition is made exactly from a region certificate of the same subject that still has its own identity, and keeps the robot and policy |
| `Certificates.RegionIff` | src/certificate.cpp:123-149 | a bound region certificate is made exactly for a certified box of the robot's dimension with one valid envelope a link, and is about that box |
| `Certificates.UnboundIff` | src/certificate.cpp:151-171 | the unbound one is made exactly for a certified validation without negative numbers, and is about nothing |
| `Certificates.ConstructorsIdentify` | src/certificate.cpp:51-121 | every constructor returns a certificate that carries its own identity and pairs its lineage fields |
| `Certificates.ChainKeepsSubject` | src/certificate.cpp:96-121 | along a chain of transitions level, robot digest, policy and subject are the root's |
| `Certificates.IdCommitsToAncestors` | src/certificate.cpp:12-121 | unless two of the certificates collide, equal ids sit at equal depth and have equal ancestors |
| `Certificates.HeadCommitsToLineage` | src/certificate.cpp:96-121 | unless two of the certificates collide, equal head ids mean equal whole chains |
| `Certificates.AxesTreeIsInjective` | src/certificate.cpp:84-94 | the subject tree of a box determines the box |
| `Certificates.UnboundHasNoSuccessor` | src/certificate.cpp:100-107 | a certificate that binds no domain is never accepted as the parent of a transition |
| `Decimal.ParseDigits` | src/calibration.cpp:185-197 | accepts exactly the non-empty digit strings whose value fits 64 bits |
| `Decimal.ParsePrint` | src/calibration.cpp:185-197 | parsing the printed form of any 64-bit counter gives it back |
| `Decimal.PrintedDigit` | src/calibration.cpp:104-108 | digits are printed most significant first and without a leading zero |
| `Decimal.CounterLength` | src/calibration.cpp:186-188 | the printed form has at most twenty digits, so field limits never cut it off |
| `Wilson.ScoreIsSmallerRoot` | src/calibration.cpp:34-43 | for every probability, count and quantile the unclamped bound is the smaller root of n(p-L)^2 = z^2 L(1-L) and lies in [0, p] |
| `Wilson.ClampIsIdle` | src/calibration.cpp:42-42 | at every quantile the clamp at zero never changes the bound |
| `Wilson.MonotoneInSuccesses` | src/calibration.cpp:34-43 | at every quantile, more successes among as many samples never lower the bound |
| `Wilson.MonotoneInSamples` | src/calibration.cpp:34-43 | at every quantile, more samples at the same success rate never lower the bound |
| `Wilson.ScoreIsConservative` | src/calibration.cpp:34-43 | for every quantile and all counts the clamped bound is between zero and the observed rate |
| `Profile.Create` | src/calibration.cpp:219-288 | the admission loop and its totals are the specified profile or the specified failure |
| `Profile.AcceptedIsPartition` | src/calibration.cpp:240-260 | accepted bins continue one another from 0 to 1, hold their means, have samples, and their counts stay within the limit |
| `ProfileMeaning.AcceptedIff` | src/calibration.cpp:219-260 | an input is accepted exactly when its declarations are, its bins run from 0 to 1 without gap or overlap and hold their means, their counts are sound, and there are not too many bins or samples |
| `ProfileMeaning.ProfileIdCommits` | src/calibration.cpp:271-272 | unless their trees collide, created profiles with one identity are the same profile |
| `ProfileMeaning.ValidIff` | src/calibration.cpp:290-308 | a profile is valid exactly when a created one declares the same and has figures within 1e-12 of its own |
| `Profile.CreatedIsValid` | src/calibration.cpp:290-308 | a created profile remembers its input and is valid |
| `Profile.Lookup` | src/calibration.cpp:310-331 | the scan returns the first bin that holds the confidence, or the specified failure |
| `Profile.LookupIsTotal` | src/calibration.cpp:310-331 | on a valid profile every confidence in [0, 1] is in exactly one bin and is looked up there, so the internal error is unreachable |
| `GateMeaning.LookupMeans` | src/calibration.cpp:310-331 | the confidence is answered from the one bin that holds it, and the conservative confidence is the lower of it and the smaller root of n(p-L)^2 = z^2 L(1-L) for the counts of that bin |
| `Profile.LookupIsConservative` | src/calibration.cpp:321-326 | the conservative confidence is at most the raw one and at most the observed rate of the bin |
| `Profile.ErrorsAreOrdered` | src/calibration.cpp:261-286 | expected calibration error is at most maximum calibration error, which is at most one |
| `DriftMeaning.ProfileErrorMeans` | src/calibration.cpp:261-285 | the expected error of a created profile is the mean, over its samples, of how far the successes of each bin are from what was promised |
| `DriftMeaning.ProfileMaximumMeans` | src/calibration.cpp:268-286 | its maximum error is that of some bin, and no bin exceeds it |
| `ProfileCodec.LoadProfile` | src/calibration.cpp:381-470 | decoding, limits, re-derivation and comparison are the specified load |
| `ProfileCodec.LoadRederives` | src/calibration.cpp:93-470 | loading a stored valid profile gives the profile derived from its counts, which is the stored one exactly when it was a created one |
| `ProfileCodec.LoadedIsCreated` | src/calibration.cpp:451-470 | whatever loads is what creation derives, whatever its stored statistics said |
| `ProfileMeaning.LoadsIffValid` | src/calibration.cpp:93-470 | a stored profile, whatever it holds, loads exactly when it is valid |
| `Gate.CheckProposals` | src/calibration.cpp:473-566 | admission, the adjusting loop and its failures are the specified adjustment |
| `Gate.AppliedIff` | src/calibration.cpp:517-566 | a batch past admission is accepted exactly when it is not cancelled, every proposal has an application, and no two share an identity |
| `GateMeaning.AdmittedIff` | src/calibration.cpp:478-510 | a batch is admitted exactly for a valid profile of the scope and model asked for that meets the quality asked for, with some proposals but not too many; another scope or model is an identity mismatch |
| `GateMeaning.AdjustedIff` | src/calibration.cpp:517-566 | a batch is adjusted exactly when admitted, not cancelled at any 64th proposal, and every proposal has an application under an identity of its own |
| `GateMeaning.EffectiveConfidenceIsRoot` | src/calibration.cpp:530-566 | every accepted proposal is handed on with the lower of its own confidence and the smaller root for the counts of its bin, and its application records exactly that |
| `GateMeaning.ApplicationTreeDetermines` | src/calibration.cpp:548-559 | the identity tree of an application determines the action and everything but the id |
| `Gate.ScopedProposalApplies` | src/calibration.cpp:524-537 | a proposal has an application exactly when its policy and task match, its confidence is in [0, 1], and the bin that holds it has enough samples |
| `Gate.EffectiveConfidenceIsConservative` | src/calibration.cpp:530-547 | every accepted proposal keeps its action and claims except the confidence, which is lowered to at most the reported one and at most the observed rate of its bin |
| `Drift.AdmitWindow` | src/calibration_lifecycle.cpp:197-213 | totals of the window, or the failure of its first inadmissible bin |
| `Drift.CompareBins` | src/calibration_lifecycle.cpp:233-266 | the accumulating loop yields the specified comparison, sums and maxima, bins without outcomes contributing nothing |
| `Drift.AssessDrift` | src/calibration_lifecycle.cpp:187-288 | admission, statistics, reasons and status are the specified assessment |
| `DriftMeaning.AssessedIff` | src/calibration_lifecycle.cpp:190-213 | a window is assessed exactly when the profile is valid, declarations and options are in range, there is one count pair a bin, no bin succeeds more often than observed, and the total is in range |
| `DriftMeaning.ReasonsAreExact` | src/calibration_lifecycle.cpp:269-285 | each reason is listed exactly when what it names is so: the data reasons whenever they hold, each drift reason when there is data enough and its own statistic exceeds its own limit; in a fixed order |
| `DriftMeaning.StatusFollowsReasons` | src/calibration_lifecycle.cpp:274-287 | the status is insufficient data exactly with a data reason, and stable exactly without any |
| `DriftMeaning.ReportMeans` | src/calibration_lifecycle.cpp:215-267 | every figure of a report is what its name says: bin shares, rates, drops and errors, overall rates and drop, the mean miss as expected error, the attained maxima, and as total variation the largest difference of shares over sets of bins |
| `DriftBounds.TotalVariationIsUnit` | src/calibration_lifecycle.cpp:265-268 | total variation distance is in [0, 1] |
| `DriftBounds.WindowErrorsAreOrdered` | src/calibration_lifecycle.cpp:249-270 | expected calibration error of a window is at most its maximum, which is at most one |
| `DriftBounds.OverallDropIsBounded` | src/calibration_lifecycle.cpp:223-268 | for every window the overall success-rate drop is at most the maximum bin drop plus the total variation distance |
| `DriftBounds.OverallDropIsNeverAlone` | src/calibration_lifecycle.cpp:280-287 | if the two component thresholds sum to at most the overall one, an overall drop is never the only reason |
| `DriftBounds.RepeatedCalibrationHasNoDrift` | src/calibration_lifecycle.cpp:215-270 | a window repeating the calibration counts has zero variation and drops and exactly the recorded calibration errors |
| `Lifecycle.PolicyCalibrationLifecycle.Create` | src/calibration_lifecycle.cpp:291-305 | a fresh lifecycle holding the registration event, or a failure for an invalid profile |
| `Lifecycle.PolicyCalibrationLifecycle.Assess` | src/calibration_lifecycle.cpp:307-352 | appends exactly the specified event and report, or refuses and changes nothing |
| `Lifecycle.PolicyCalibrationLifecycle.Transition` | src/calibration_lifecycle.cpp:354-387 | appends exactly the specified event, or refuses and changes nothing |
| `LifecycleMeaning.AllowedIffMove` | src/calibration_lifecycle.cpp:142-164 | exactly eight moves are allowed, activation only on a stable latest report |
| `LifecycleMeaning.CreatedIff` | src/calibration_lifecycle.cpp:291-305 | a lifecycle comes into being exactly for a valid profile, pending, with its registration as only event |
| `LifecycleMeaning.AssessedIff` | src/calibration_lifecycle.cpp:307-352 | an assessment succeeds exactly on a valid log that is not retired, against its own head, with room left, for a newer window that the profile assesses, and records one chained event, the report and the state that follows, nothing else |
| `LifecycleMeaning.AssessmentRefusedAs` | src/calibration_lifecycle.cpp:311-331 | a wrong head is reported before missing room, and both only for requests otherwise in order |
| `LifecycleMeaning.TransitionedIff` | src/calibration_lifecycle.cpp:354-387 | a transition succeeds exactly on a valid log, against its own head, with an acceptable detail and room left, along an allowed move, and records one chained event and nothing else |
| `LifecycleMeaning.TransitionRefusedAs` | src/calibration_lifecycle.cpp:357-373 | a wrong head is reported before missing room, and both only for requests otherwise in order |
| `LifecycleMeaning.ActivatedByReviewIff` | src/calibration_lifecycle.cpp:142-164 | review alone makes a lifecycle active exactly when it is not retired and its latest report is stable, and then two transitions are enough |
| `LifecycleMeaning.EqualReportMeans` | src/calibration_lifecycle.cpp:87-129 | replay takes a stored report for the rebuilt one exactly when all but the figures is identical and each figure is within 1e-12 |
| `Lifecycle.ReplayEvents` | src/calibration_lifecycle.cpp:452-491 | the replay loop follows the events one by one and fails at the first that does not follow from those before it |
| `Lifecycle.PolicyCalibrationLifecycle.Valid` | src/calibration_lifecycle.cpp:441-493 | the head fields and the outcome of the replay decide validity |
| `Lifecycle.PolicyCalibrationLifecycle.Summarize` | src/calibration_lifecycle.cpp:412-433 | the counting loops yield the specified counters |
| `LifecycleRuns.RunKeepsValid` | src/calibration_lifecycle.cpp:291-493 | every run of assessments and transitions, accepted or refused, is valid at every point |
| `LifecycleRuns.RunAppends` | src/calibration_lifecycle.cpp:345-383 | runs only append: events and reports once recorded stay |
| `LifecycleRuns.StaleHeadIsRefused` | src/calibration_lifecycle.cpp:315-364 | a command naming another head is refused and changes nothing |
| `LifecycleRuns.RetiredIsFinal` | src/calibration_lifecycle.cpp:142-146 | no run changes a retired lifecycle |
| `LifecycleRuns.AssessmentExtends` | src/calibration_lifecycle.cpp:463-480 | replay accepts the assessment of any admitted newer window, in whatever state |
| `LifecycleRuns.ReportRemembers` | src/calibration_lifecycle.cpp:48-66 | a report determines its window and options, and its identity is the digest of them |
| `LifecycleReplay.AcceptedIffRun` | src/calibration_lifecycle.cpp:291-493 | replay accepts a log in which no retired lifecycle is assessed exactly when it is the log of a run, up to rounding of derived statistics |
| `LifecycleReplay.RetiredCanBeReopened` | src/calibration_lifecycle.cpp:131-139 | for every valid profile there is a valid log that assesses a retired lifecycle back to quarantine and that no run makes |
| `LifecycleHistory.ActiveIffReady` | src/calibration_lifecycle.cpp:435-439 | a valid lifecycle is active exactly when it is ready for deployment |
| `LifecycleHistory.DriftIsReviewed` | src/calibration_lifecycle.cpp:131-164 | between a detected drift and any later active state there are a newer stable assessment, a release from quarantine, and after both a reactivation |
| `LifecycleHistory.SummaryAddsUp` | src/calibration_lifecycle.cpp:412-433 | in a valid lifecycle the counters account for every report and every event |
| `LifecycleMeaning.SummaryCounts` | src/calibration_lifecycle.cpp:412-433 | each counter is the number of the reports or events it is named after |
| `LifecycleIdentity.EventTreeDetermines` | src/calibration_lifecycle.cpp:68-81 | the identity tree of an event determines everything but its id |
| `LifecycleIdentity.ReportTreeDetermines` | src/calibration_lifecycle.cpp:48-66 | the identity tree of a report determines its window and options |
| `LifecycleIdentity.HeadCommitsToHistory` | src/calibration_lifecycle.cpp:48-81 | unless two digested records collide, valid logs of one profile with equal heads have equal events and equal report inputs |
| `LifecycleIdentity.IdentitiesAreDistinct` | src/calibration_lifecycle.cpp:456-480 | unless two digested records collide, all event and report ids of a valid log are distinct |
| `GuardedGate.CheckProposalsGuarded` | src/calibration_lifecycle.cpp:507-530 | adjusts only under the current head of a valid, deployment-ready lifecycle, and names that head |
| `GuardedGate.GuardedIff` | src/calibration_lifecycle.cpp:507-530 | a batch is adjusted exactly behind a valid, active lifecycle whose head the caller names, and then as the profile's own gate adjusts it |
| `GuardedGate.GuardedBatchIsReviewed` | src/calibration_lifecycle.cpp:513-528 | every drift ever detected under the named head has been reviewed since |
| `GuardedGate.GuardedBatchesShareHistory` | src/calibration_lifecycle.cpp:518-528 | unless two digested records collide, batches of one profile naming the same head, whatever their scopes, models, options and cancellation, were adjusted under the same history |
| `LifecycleCodec.ReadReports` | src/calibration_lifecycle_persistence.cpp:437-451 | the report loop with its running bin budget, which is never overdrawn |
| `LifecycleCodec.Load` | src/calibration_lifecycle_persistence.cpp:383-464 | field checks, limits, decoding loops and final replay are the specified load |
| `LifecycleRoundTrip.ReportRoundTrip` | src/calibration_lifecycle_persistence.cpp:38-315 | decoding an encoded report gives it back, counters, enumerations and bins included |
| `LifecycleRoundTrip.EventRoundTrip` | src/calibration_lifecycle_persistence.cpp:79-343 | decoding an encoded event gives it back |
| `LifecycleRoundTrip.LoadUndoesStore` | src/calibration_lifecycle_persistence.cpp:92-464 | loading the encoding of a valid lifecycle gives it back whenever the limits leave room for it |
| `LifecycleRoundTrip.LoadsIffValid` | src/calibration_lifecycle_persistence.cpp:92-464 | a stored lifecycle loads exactly when it is valid and within the limits |
| `LifecycleRoundTrip.StoringIsInjective` | src/calibration_lifecycle_persistence.cpp:92-113 | no two valid lifecycles of a profile are encoded alike |
| `LifecycleRoundTrip.LoadedIsValid` | src/calibration_lifecycle_persistence.cpp:425-463 | whatever loads is valid, and its reports, events and total bins are within the limits |

## Left out

- File handling: saving, publishing, byte limits and directories are I/O; only the trees are modelled.
- Text level: SHA-256 and JSON printing and parsing are not modelled; region ids are digests of a tree holding the parts the source joins with separators.
- Floating point: rounding, NaN and infinity checks of doubles; exact reals are used throughout, so infinite initial minima start from the first element instead.
- Models behind the builder: kinematics, validators, and the validation and digests of robots and scenes; the builder starts from a `Workcell`.
- Stored atlas parts: the LECT snapshot, version information and the atlas version identity are not part of the atlas record.
- Update in place: the builder's work list, the atlas record and the LECT are values that methods rebuild, so aliasing inside them is not captured; the lifecycle and the region index are classes updated in place.
- Real concurrency: the two child validations of a parallel split are modelled by their data flow, not by threads.
- Unstable sorts: `std::sort` and `std::stable_sort` are insertion sorts; wherever the order of equal elements could matter it is excluded by distinct keys.
- Empty index dimension: a region index is built only over valid boxes of the atlas dimension, as every atlas holds them.
- Gate hand-over: `gate_.check_proposals` and the action digest are defined elsewhere; a proposal carries its action digest and the model stops at the adjusted proposals.
- Lookup by report id: `latest_report` and `report` only read a list.
- Incremental updates: scene changes, dynamic atlases, region databases and every other component of the library.
