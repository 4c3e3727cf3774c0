/** What the entries of a built atlas are called and certified as: the fields of
    every certificate, the ids of regions and repair domains, and what these ids
    are digests of. */
module BuiltIdentity {
  import opened Support
  import opened Sequences
  import opened Boxes
  import opened Certificates
  import opened Lect
  import opened Refinement
  import opened Merging
  import opened RegionIds
  import opened Assembly
  import opened Routing
  import opened AtlasBuilder
  import opened BuiltAtlas

  // ----- certificates

  /** Every region of a built atlas is certified as a region, on the robot, the
      scene and the algorithm of the build, without a parent, at the build's
      padding, for exactly its own box and with the clearance validated there. */
  lemma {:induction false} BuiltCertificate(hash: Hash, cell: Workcell, options: BuildOptions, atlas: SafeAtlas, i: nat)
    requires Built(hash, cell, options, atlas) && i < |atlas.regions|
    ensures var box, c, envelope := atlas.regions[i].bounds, atlas.certificates[i], atlas.dependencies[i].envelope;
            && cell.validate(box) == Ok(RegionValidation(CertifiedFree, c.clearance, envelope))
            && Records(hash, c, CertifiedRegion, cell.robotDigest, cell.sceneDigest,
                       ValidationPolicy(cell.algorithm, cell.algorithmVersion, options.obstaclePadding), c.clearance)
            && c.subjectDigest == Certificates.SubjectDigest(hash, box) && c.parentId == "" == c.transitionDigest
            && |envelope| == cell.linkCount && c.clearance >= 0.0
            && atlas.dependencies[i].regionId == atlas.regions[i].id && atlas.regions[i].certificateIndex == i
  {
    assert RegionBuilt(hash, cell, options.obstaclePadding, atlas, i);
    var validation := RegionValidation(CertifiedFree, atlas.certificates[i].clearance, atlas.dependencies[i].envelope);
    RegionIff(hash, cell, atlas.regions[i].bounds, validation, options.obstaclePadding, atlas.certificates[i]);
  }

  // ----- what the ids are digests of

  /** In one robot and scene, the tree of a region determines its box and its source. */
  lemma {:induction false} RegionTreeDetermines(cell: Workcell, a: Box, s: NodeKey, b: Box, t: NodeKey)
    requires RegionTree(cell, a, s) == RegionTree(cell, b, t)
    ensures a == b && s == t
  {
    var x, y := RegionTree(cell, a, s).items, RegionTree(cell, b, t).items;
    assert x[2] == y[2] && x[3] == y[3];
    AxesTreeIsInjective(a, b);
    PathIsInjective(s, t);
  }

  lemma {:induction false} RepairTreeDetermines(cell: Workcell, a: Box, s: NodeKey, b: Box, t: NodeKey)
    requires RepairTree(cell, a, s) == RepairTree(cell, b, t)
    ensures a == b && s == t
  {
    var x, y := RepairTree(cell, a, s).items, RepairTree(cell, b, t).items;
    assert x[3] == y[3] && x[4] == y[4];
    AxesTreeIsInjective(a, b);
    PathIsInjective(s, t);
  }

  /** Regions and repair domains never share a tree, nor do robots or scenes. */
  lemma {:induction false} TreesDiffer(cell: Workcell, a: Box, s: NodeKey, other: Workcell, b: Box, t: NodeKey)
    ensures RegionTree(cell, a, s) != RepairTree(other, b, t)
    ensures RegionTree(cell, a, s) == RegionTree(other, b, t) || RepairTree(cell, a, s) == RepairTree(other, b, t) ==>
              cell.robotDigest == other.robotDigest && cell.sceneDigest == other.sceneDigest
  {
    var x, y := RegionTree(cell, a, s).items, RepairTree(other, b, t).items;
    assert |x| == 4 && |y| == 5;
    var z, v, w := RegionTree(other, b, t).items, RepairTree(cell, a, s).items, RepairTree(other, b, t).items;
    assert x[0] == JString(cell.robotDigest) == v[0] && x[1] == JString(cell.sceneDigest) == v[1];
    assert z[0] == JString(other.robotDigest) == w[0] && z[1] == JString(other.sceneDigest) == w[1];
  }

  lemma {:induction false} HexValueIsInjective(a: char, b: char)
    requires IsHexDigit(a) && IsHexDigit(b) && HexValue(a) == HexValue(b)
    ensures a == b
  {
  }

  lemma {:induction false} LastHexDigit(p: nat, v: nat, q: nat, w: nat)
    requires v < 16 && w < 16 && 16 * p + v == 16 * q + w
    ensures p == q && v == w
  {
  }

  lemma {:induction false} HexPrefixIsInjective(a: string, b: string, n: nat)
    requires ValidSha256(a) && ValidSha256(b) && n <= 64 && HexPrefix(a, n) == HexPrefix(b, n)
    ensures a[..n] == b[..n]
  {
    if n > 0 {
      LastHexDigit(HexPrefix(a, n - 1), HexValue(a[n - 1]), HexPrefix(b, n - 1), HexValue(b[n - 1]));
      HexPrefixIsInjective(a, b, n - 1);
      assert a[n - 1] == b[n - 1] by {
        HexValueIsInjective(a[n - 1], b[n - 1]);
      }
      assert a[..n] == a[..n - 1] + [a[n - 1]] && b[..n] == b[..n - 1] + [b[n - 1]];
    }
  }

  /** An id keeps the first sixteen digits of its digest, zero and one aside. */
  lemma {:induction false} IdKeepsDigits(a: string, b: string)
    requires ValidSha256(a) && ValidSha256(b) && IdOfDigest(a) == IdOfDigest(b) != 1
    ensures a[..16] == b[..16]
  {
    HexPrefixIsInjective(a, b, 16);
  }

  // ----- the ids of regions

  lemma {:induction false} AssignGrows(wanted: seq<U64>)
    requires 0 < |wanted| <= TWO_TO_THE_64
    ensures var last := |wanted| - 1;
            AssignIds(wanted)[..last] == AssignIds(wanted[..last])
  {
  }

  lemma {:induction false} WholePrefix<T>(all: seq<T>)
    ensures all[..|all|] == all
  {
  }

  lemma {:induction false} PrefixOfPrefix<T>(all: seq<T>, before: seq<T>, first: seq<T>, k: nat)
    requires before <= all && k <= |before| && before[..k] == first
    ensures all[..k] == first
  {
  }

  lemma {:induction false} AssignKeepsWhole(wanted: seq<U64>)
    requires |wanted| <= TWO_TO_THE_64
    ensures AssignIds(wanted)[..|wanted|] == AssignIds(wanted[..|wanted|])
  {
    WholePrefix(wanted);
    WholePrefix(AssignIds(wanted));
  }

  lemma {:induction false} AssignKeepsShorter(wanted: seq<U64>, k: nat)
    requires |wanted| <= TWO_TO_THE_64 && k < |wanted|
    requires AssignIds(wanted[..|wanted| - 1])[..k] == AssignIds(wanted[..k])
    ensures AssignIds(wanted)[..k] == AssignIds(wanted[..k])
  {
    AssignGrows(wanted);
    PrefixOfPrefix(AssignIds(wanted), AssignIds(wanted[..|wanted| - 1]), AssignIds(wanted[..k]), k);
  }

  lemma {:induction false} AssignKeepsPrefix(wanted: seq<U64>, k: nat)
    requires |wanted| <= TWO_TO_THE_64 && k <= |wanted|
    ensures AssignIds(wanted)[..k] == AssignIds(wanted[..k])
  {
    if k == |wanted| {
      AssignKeepsWhole(wanted);
    } else {
      AssignKeepsPrefix(wanted[..|wanted| - 1], k);
      assert wanted[..|wanted| - 1][..k] == wanted[..k];
      AssignKeepsShorter(wanted, k);
    }
  }

  lemma {:induction false} AssignLastOf(wanted: seq<U64>, k: nat)
    requires |wanted| == k + 1 <= TWO_TO_THE_64
    ensures AssignIds(wanted)[k] == FreeId(wanted[k], Taken(AssignIds(wanted[..k])))
  {
  }

  /** Each id is probed past those assigned before it. */
  lemma {:induction false} AssignAt(wanted: seq<U64>, k: nat)
    requires |wanted| <= TWO_TO_THE_64 && k < |wanted|
    ensures AssignIds(wanted)[k] == FreeId(wanted[k], Taken(AssignIds(wanted)[..k]))
  {
    AssignKeepsPrefix(wanted, k);
    AssignKeepsPrefix(wanted, k + 1);
    assert wanted[..k + 1][..k] == wanted[..k];
    AssignLastOf(wanted[..k + 1], k);
    LastOfPrefix(AssignIds(wanted), AssignIds(wanted[..k + 1]), k);
  }

  lemma {:induction false} LastOfPrefix<T>(all: seq<T>, first: seq<T>, k: nat)
    requires k < |all| && all[..k + 1] == first
    ensures all[k] == first[k]
  {
  }

  lemma {:induction false} WantedAt(hash: Hash, cell: Workcell, pending: seq<PendingRegion>, k: nat)
    requires IsSha256(hash) && k < |pending|
    ensures WantedIds(hash, cell, pending)[k] == WantedId(hash, cell, pending[k])
  {
    if k < |pending| - 1 {
      WantedAt(hash, cell, pending[..|pending| - 1], k);
    }
  }

  /** A region whose source comes before that of region `i` has the id. */
  ghost predicate UsedBefore(regions: seq<SafeRegion>, i: nat, id: U64)
    requires i < |regions|
  {
    exists j :: 0 <= j < |regions| && j != i && KeyLe(regions[j].source, regions[i].source) && regions[j].id == id
  }

  /** The id of region `i` is the first one, from the wanted one on, that no
      region with an earlier source has. */
  ghost predicate IsFirstFree(regions: seq<SafeRegion>, i: nat, wanted: U64)
    requires i < |regions|
  {
    && !UsedBefore(regions, i, regions[i].id)
    && exists k: nat {:trigger After(wanted, k)} ::
         After(wanted, k) == regions[i].id && forall j :: 0 <= j < k ==> UsedBefore(regions, i, After(wanted, j))
  }

  /** Entry `i` was made from merged region `k`. */
  ghost predicate MadeAt(pending: seq<PendingRegion>, ids: seq<U64>, regions: seq<SafeRegion>, i: nat, k: nat) {
    && |ids| == |pending| && k < |pending| && i < |regions|
    && regions[i].id == ids[k] && regions[i].source == pending[k].source && regions[i].bounds == pending[k].bounds
  }

  /** Which merged region each entry was made from, and where each merged region went. */
  datatype Places = Places(order: seq<nat>, place: seq<nat>)

  ghost predicate Placed(pending: seq<PendingRegion>, ids: seq<U64>, regions: seq<SafeRegion>, p: Places) {
    && |regions| == |pending| == |ids| == |p.order| == |p.place|
    && (forall i :: 0 <= i < |regions| ==> MadeAt(pending, ids, regions, i, p.order[i]))
    && (forall k :: 0 <= k < |pending| ==> MadeAt(pending, ids, regions, p.place[k], k))
  }

  lemma {:induction false} SortingPlaces(pending: seq<PendingRegion>, ids: seq<U64>) returns (p: Places)
    requires |ids| == |pending|
    ensures Placed(pending, ids, Sort(IdLe, UnsortedRegions(pending, ids)), p)
  {
    var unsorted := UnsortedRegions(pending, ids);
    var sorted := Sort(IdLe, unsorted);
    SortedIndices(pending, ids);
    SortMembers(IdLe, unsorted);
    var order := seq(|sorted|, i requires 0 <= i < |sorted| => sorted[i].certificateIndex);
    var place: seq<nat> := [];
    while |place| < |pending|
      invariant |place| <= |pending|
      invariant forall k :: 0 <= k < |place| ==> MadeAt(pending, ids, sorted, place[k], k)
    {
      assert unsorted[|place|] in sorted;
      var i: nat :| i < |sorted| && sorted[i] == unsorted[|place|];
      place := place + [i];
    }
    p := Places(order, place);
  }

  lemma {:induction false} EarlierSource(pending: seq<PendingRegion>, k: nat, m: nat)
    requires SourcesSorted(pending) && k < |pending| && m < |pending|
    ensures KeyLe(pending[m].source, pending[k].source) <==> m <= k
  {
    KeyOrder();
  }

  /** The ids taken when the id of merged region `k` was probed are those of the
      regions with earlier sources. */
  lemma {:induction false} TakenIsUsedBefore(pending: seq<PendingRegion>, ids: seq<U64>, regions: seq<SafeRegion>,
                                             p: Places, i: nat, id: U64)
    requires SourcesSorted(pending) && NoDuplicates(ids) && Placed(pending, ids, regions, p) && i < |regions|
    requires forall i, j :: 0 <= i < j < |regions| ==> regions[i].id < regions[j].id
    ensures MadeAt(pending, ids, regions, i, p.order[i])
    ensures id in ids[..p.order[i]] <==> UsedBefore(regions, i, id)
  {
    assert MadeAt(pending, ids, regions, i, p.order[i]);
    var k := p.order[i];
    if id in ids[..k] {
      var m :| 0 <= m < k && ids[m] == id;
      var j := p.place[m];
      assert MadeAt(pending, ids, regions, j, m);
      EarlierSource(pending, k, m);
      assert ids[m] != ids[k];
      assert j != i && KeyLe(regions[j].source, regions[i].source) && regions[j].id == id;
    }
    if UsedBefore(regions, i, id) {
      var j: nat :| j < |regions| && j != i && KeyLe(regions[j].source, regions[i].source) && regions[j].id == id;
      var m := p.order[j];
      assert MadeAt(pending, ids, regions, j, m);
      EarlierSource(pending, k, m);
      assert ids[m] == id;
    }
  }

  lemma {:induction false} ProbedIsFirstFree(pending: seq<PendingRegion>, wanted: seq<U64>, regions: seq<SafeRegion>,
                                             p: Places, i: nat)
    requires |wanted| <= TWO_TO_THE_64 && SourcesSorted(pending) && Placed(pending, AssignIds(wanted), regions, p)
    requires i < |regions| && forall i, j :: 0 <= i < j < |regions| ==> regions[i].id < regions[j].id
    ensures IsFirstFree(regions, i, wanted[p.order[i]])
  {
    var ids, k := AssignIds(wanted), p.order[i];
    AssignedAreDistinct(wanted);
    assert MadeAt(pending, ids, regions, i, k);
    AssignAt(wanted, k);
    var taken := Taken(ids[..k]);
    var probes := Probes(wanted[k], taken);
    forall j | 0 <= j < probes ensures UsedBefore(regions, i, After(wanted[k], j)) {
      TakenIsUsedBefore(pending, ids, regions, p, i, After(wanted[k], j));
    }
    TakenIsUsedBefore(pending, ids, regions, p, i, regions[i].id);
  }

  /** Each region of a build is called by the leading digits of the digest of its
      own box and source, moved past the ids of regions with earlier sources. */
  lemma {:induction false} RegionIdsAreProbed(hash: Hash, cell: Workcell, samples: seq<Point>, options: BuildOptions,
                                              cancelled: nat -> bool, i: nat)
    requires IsSha256(hash) && BuildOf(hash, cell, samples, options, cancelled).Ok?
    requires i < |BuildOf(hash, cell, samples, options, cancelled).value.atlas.regions|
    ensures var regions := BuildOf(hash, cell, samples, options, cancelled).value.atlas.regions;
            IsFirstFree(regions, i, IdOfDigest(hash(RegionTree(cell, regions[i].bounds, regions[i].source))))
  {
    var refined, merged := BuildUnfolds(hash, cell, samples, options, cancelled);
    RefinedStage(cell, samples, options, cancelled, refined);
    MergedRegions(cell.validate, |cell.domain|, options.adjacencyTolerance, SortBySource(refined.pending));
    CatalogIdsAreProbed(hash, cell, options, merged, refined.unresolved, i);
  }

  lemma {:induction false} CatalogIdsAreProbed(hash: Hash, cell: Workcell, options: BuildOptions,
                                               merged: seq<PendingRegion>, unresolved: seq<RepairDomain>, i: nat)
    requires IsSha256(hash) && |merged| <= TWO_TO_THE_64 && |unresolved| <= TWO_TO_THE_64 && SourcesSorted(merged)
    requires AtlasFor(hash, cell, options, merged, unresolved).Ok?
    requires i < |AtlasFor(hash, cell, options, merged, unresolved).value.regions|
    ensures var regions := AtlasFor(hash, cell, options, merged, unresolved).value.regions;
            IsFirstFree(regions, i, IdOfDigest(hash(RegionTree(cell, regions[i].bounds, regions[i].source))))
  {
    var wanted := WantedIds(hash, cell, merged);
    var ids := AssignIds(wanted);
    var regions := AtlasFor(hash, cell, options, merged, unresolved).value.regions;
    var sorted := Sort(IdLe, UnsortedRegions(merged, ids));
    var p := SortingPlaces(merged, ids);
    CatalogIsAligned(hash, cell, options.obstaclePadding, merged);
    RegionsAreSorted(hash, cell, options, merged, unresolved);
    SamePlaces(merged, ids, sorted, regions, p);
    ProbedIsFirstFree(merged, wanted, regions, p, i);
    assert MadeAt(merged, ids, regions, i, p.order[i]);
    WantedAt(hash, cell, merged, p.order[i]);
  }

  /** The regions of an atlas are the sorted ones, but for indices and labels. */
  lemma {:induction false} RegionsAreSorted(hash: Hash, cell: Workcell, options: BuildOptions,
                                            merged: seq<PendingRegion>, unresolved: seq<RepairDomain>)
    requires IsSha256(hash) && |merged| <= TWO_TO_THE_64 && |unresolved| <= TWO_TO_THE_64
    requires AtlasFor(hash, cell, options, merged, unresolved).Ok?
    ensures var regions := AtlasFor(hash, cell, options, merged, unresolved).value.regions;
            && SameNames(Sort(IdLe, UnsortedRegions(merged, AssignIds(WantedIds(hash, cell, merged)))), regions)
            && forall i, j :: 0 <= i < j < |regions| ==> regions[i].id < regions[j].id
  {
    var catalog := CatalogFor(hash, cell, options.obstaclePadding, merged).value;
    CatalogIsAligned(hash, cell, options.obstaclePadding, merged);
    assert SameNames(Sort(IdLe, UnsortedRegions(merged, AssignIds(WantedIds(hash, cell, merged)))), catalog.regions);
  }

  ghost predicate SameNames(a: seq<SafeRegion>, b: seq<SafeRegion>) {
    && |a| == |b|
    && forall i :: 0 <= i < |a| ==> a[i].id == b[i].id && a[i].bounds == b[i].bounds && a[i].source == b[i].source
  }

  lemma {:induction false} SamePlaces(pending: seq<PendingRegion>, ids: seq<U64>, a: seq<SafeRegion>,
                                      b: seq<SafeRegion>, p: Places)
    requires SameNames(a, b) && Placed(pending, ids, a, p)
    ensures Placed(pending, ids, b, p)
  {
    forall i | 0 <= i < |b| ensures MadeAt(pending, ids, b, i, p.order[i]) {
      assert MadeAt(pending, ids, a, i, p.order[i]);
    }
    forall k | 0 <= k < |pending| ensures MadeAt(pending, ids, b, p.place[k], k) {
      assert MadeAt(pending, ids, a, p.place[k], k);
    }
  }

  // ----- the ids of repair domains

  ghost predicate HasRepairId(domains: seq<RepairDomain>, id: U64) {
    exists m :: 0 <= m < |domains| && domains[m].id == id
  }

  lemma {:induction false} WantedRepairAt(hash: Hash, cell: Workcell, unresolved: seq<RepairDomain>, k: nat)
    requires IsSha256(hash) && k < |unresolved|
    ensures WantedRepairIds(hash, cell, unresolved)[k] == WantedRepairId(hash, cell, unresolved[k])
  {
    if k < |unresolved| - 1 {
      WantedRepairAt(hash, cell, unresolved[..|unresolved| - 1], k);
    }
  }

  lemma {:induction false} AssignedAreListed(unresolved: seq<RepairDomain>, ids: seq<U64>, n: nat)
    requires |ids| == |unresolved| && n < |ids|
    ensures HasRepairId(Sort(RepairIdLe, WithIds(unresolved, ids)), ids[n])
  {
    var named := WithIds(unresolved, ids);
    SortMembers(RepairIdLe, named);
    assert named[n] in Sort(RepairIdLe, named);
  }

  lemma {:induction false} SkippedAreAssigned(wanted: seq<U64>, n: nat) returns (k: nat)
    requires |wanted| <= TWO_TO_THE_64 && n < |wanted|
    ensures After(wanted[n], k) == AssignIds(wanted)[n]
    ensures forall j :: 0 <= j < k ==> After(wanted[n], j) in AssignIds(wanted)
  {
    AssignAt(wanted, n);
    k := Probes(wanted[n], Taken(AssignIds(wanted)[..n]));
  }

  /** Each repair domain is called by the leading digits of the digest of its own
      box and source, moved past ids of other repair domains only. */
  lemma {:induction false} RepairIdsAreProbed(hash: Hash, cell: Workcell, unresolved: seq<RepairDomain>, i: nat)
    returns (k: nat)
    requires IsSha256(hash) && |unresolved| <= TWO_TO_THE_64 && i < |RepairDomainsFor(hash, cell, unresolved)|
    ensures var domains := RepairDomainsFor(hash, cell, unresolved);
            var wanted := IdOfDigest(hash(RepairTree(cell, domains[i].bounds, domains[i].source)));
            After(wanted, k) == domains[i].id
                && forall j :: 0 <= j < k ==> HasRepairId(domains, After(wanted, j))
  {
    var wanted := WantedRepairIds(hash, cell, unresolved);
    var ids := AssignIds(wanted);
    var domains, named := RepairDomainsFor(hash, cell, unresolved), WithIds(unresolved, ids);
    SortMembers(RepairIdLe, named);
    assert domains[i] in named;
    var n: nat :| n < |named| && named[n] == domains[i];
    WantedRepairAt(hash, cell, unresolved, n);
    k := SkippedAreAssigned(wanted, n);
    forall j | 0 <= j < k ensures HasRepairId(domains, After(wanted[n], j)) {
      var m: nat :| m < |ids| && ids[m] == After(wanted[n], j);
      AssignedAreListed(unresolved, ids, m);
    }
  }

  /** So it is in a build. */
  lemma {:induction false} BuiltRepairIds(hash: Hash, cell: Workcell, samples: seq<Point>, options: BuildOptions,
                                          cancelled: nat -> bool, i: nat) returns (k: nat)
    requires IsSha256(hash) && BuildOf(hash, cell, samples, options, cancelled).Ok?
    requires i < |BuildOf(hash, cell, samples, options, cancelled).value.atlas.repairDomains|
    ensures var domains := BuildOf(hash, cell, samples, options, cancelled).value.atlas.repairDomains;
            var wanted := IdOfDigest(hash(RepairTree(cell, domains[i].bounds, domains[i].source)));
            After(wanted, k) == domains[i].id
                && forall j :: 0 <= j < k ==> HasRepairId(domains, After(wanted, j))
  {
    var refined, merged := BuildUnfolds(hash, cell, samples, options, cancelled);
    k := RepairIdsAreProbed(hash, cell, refined.unresolved, i);
  }
}
