/** From merged regions to the atlas tables: certificates, ids, the sort by id
    with certificates and dependencies re-aligned, and the adjacency graph. */
module Assembly {
  import opened Support
  import opened Sequences
  import opened Boxes
  import opened Certificates
  import opened Lect
  import opened Refinement
  import opened RegionIds

  datatype SafeRegion = SafeRegion(id: U64, bounds: Box, certificateIndex: nat, component: nat, source: NodeKey)

  datatype RegionDependency = RegionDependency(regionId: U64, envelope: Envelope)

  /** The region table and its two parallel arrays. */
  datatype Catalog = Catalog(regions: seq<SafeRegion>, certificates: seq<Certificate>,
                             dependencies: seq<RegionDependency>)

  // ----- certificates

  function CertificateFor(hash: Hash, cell: Workcell, padding: real, region: PendingRegion): Result<Certificate> {
    MakeRegionCertificate(hash, cell, region.bounds,
                          RegionValidation(CertifiedFree, region.clearance, region.envelope), padding)
  }

  /** One certificate a region, or the first failure. */
  function CertificatesFor(hash: Hash, cell: Workcell, padding: real,
                           pending: seq<PendingRegion>): Result<seq<Certificate>> {
    if pending == [] then Ok([]) else
      var before :- CertificatesFor(hash, cell, padding, pending[..|pending| - 1]);
      var certificate :- CertificateFor(hash, cell, padding, Last(pending));
      Ok(before + [certificate])
  }

  lemma {:induction false} CertificateAt(hash: Hash, cell: Workcell, padding: real, pending: seq<PendingRegion>, i: nat)
    requires CertificatesFor(hash, cell, padding, pending).Ok? && i < |pending|
    ensures |CertificatesFor(hash, cell, padding, pending).value| == |pending|
    ensures CertificateFor(hash, cell, padding, pending[i])
            == Ok(CertificatesFor(hash, cell, padding, pending).value[i])
  {
    var before := pending[..|pending| - 1];
    if before != [] {
      CertificateAt(hash, cell, padding, before, if i < |before| then i else 0);
    }
  }

  lemma {:induction false} CertificatesFail(hash: Hash, cell: Workcell, padding: real, pending: seq<PendingRegion>,
                                            n: nat)
    requires n <= |pending| && CertificatesFor(hash, cell, padding, pending[..n]).Err?
    ensures CertificatesFor(hash, cell, padding, pending) == CertificatesFor(hash, cell, padding, pending[..n])
    decreases |pending|
  {
    if n == |pending| {
      assert pending[..n] == pending;
    } else {
      assert pending[..|pending| - 1][..n] == pending[..n];
      CertificatesFail(hash, cell, padding, pending[..|pending| - 1], n);
    }
  }

  // ----- regions in build order

  function WantedId(hash: Hash, cell: Workcell, region: PendingRegion): U64
    requires IsSha256(hash)
  {
    IdOfDigest(hash(RegionTree(cell, region.bounds, region.source)))
  }

  function WantedIds(hash: Hash, cell: Workcell, pending: seq<PendingRegion>): (ids: seq<U64>)
    requires IsSha256(hash)
    ensures |ids| == |pending|
  {
    if pending == [] then []
    else WantedIds(hash, cell, pending[..|pending| - 1]) + [WantedId(hash, cell, Last(pending))]
  }

  function UnsortedRegions(pending: seq<PendingRegion>, ids: seq<U64>): (regions: seq<SafeRegion>)
    requires |ids| == |pending|
    ensures |regions| == |pending|
  {
    seq(|pending|, i requires 0 <= i < |pending| => SafeRegion(ids[i], pending[i].bounds, i, 0, pending[i].source))
  }

  predicate IdLe(a: SafeRegion, b: SafeRegion) {
    a.id <= b.id
  }

  // ----- alignment

  /** Certificate and dependency of each region moved to the region's own index. */
  function Aligned(sorted: seq<SafeRegion>, certificates: seq<Certificate>, pending: seq<PendingRegion>): Catalog
    requires |certificates| == |pending|
    requires forall i :: 0 <= i < |sorted| ==> sorted[i].certificateIndex < |pending|
  {
    Catalog(
      seq(|sorted|, i requires 0 <= i < |sorted| => sorted[i].(certificateIndex := i)),
      seq(|sorted|, i requires 0 <= i < |sorted| => certificates[sorted[i].certificateIndex]),
      seq(|sorted|, i requires 0 <= i < |sorted| =>
        RegionDependency(sorted[i].id, pending[sorted[i].certificateIndex].envelope)))
  }

  lemma {:induction false} SortedIndices(pending: seq<PendingRegion>, ids: seq<U64>)
    requires |ids| == |pending|
    ensures var sorted := Sort(IdLe, UnsortedRegions(pending, ids));
            && |sorted| == |pending|
            && forall i :: 0 <= i < |sorted| ==>
                 var k := sorted[i].certificateIndex;
                 k < |pending| && sorted[i] == UnsortedRegions(pending, ids)[k]
  {
    var unsorted := UnsortedRegions(pending, ids);
    SortMembers(IdLe, unsorted);
    var sorted := Sort(IdLe, unsorted);
    forall i | 0 <= i < |sorted|
      ensures sorted[i].certificateIndex < |pending| && sorted[i] == unsorted[sorted[i].certificateIndex]
    {
      assert sorted[i] in unsorted;
    }
  }

  /** The catalog of the merged regions, or the first certificate failure. */
  function CatalogFor(hash: Hash, cell: Workcell, padding: real, pending: seq<PendingRegion>): Result<Catalog>
    requires |pending| <= TWO_TO_THE_64
    requires IsSha256(hash)
  {
    var certificates :- CertificatesFor(hash, cell, padding, pending);
    var ids := AssignIds(WantedIds(hash, cell, pending));
    SortedIndices(pending, ids);
    CertificateCount(hash, cell, padding, pending);
    Ok(Aligned(Sort(IdLe, UnsortedRegions(pending, ids)), certificates, pending))
  }

  lemma {:induction false} NextCertificate(hash: Hash, cell: Workcell, padding: real, pending: seq<PendingRegion>,
                                           i: nat)
    requires i < |pending| && CertificatesFor(hash, cell, padding, pending[..i]).Ok?
    ensures var next := CertificateFor(hash, cell, padding, pending[i]);
            CertificatesFor(hash, cell, padding, pending[..i + 1]) ==
            if next.Ok? then Ok(CertificatesFor(hash, cell, padding, pending[..i]).value + [next.value])
            else Err(next.code)
  {
    var prefix := pending[..i + 1];
    assert prefix[..i] == pending[..i] && Last(prefix) == pending[i];
  }

  lemma {:induction false} UnsortedAppend(pending: seq<PendingRegion>, ids: seq<U64>, region: PendingRegion, id: U64)
    requires |ids| == |pending|
    ensures UnsortedRegions(pending + [region], ids + [id]) ==
            UnsortedRegions(pending, ids) + [SafeRegion(id, region.bounds, |pending|, 0, region.source)]
  {
  }

  lemma {:induction false} NextRegion(hash: Hash, cell: Workcell, pending: seq<PendingRegion>, i: nat)
    requires i < |pending| <= TWO_TO_THE_64 && IsSha256(hash)
    ensures var ids := AssignIds(WantedIds(hash, cell, pending[..i]));
            var id := FreeId(WantedId(hash, cell, pending[i]), Taken(ids));
            && AssignIds(WantedIds(hash, cell, pending[..i + 1])) == ids + [id]
            && Taken(ids + [id]) == Taken(ids) + {id}
            && UnsortedRegions(pending[..i + 1], ids + [id]) ==
               UnsortedRegions(pending[..i], ids) + [SafeRegion(id, pending[i].bounds, i, 0, pending[i].source)]
  {
    var prefix := pending[..i + 1];
    assert prefix[..i] == pending[..i] && prefix == pending[..i] + [pending[i]];
    AssignLast(WantedIds(hash, cell, pending[..i]), WantedId(hash, cell, pending[i]));
    var ids := AssignIds(WantedIds(hash, cell, pending[..i]));
    UnsortedAppend(pending[..i], ids, pending[i], FreeId(WantedId(hash, cell, pending[i]), Taken(ids)));
  }

  /** The dependencies so far carry the envelopes of their regions. */
  ghost predicate SameEnvelopes(dependencies: seq<RegionDependency>, pending: seq<PendingRegion>) {
    |dependencies| <= |pending|
        && forall k :: 0 <= k < |dependencies| ==> dependencies[k].envelope == pending[k].envelope
  }

  lemma {:induction false} SameEnvelopesAppend(dependencies: seq<RegionDependency>, pending: seq<PendingRegion>,
                                               id: U64)
    requires SameEnvelopes(dependencies, pending) && |dependencies| < |pending|
    ensures SameEnvelopes(dependencies + [RegionDependency(id, pending[|dependencies|].envelope)], pending)
  {
  }

  /** The region of the next pending entry, under the first free id from the wanted one on. */
  method MakeRegion(hash: Hash, cell: Workcell, pending: seq<PendingRegion>, i: nat, ids: set<U64>)
    returns (region: SafeRegion)
    requires i < |pending| <= TWO_TO_THE_64 && IsSha256(hash)
             && ids == Taken(AssignIds(WantedIds(hash, cell, pending[..i])))
    ensures ids + {region.id} == Taken(AssignIds(WantedIds(hash, cell, pending[..i + 1])))
    ensures UnsortedRegions(pending[..i + 1], AssignIds(WantedIds(hash, cell, pending[..i + 1])))
         == UnsortedRegions(pending[..i], AssignIds(WantedIds(hash, cell, pending[..i]))) + [region]
  {
    NextRegion(hash, cell, pending, i);
    var id := ParseId(hash(RegionTree(cell, pending[i].bounds, pending[i].source)));
    var free := ProbeId(id, ids);
    region := SafeRegion(free, pending[i].bounds, i, 0, pending[i].source);
  }

  /** The tables hold the first `i` pending entries. */
  ghost predicate Tabled(hash: Hash, cell: Workcell, padding: real, pending: seq<PendingRegion>, i: nat,
                         made: seq<Certificate>, regions: seq<SafeRegion>, dependencies: seq<RegionDependency>,
                         ids: set<U64>)
    requires i <= |pending| <= TWO_TO_THE_64 && IsSha256(hash)
  {
    && CertificatesFor(hash, cell, padding, pending[..i]) == Ok(made) && |dependencies| == i
    && SameEnvelopes(dependencies, pending)
    && ids == Taken(AssignIds(WantedIds(hash, cell, pending[..i])))
    && regions == UnsortedRegions(pending[..i], AssignIds(WantedIds(hash, cell, pending[..i])))
  }

  lemma {:induction false} TablesStart(hash: Hash, cell: Workcell, padding: real, pending: seq<PendingRegion>)
    requires |pending| <= TWO_TO_THE_64 && IsSha256(hash)
    ensures Tabled(hash, cell, padding, pending, 0, [], [], [], {})
  {
    assert pending[..0] == [];
    assert WantedIds(hash, cell, []) == [] && AssignIds([]) == [] && Taken([]) == {};
  }

  lemma {:induction false} TablesEnd(hash: Hash, cell: Workcell, padding: real, pending: seq<PendingRegion>,
                                     made: seq<Certificate>, regions: seq<SafeRegion>,
                                     dependencies: seq<RegionDependency>, ids: set<U64>)
    requires |pending| <= TWO_TO_THE_64 && IsSha256(hash)
    requires Tabled(hash, cell, padding, pending, |pending|, made, regions, dependencies, ids)
    ensures CertificatesFor(hash, cell, padding, pending) == Ok(made) && |dependencies| == |pending|
            && SameEnvelopes(dependencies, pending)
    ensures regions == UnsortedRegions(pending, AssignIds(WantedIds(hash, cell, pending)))
  {
    assert pending[..|pending|] == pending;
  }

  lemma {:induction false} TablesNext(hash: Hash, cell: Workcell, padding: real, pending: seq<PendingRegion>, i: nat,
                                      made: seq<Certificate>, regions: seq<SafeRegion>,
                                      dependencies: seq<RegionDependency>, ids: set<U64>, certificate: Certificate,
                                      region: SafeRegion)
    requires i < |pending| <= TWO_TO_THE_64 && IsSha256(hash)
    requires Tabled(hash, cell, padding, pending, i, made, regions, dependencies, ids)
    requires CertificateFor(hash, cell, padding, pending[i]) == Ok(certificate)
    requires ids + {region.id} == Taken(AssignIds(WantedIds(hash, cell, pending[..i + 1])))
    requires UnsortedRegions(pending[..i + 1], AssignIds(WantedIds(hash, cell, pending[..i + 1])))
          == UnsortedRegions(pending[..i], AssignIds(WantedIds(hash, cell, pending[..i]))) + [region]
    ensures Tabled(hash, cell, padding, pending, i + 1, made + [certificate], regions + [region],
                   dependencies + [RegionDependency(region.id, pending[i].envelope)], ids + {region.id})
  {
    NextCertificate(hash, cell, padding, pending, i);
    SameEnvelopesAppend(dependencies, pending, region.id);
  }

  lemma {:induction false} TablesFail(hash: Hash, cell: Workcell, padding: real, pending: seq<PendingRegion>, i: nat)
    requires i < |pending| && CertificatesFor(hash, cell, padding, pending[..i]).Ok?
             && CertificateFor(hash, cell, padding, pending[i]).Err?
    ensures CertificatesFor(hash, cell, padding, pending) == Err(CertificateFor(hash, cell, padding, pending[i]).code)
  {
    NextCertificate(hash, cell, padding, pending, i);
    CertificatesFail(hash, cell, padding, pending, i + 1);
  }

  /** The tables in build order: one certificate, region and dependency each. */
  method BuildTables(hash: Hash, cell: Workcell, padding: real, pending: seq<PendingRegion>)
    returns (certificates: Result<seq<Certificate>>, regions: seq<SafeRegion>, dependencies: seq<RegionDependency>)
    requires |pending| <= TWO_TO_THE_64 && IsSha256(hash)
    ensures certificates == CertificatesFor(hash, cell, padding, pending)
    ensures certificates.Ok? ==> regions == UnsortedRegions(pending, AssignIds(WantedIds(hash, cell, pending)))
    ensures certificates.Ok? ==> |dependencies| == |pending| && SameEnvelopes(dependencies, pending)
  {
    var made: seq<Certificate> := [];
    regions, dependencies := [], [];
    var ids: set<U64> := {};
    TablesStart(hash, cell, padding, pending);
    for i := 0 to |pending|
      invariant Tabled(hash, cell, padding, pending, i, made, regions, dependencies, ids)
    {
      var certificate := CertificateFor(hash, cell, padding, pending[i]);
      if certificate.Err? {
        TablesFail(hash, cell, padding, pending, i);
        return Err(certificate.code), regions, dependencies;
      }
      var region := MakeRegion(hash, cell, pending, i, ids);
      TablesNext(hash, cell, padding, pending, i, made, regions, dependencies, ids, certificate.value, region);
      made := made + [certificate.value];
      regions := regions + [region];
      dependencies := dependencies + [RegionDependency(region.id, pending[i].envelope)];
      ids := ids + {region.id};
    }
    TablesEnd(hash, cell, padding, pending, made, regions, dependencies, ids);
    certificates := Ok(made);
  }

  method Assemble(hash: Hash, cell: Workcell, padding: real, pending: seq<PendingRegion>)
    returns (catalog: Result<Catalog>)
    requires |pending| <= TWO_TO_THE_64 && IsSha256(hash)
    ensures catalog == CatalogFor(hash, cell, padding, pending)
  {
    var certificates, regions, dependencies := BuildTables(hash, cell, padding, pending);
    if certificates.Err? {
      return Err(certificates.code);
    }
    CertificateCount(hash, cell, padding, pending);
    SortedIndices(pending, AssignIds(WantedIds(hash, cell, pending)));
    var aligned := Realign(Sort(IdLe, regions), certificates.value, dependencies, pending);
    catalog := Ok(aligned);
  }

  /** Follows each sorted region's old index to its certificate and dependency, then renumbers it. */
  method Realign(sorted: seq<SafeRegion>, certificates: seq<Certificate>, dependencies: seq<RegionDependency>,
                 ghost pending: seq<PendingRegion>) returns (catalog: Catalog)
    requires |certificates| == |dependencies| == |pending|
    requires forall i :: 0 <= i < |sorted| ==> sorted[i].certificateIndex < |pending|
    requires SameEnvelopes(dependencies, pending)
    ensures catalog == Aligned(sorted, certificates, pending)
  {
    var regions := sorted;
    var sortedCertificates: seq<Certificate> := [];
    var sortedDependencies: seq<RegionDependency> := [];
    for i := 0 to |sorted|
      invariant |regions| == |sorted| && |sortedCertificates| == |sortedDependencies| == i
      invariant forall k :: 0 <= k < i ==> regions[k] == sorted[k].(certificateIndex := k)
      invariant forall k :: i <= k < |sorted| ==> regions[k] == sorted[k]
      invariant forall k :: 0 <= k < i ==> sortedCertificates[k] == certificates[sorted[k].certificateIndex]
      invariant forall k :: 0 <= k < i ==>
                  sortedDependencies[k] == RegionDependency(sorted[k].id, pending[sorted[k].certificateIndex].envelope)
    {
      sortedCertificates := sortedCertificates + [certificates[regions[i].certificateIndex]];
      sortedDependencies := sortedDependencies
        + [dependencies[regions[i].certificateIndex].(regionId := regions[i].id)];
      regions := regions[i := regions[i].(certificateIndex := |sortedCertificates| - 1)];
    }
    catalog := Catalog(regions, sortedCertificates, sortedDependencies);
    assert catalog.regions == Aligned(sorted, certificates, pending).regions;
    assert catalog.certificates == Aligned(sorted, certificates, pending).certificates;
    assert catalog.dependencies == Aligned(sorted, certificates, pending).dependencies;
  }

  // ----- repair domains

  predicate RepairIdLe(a: RepairDomain, b: RepairDomain) {
    a.id <= b.id
  }

  function WantedRepairId(hash: Hash, cell: Workcell, domain: RepairDomain): U64
    requires IsSha256(hash)
  {
    IdOfDigest(hash(RepairTree(cell, domain.bounds, domain.source)))
  }

  function WantedRepairIds(hash: Hash, cell: Workcell, unresolved: seq<RepairDomain>): (ids: seq<U64>)
    requires IsSha256(hash)
    ensures |ids| == |unresolved|
  {
    if unresolved == [] then [] else
      WantedRepairIds(hash, cell, unresolved[..|unresolved| - 1]) + [WantedRepairId(hash, cell, Last(unresolved))]
  }

  function WithIds(unresolved: seq<RepairDomain>, ids: seq<U64>): seq<RepairDomain>
    requires |ids| == |unresolved|
  {
    seq(|unresolved|, i requires 0 <= i < |unresolved| => unresolved[i].(id := ids[i]))
  }

  /** Repair domains with their own probed ids, sorted by id. */
  function RepairDomainsFor(hash: Hash, cell: Workcell, unresolved: seq<RepairDomain>): seq<RepairDomain>
    requires |unresolved| <= TWO_TO_THE_64
    requires IsSha256(hash)
  {
    Sort(RepairIdLe, WithIds(unresolved, AssignIds(WantedRepairIds(hash, cell, unresolved))))
  }

  lemma {:induction false} WithIdsAppend(unresolved: seq<RepairDomain>, ids: seq<U64>, domain: RepairDomain, id: U64)
    requires |ids| == |unresolved|
    ensures WithIds(unresolved + [domain], ids + [id]) == WithIds(unresolved, ids) + [domain.(id := id)]
  {
  }

  lemma {:induction false} NextRepairDomain(hash: Hash, cell: Workcell, unresolved: seq<RepairDomain>, i: nat)
    requires i < |unresolved| <= TWO_TO_THE_64 && IsSha256(hash)
    ensures var ids := AssignIds(WantedRepairIds(hash, cell, unresolved[..i]));
            var id := FreeId(WantedRepairId(hash, cell, unresolved[i]), Taken(ids));
            && AssignIds(WantedRepairIds(hash, cell, unresolved[..i + 1])) == ids + [id]
            && Taken(ids + [id]) == Taken(ids) + {id}
            && WithIds(unresolved[..i + 1], ids + [id]) == WithIds(unresolved[..i], ids) + [unresolved[i].(id := id)]
  {
    var prefix := unresolved[..i + 1];
    assert prefix[..i] == unresolved[..i] && prefix == unresolved[..i] + [unresolved[i]];
    AssignLast(WantedRepairIds(hash, cell, unresolved[..i]), WantedRepairId(hash, cell, unresolved[i]));
    var ids := AssignIds(WantedRepairIds(hash, cell, unresolved[..i]));
    WithIdsAppend(unresolved[..i], ids, unresolved[i], FreeId(WantedRepairId(hash, cell, unresolved[i]), Taken(ids)));
  }

  method MakeRepairDomain(hash: Hash, cell: Workcell, unresolved: seq<RepairDomain>, i: nat, ids: set<U64>)
    returns (domain: RepairDomain)
    requires i < |unresolved| <= TWO_TO_THE_64 && IsSha256(hash)
             && ids == Taken(AssignIds(WantedRepairIds(hash, cell, unresolved[..i])))
    ensures ids + {domain.id} == Taken(AssignIds(WantedRepairIds(hash, cell, unresolved[..i + 1])))
    ensures WithIds(unresolved[..i + 1], AssignIds(WantedRepairIds(hash, cell, unresolved[..i + 1])))
         == WithIds(unresolved[..i], AssignIds(WantedRepairIds(hash, cell, unresolved[..i]))) + [domain]
  {
    NextRepairDomain(hash, cell, unresolved, i);
    var id := ParseId(hash(RepairTree(cell, unresolved[i].bounds, unresolved[i].source)));
    var free := ProbeId(id, ids);
    domain := unresolved[i].(id := free);
  }

  /** The first `i` domains under their ids. */
  ghost predicate Named(hash: Hash, cell: Workcell, unresolved: seq<RepairDomain>, i: nat, domains: seq<RepairDomain>,
                        ids: set<U64>)
    requires i <= |unresolved| <= TWO_TO_THE_64 && IsSha256(hash)
  {
    && ids == Taken(AssignIds(WantedRepairIds(hash, cell, unresolved[..i])))
    && domains == WithIds(unresolved[..i], AssignIds(WantedRepairIds(hash, cell, unresolved[..i])))
  }

  lemma {:induction false} NoneNamed(hash: Hash, cell: Workcell, unresolved: seq<RepairDomain>)
    requires |unresolved| <= TWO_TO_THE_64 && IsSha256(hash)
    ensures Named(hash, cell, unresolved, 0, [], {})
  {
    assert unresolved[..0] == [];
    assert WantedRepairIds(hash, cell, []) == [] && AssignIds([]) == [] && Taken([]) == {};
  }

  lemma {:induction false} AllNamed(hash: Hash, cell: Workcell, unresolved: seq<RepairDomain>,
                                    domains: seq<RepairDomain>, ids: set<U64>)
    requires |unresolved| <= TWO_TO_THE_64 && IsSha256(hash)
             && Named(hash, cell, unresolved, |unresolved|, domains, ids)
    ensures Sort(RepairIdLe, domains) == RepairDomainsFor(hash, cell, unresolved)
  {
    assert unresolved[..|unresolved|] == unresolved;
  }

  method AssembleRepairDomains(hash: Hash, cell: Workcell, unresolved: seq<RepairDomain>)
    returns (domains: seq<RepairDomain>)
    requires |unresolved| <= TWO_TO_THE_64
    requires IsSha256(hash)
    ensures domains == RepairDomainsFor(hash, cell, unresolved)
  {
    domains := [];
    var ids: set<U64> := {};
    NoneNamed(hash, cell, unresolved);
    for i := 0 to |unresolved|
      invariant Named(hash, cell, unresolved, i, domains, ids)
    {
      var domain := MakeRepairDomain(hash, cell, unresolved, i, ids);
      domains := domains + [domain];
      ids := ids + {domain.id};
    }
    AllNamed(hash, cell, unresolved, domains, ids);
    domains := Sort(RepairIdLe, domains);
  }

  /** The list holds the domain, under some id. */
  ghost predicate Renames(domains: seq<RepairDomain>, domain: RepairDomain) {
    exists k :: 0 <= k < |domains| && domains[k].bounds == domain.bounds && domains[k].source == domain.source
  }

  /** Domains under distinct ids are determined by them. */
  lemma {:induction false} NamedDistinct(unresolved: seq<RepairDomain>, ids: seq<U64>)
    requires |ids| == |unresolved| && NoDuplicates(ids)
    ensures NoDuplicates(WithIds(unresolved, ids))
    ensures forall a, b :: a in WithIds(unresolved, ids) && b in WithIds(unresolved, ids) && a.id == b.id ==> a == b
  {
    var named := WithIds(unresolved, ids);
    forall a, b | a in named && b in named && a.id == b.id ensures a == b {
      var i :| 0 <= i < |named| && named[i] == a;
      var j :| 0 <= j < |named| && named[j] == b;
      assert ids[i] == ids[j];
      assert !(i < j) && !(j < i);
    }
    forall i, j | 0 <= i < j < |named| ensures named[i] != named[j] {
      assert named[i].id == ids[i] && named[j].id == ids[j];
    }
  }

  lemma {:induction false} SortedByDistinctIds(named: seq<RepairDomain>)
    requires NoDuplicates(named)
    requires forall a, b :: a in named && b in named && a.id == b.id ==> a == b
    ensures var sorted := Sort(RepairIdLe, named);
            |sorted| == |named| && forall i, j :: 0 <= i < j < |sorted| ==> sorted[i].id < sorted[j].id
  {
    var sorted := Sort(RepairIdLe, named);
    SortMembers(RepairIdLe, named);
    SortKeepsDistinct(RepairIdLe, named);
    SortSorts(RepairIdLe, named);
    forall i, j | 0 <= i < j < |sorted| ensures sorted[i].id < sorted[j].id {
      assert RepairIdLe(sorted[i], sorted[j]) && sorted[i] != sorted[j];
      assert sorted[i] in named && sorted[j] in named;
    }
  }

  lemma {:induction false} SortingRenames(unresolved: seq<RepairDomain>, ids: seq<U64>)
    requires |ids| == |unresolved|
    ensures var sorted := Sort(RepairIdLe, WithIds(unresolved, ids));
            && (forall i :: 0 <= i < |sorted| ==> Renames(unresolved, sorted[i]))
            && (forall k :: 0 <= k < |unresolved| ==> Renames(sorted, unresolved[k]))
  {
    var named := WithIds(unresolved, ids);
    var sorted := Sort(RepairIdLe, named);
    SortMembers(RepairIdLe, named);
    forall i | 0 <= i < |sorted| ensures Renames(unresolved, sorted[i]) {
      assert sorted[i] in named;
      var k :| 0 <= k < |named| && named[k] == sorted[i];
      assert unresolved[k].(id := sorted[i].id) == sorted[i];
    }
    forall k | 0 <= k < |unresolved| ensures Renames(sorted, unresolved[k]) {
      assert named[k] in sorted;
      var i :| 0 <= i < |sorted| && sorted[i] == named[k];
    }
  }

  /** Repair domains are listed by strictly increasing id, and are the
      unresolved domains up to their ids. */
  lemma {:induction false} RepairDomainsAreCanonical(hash: Hash, cell: Workcell, unresolved: seq<RepairDomain>)
    requires |unresolved| <= TWO_TO_THE_64 && IsSha256(hash)
    ensures var domains := RepairDomainsFor(hash, cell, unresolved);
            && |domains| == |unresolved|
            && (forall i, j :: 0 <= i < j < |domains| ==> domains[i].id < domains[j].id)
            && (forall i :: 0 <= i < |domains| ==> Renames(unresolved, domains[i]))
            && (forall k :: 0 <= k < |unresolved| ==> Renames(domains, unresolved[k]))
  {
    var ids := AssignIds(WantedRepairIds(hash, cell, unresolved));
    AssignedAreDistinct(WantedRepairIds(hash, cell, unresolved));
    NamedDistinct(unresolved, ids);
    SortedByDistinctIds(WithIds(unresolved, ids));
    SortingRenames(unresolved, ids);
  }

  // ----- what the catalog guarantees

  /** Ids strictly increase, every index is its own certificate index, and the
      certificate and dependency at an index belong to the region at it. */
  ghost predicate CatalogOk(hash: Hash, cell: Workcell, padding: real, pending: seq<PendingRegion>, catalog: Catalog) {
    && |catalog.regions| == |catalog.certificates| == |catalog.dependencies| == |pending|
    && (forall i, j :: 0 <= i < j < |catalog.regions| ==> catalog.regions[i].id < catalog.regions[j].id)
    && (forall i :: 0 <= i < |catalog.regions| ==> catalog.regions[i].certificateIndex == i)
    && (forall i :: 0 <= i < |catalog.regions| ==> catalog.dependencies[i].regionId == catalog.regions[i].id)
    && (forall i :: 0 <= i < |catalog.regions| ==> HasOrigin(hash, cell, padding, pending, catalog, i))
    && (forall k :: 0 <= k < |pending| ==> IsListed(hash, cell, padding, pending[k], catalog))
  }

  ghost predicate HasOrigin(hash: Hash, cell: Workcell, padding: real, pending: seq<PendingRegion>, catalog: Catalog,
                            i: nat)
    requires i < |catalog.regions| == |catalog.certificates| == |catalog.dependencies|
  {
    exists k :: 0 <= k < |pending| && MadeFrom(hash, cell, padding, pending[k], catalog, i)
  }

  ghost predicate IsListed(hash: Hash, cell: Workcell, padding: real, region: PendingRegion, catalog: Catalog)
    requires |catalog.regions| == |catalog.certificates| == |catalog.dependencies|
  {
    exists i :: 0 <= i < |catalog.regions| && MadeFrom(hash, cell, padding, region, catalog, i)
  }

  /** Entry `i` of all three tables was made from this merged region. */
  ghost predicate MadeFrom(hash: Hash, cell: Workcell, padding: real, region: PendingRegion, catalog: Catalog, i: nat)
    requires i < |catalog.regions| == |catalog.certificates| == |catalog.dependencies|
  {
    && catalog.regions[i].bounds == region.bounds && catalog.regions[i].source == region.source
    && CertificateFor(hash, cell, padding, region) == Ok(catalog.certificates[i])
    && catalog.dependencies[i].envelope == region.envelope
  }

  lemma {:induction false} DistinctRegions(pending: seq<PendingRegion>, ids: seq<U64>)
    requires |ids| == |pending| && NoDuplicates(ids)
    ensures NoDuplicates(UnsortedRegions(pending, ids))
    ensures var sorted := Sort(IdLe, UnsortedRegions(pending, ids));
            |sorted| == |pending| && forall i, j :: 0 <= i < j < |sorted| ==> sorted[i].id < sorted[j].id
  {
    var unsorted := UnsortedRegions(pending, ids);
    var sorted := Sort(IdLe, unsorted);
    SortedIndices(pending, ids);
    SortSorts(IdLe, unsorted);
    SortKeepsDistinct(IdLe, unsorted);
    forall i, j | 0 <= i < j < |sorted| ensures sorted[i].id < sorted[j].id {
      var a, b := sorted[i].certificateIndex, sorted[j].certificateIndex;
      assert sorted[i] == unsorted[a] && sorted[j] == unsorted[b] && sorted[i] != sorted[j];
      assert a != b;
      assert ids[a] != ids[b];
      assert IdLe(sorted[i], sorted[j]);
    }
  }

  /** Each entry was made from the merged region it points back to, and each merged region has an entry. */
  lemma {:induction false} AlignedOrigins(hash: Hash, cell: Workcell, padding: real, pending: seq<PendingRegion>,
                                          ids: seq<U64>)
    requires |ids| == |pending| && CertificatesFor(hash, cell, padding, pending).Ok?
    requires |CertificatesFor(hash, cell, padding, pending).value| == |pending|
    requires forall i :: 0 <= i < |Sort(IdLe, UnsortedRegions(pending, ids))| ==>
               Sort(IdLe, UnsortedRegions(pending, ids))[i].certificateIndex < |pending|
    ensures var catalog := Aligned(Sort(IdLe, UnsortedRegions(pending, ids)),
                                   CertificatesFor(hash, cell, padding, pending).value, pending);
            && (forall i :: 0 <= i < |catalog.regions| ==> HasOrigin(hash, cell, padding, pending, catalog, i))
            && (forall k :: 0 <= k < |pending| ==> IsListed(hash, cell, padding, pending[k], catalog))
  {
    var unsorted := UnsortedRegions(pending, ids);
    var sorted := Sort(IdLe, unsorted);
    var catalog := Aligned(sorted, CertificatesFor(hash, cell, padding, pending).value, pending);
    SortedIndices(pending, ids);
    forall i | 0 <= i < |catalog.regions| ensures HasOrigin(hash, cell, padding, pending, catalog, i) {
      var k := sorted[i].certificateIndex;
      CertificateAt(hash, cell, padding, pending, k);
      assert MadeFrom(hash, cell, padding, pending[k], catalog, i);
    }
    forall k | 0 <= k < |pending| ensures IsListed(hash, cell, padding, pending[k], catalog) {
      SortMembers(IdLe, unsorted);
      assert unsorted[k] in sorted;
      var i :| 0 <= i < |sorted| && sorted[i] == unsorted[k];
      CertificateAt(hash, cell, padding, pending, k);
      assert MadeFrom(hash, cell, padding, pending[k], catalog, i);
    }
  }

  lemma {:induction false} CertificateCount(hash: Hash, cell: Workcell, padding: real, pending: seq<PendingRegion>)
    requires CertificatesFor(hash, cell, padding, pending).Ok?
    ensures |CertificatesFor(hash, cell, padding, pending).value| == |pending|
  {
    if pending != [] {
      CertificateAt(hash, cell, padding, pending, 0);
    }
  }

  /** The catalog made from merged regions is sorted and aligned, whatever the
      ids collided on. */
  lemma {:induction false} CatalogIsAligned(hash: Hash, cell: Workcell, padding: real, pending: seq<PendingRegion>)
    requires |pending| <= TWO_TO_THE_64 && IsSha256(hash)
    requires CatalogFor(hash, cell, padding, pending).Ok?
    ensures CatalogOk(hash, cell, padding, pending, CatalogFor(hash, cell, padding, pending).value)
  {
    var ids := AssignIds(WantedIds(hash, cell, pending));
    CertificateCount(hash, cell, padding, pending);
    AssignedAreDistinct(WantedIds(hash, cell, pending));
    DistinctRegions(pending, ids);
    SortedIndices(pending, ids);
    AlignedOrigins(hash, cell, padding, pending, ids);
  }
}
