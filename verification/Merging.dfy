/** Merging of certified regions: restart after every merge, first pair first,
    and only unions the validator certifies again. */
module Merging {
  import opened Support
  import opened Sequences
  import opened Boxes
  import opened Certificates
  import opened Lect
  import opened Refinement

  predicate SourceLe(a: PendingRegion, b: PendingRegion) {
    KeyLe(a.source, b.source)
  }

  function SortBySource(pending: seq<PendingRegion>): seq<PendingRegion> {
    Sort(SourceLe, pending)
  }

  /** Sources are strictly increasing. */
  ghost predicate SourcesSorted(pending: seq<PendingRegion>) {
    forall i, j :: 0 <= i < j < |pending| ==>
        KeyLe(pending[i].source, pending[j].source) && pending[i].source != pending[j].source
  }

  // ----- one scan over the pairs

  datatype Scan = Exhausted | Failed(code: StatusCode) | Found(left: nat, right: nat, bounds: Box,
                                                               validation: RegionValidation)

  /** The first pair at or after `(left, right)`, in scan order, whose union the
      validator certifies or fails on. */
  function ScanFrom(validate: Validator, tolerance: real, pending: seq<PendingRegion>, left: nat,
                    right: nat): (scan: Scan)
    requires left <= |pending| && left < right <= |pending| + 1
    ensures scan.Found? ==> scan.left < scan.right < |pending|
    decreases |pending| - left, |pending| + 1 - right
  {
    if left >= |pending| then Exhausted
    else if right >= |pending| then ScanFrom(validate, tolerance, pending, left + 1, left + 2)
    else
      match UnionOf(pending[left].bounds, pending[right].bounds, tolerance)
      case None => ScanFrom(validate, tolerance, pending, left, right + 1)
      case Some(bounds) =>
        match validate(bounds)
        case Err(code) => Failed(code)
        case Ok(validation) =>
          if validation.disposition == CertifiedFree then Found(left, right, bounds, validation)
          else ScanFrom(validate, tolerance, pending, left, right + 1)
  }

  function MinKey(a: NodeKey, b: NodeKey): NodeKey {
    if KeyLe(a, b) then a else b
  }

  /** The left region takes the certified union, the right one disappears. */
  function MergePair(pending: seq<PendingRegion>, scan: Scan): seq<PendingRegion>
    requires scan.Found? && scan.left < scan.right < |pending|
  {
    var merged := PendingRegion(scan.bounds, MinKey(pending[scan.left].source, pending[scan.right].source),
                                scan.validation.clearance, scan.validation.envelope);
    pending[scan.left := merged][..scan.right] + pending[scan.right + 1..]
  }

  /** Merging until a scan finds nothing more. */
  function MergeAll(validate: Validator, tolerance: real, pending: seq<PendingRegion>): Result<seq<PendingRegion>>
    decreases |pending|
  {
    match ScanFrom(validate, tolerance, pending, 0, 1)
    case Exhausted => Ok(pending)
    case Failed(code) => Err(code)
    case Found(l, r, b, v) => MergeAll(validate, tolerance, MergePair(pending, Found(l, r, b, v)))
  }

  /** Scans the pairs in order, left index first. */
  method ScanPairs(validate: Validator, tolerance: real, pending: seq<PendingRegion>) returns (scan: Scan)
    ensures scan == ScanFrom(validate, tolerance, pending, 0, 1)
  {
    for left := 0 to |pending|
      invariant ScanFrom(validate, tolerance, pending, 0, 1) == ScanFrom(validate, tolerance, pending, left, left + 1)
    {
      for right := left + 1 to |pending|
        invariant ScanFrom(validate, tolerance, pending, 0, 1) == ScanFrom(validate, tolerance, pending, left, right)
      {
        var bounds := RectangularUnion(pending[left].bounds, pending[right].bounds, tolerance);
        if bounds.Some? {
          var validation := validate(bounds.value);
          if validation.Err? {
            return Failed(validation.code);
          }
          if validation.value.disposition == CertifiedFree {
            return Found(left, right, bounds.value, validation.value);
          }
        }
      }
    }
    scan := Exhausted;
  }

  /** Merges the first certifiable pair and starts over, until a scan changes nothing. */
  method MergeRegions(validate: Validator, tolerance: real, regions: seq<PendingRegion>)
    returns (result: Result<seq<PendingRegion>>, mergedRegions: nat)
    ensures result == MergeAll(validate, tolerance, regions)
    ensures result.Ok? ==> |regions| == |result.value| + mergedRegions
  {
    var pending := regions;
    mergedRegions := 0;
    var changed := true;
    while changed
      invariant MergeAll(validate, tolerance, regions) == if changed then MergeAll(validate, tolerance, pending)
                                                          else Ok(pending)
      invariant |regions| == |pending| + mergedRegions
      decreases |pending|, changed
    {
      changed := false;
      var scan := ScanPairs(validate, tolerance, pending);
      if scan.Failed? {
        return Err(scan.code), mergedRegions;
      }
      if scan.Found? {
        var source := MinKey(pending[scan.left].source, pending[scan.right].source);
        pending := pending[scan.left := PendingRegion(scan.bounds, source, scan.validation.clearance,
                                                      scan.validation.envelope)];
        pending := pending[..scan.right] + pending[scan.right + 1..];
        mergedRegions := mergedRegions + 1;
        changed := true;
      }
    }
    result := Ok(pending);
  }

  // ----- what a scan and a merge guarantee

  /** The pair has no union, or one the validator does not certify. */
  ghost predicate NotMergeable(validate: Validator, tolerance: real, a: PendingRegion, b: PendingRegion) {
    var union := UnionOf(a.bounds, b.bounds, tolerance);
    union.Some? ==> validate(union.value).Ok? && validate(union.value).value.disposition == Undetermined
  }

  lemma {:induction false} ExhaustedScan(validate: Validator, tolerance: real, pending: seq<PendingRegion>, left: nat,
                                         right: nat)
    requires left <= |pending| && left < right <= |pending| + 1
    requires ScanFrom(validate, tolerance, pending, left, right).Exhausted?
    ensures forall j :: left < |pending| && right <= j < |pending| ==>
            NotMergeable(validate, tolerance, pending[left], pending[j])
    ensures forall i, j :: left < i < j < |pending| ==> NotMergeable(validate, tolerance, pending[i], pending[j])
    decreases |pending| - left, |pending| + 1 - right
  {
    if left < |pending| {
      if right < |pending| {
        ExhaustedScan(validate, tolerance, pending, left, right + 1);
      } else {
        ExhaustedScan(validate, tolerance, pending, left + 1, left + 2);
      }
    }
  }

  lemma {:induction false} FoundScan(validate: Validator, tolerance: real, pending: seq<PendingRegion>, left: nat,
                                     right: nat)
    requires left <= |pending| && left < right <= |pending| + 1
    requires ScanFrom(validate, tolerance, pending, left, right).Found?
    ensures var scan := ScanFrom(validate, tolerance, pending, left, right);
            && UnionOf(pending[scan.left].bounds, pending[scan.right].bounds, tolerance) == Some(scan.bounds)
            && validate(scan.bounds) == Ok(scan.validation) && scan.validation.disposition == CertifiedFree
    decreases |pending| - left, |pending| + 1 - right
  {
    if right >= |pending| {
      FoundScan(validate, tolerance, pending, left + 1, left + 2);
    } else {
      var bounds := UnionOf(pending[left].bounds, pending[right].bounds, tolerance);
      if !(bounds.Some? && validate(bounds.value).Ok? && validate(bounds.value).value.disposition == CertifiedFree) {
        FoundScan(validate, tolerance, pending, left, right + 1);
      }
    }
  }

  /** The region carries what the validator certified for its bounds. */
  ghost predicate Certified(validate: Validator, region: PendingRegion) {
    && ValidBox(region.bounds)
    && validate(region.bounds) == Ok(RegionValidation(CertifiedFree, region.clearance, region.envelope))
  }

  ghost predicate AllCertified(validate: Validator, dimension: nat, pending: seq<PendingRegion>) {
    forall i :: 0 <= i < |pending| ==> Certified(validate, pending[i]) && |pending[i].bounds| == dimension
  }

  /** Some region contains the configuration, up to the slack. */
  ghost predicate CoveredBy(pending: seq<PendingRegion>, q: Point, slack: real) {
    exists i :: 0 <= i < |pending| && Contains(pending[i].bounds, q, slack)
  }

  /** A merge keeps every region certified on its own bounds and the sources sorted. */
  lemma {:induction false} MergeKeeps(validate: Validator, dimension: nat, tolerance: real, pending: seq<PendingRegion>)
    requires AllCertified(validate, dimension, pending) && SourcesSorted(pending)
    requires ScanFrom(validate, tolerance, pending, 0, 1).Found?
    ensures var after := MergePair(pending, ScanFrom(validate, tolerance, pending, 0, 1));
            AllCertified(validate, dimension, after) && SourcesSorted(after)
  {
    var scan := ScanFrom(validate, tolerance, pending, 0, 1);
    var after := MergePair(pending, scan);
    FoundScan(validate, tolerance, pending, 0, 1);
    assert KeyLe(pending[scan.left].source, pending[scan.right].source);
    assert Certified(validate, pending[scan.left]) && Certified(validate, pending[scan.right]);
    UnionIsValid(pending[scan.left].bounds, pending[scan.right].bounds, tolerance);
    forall i | 0 <= i < |after|
      ensures Certified(validate, after[i]) && |after[i].bounds| == dimension
      ensures after[i].source == pending[if i < scan.right then i else i + 1].source
    {
      if i >= scan.right {
        assert after[i] == pending[i + 1];
      } else if i != scan.left {
        assert after[i] == pending[i];
      }
    }
  }

  /** A merge uncovers nothing. */
  lemma {:induction false} MergeCovers(validate: Validator, tolerance: real, pending: seq<PendingRegion>, q: Point,
                                       slack: real)
    requires ScanFrom(validate, tolerance, pending, 0, 1).Found? && CoveredBy(pending, q, slack)
    ensures CoveredBy(MergePair(pending, ScanFrom(validate, tolerance, pending, 0, 1)), q, slack)
  {
    var scan := ScanFrom(validate, tolerance, pending, 0, 1);
    var after := MergePair(pending, scan);
    FoundScan(validate, tolerance, pending, 0, 1);
    var i :| 0 <= i < |pending| && Contains(pending[i].bounds, q, slack);
    if i == scan.left || i == scan.right {
      UnionCovers(pending[scan.left].bounds, pending[scan.right].bounds, tolerance, q, slack);
      assert Contains(after[scan.left].bounds, q, slack);
    } else if i < scan.right {
      assert after[i] == pending[i];
    } else {
      assert after[i - 1] == pending[i];
    }
  }

  /** At tolerance zero it covers nothing new either. */
  lemma {:induction false} MergeIsExact(validate: Validator, dimension: nat, pending: seq<PendingRegion>, q: Point)
    requires AllCertified(validate, dimension, pending) && ScanFrom(validate, 0.0, pending, 0, 1).Found?
    requires CoveredBy(MergePair(pending, ScanFrom(validate, 0.0, pending, 0, 1)), q, 0.0)
    ensures CoveredBy(pending, q, 0.0)
  {
    var scan := ScanFrom(validate, 0.0, pending, 0, 1);
    var after := MergePair(pending, scan);
    FoundScan(validate, 0.0, pending, 0, 1);
    var i :| 0 <= i < |after| && Contains(after[i].bounds, q, 0.0);
    if i == scan.left {
      assert Certified(validate, pending[scan.left]) && Certified(validate, pending[scan.right]);
      UnionIsExact(pending[scan.left].bounds, pending[scan.right].bounds, q);
    } else if i < scan.right {
      assert after[i] == pending[i];
    } else {
      assert after[i] == pending[i + 1];
    }
  }

  // ----- merging, said step by step

  /** The pair is the first one, left index first, whose union is certified. */
  ghost predicate FirstMergeable(validate: Validator, tolerance: real, pending: seq<PendingRegion>, l: nat, r: nat) {
    && l < r < |pending|
    && (var union := UnionOf(pending[l].bounds, pending[r].bounds, tolerance);
        union.Some? && validate(union.value).Ok? && validate(union.value).value.disposition == CertifiedFree)
    && (forall i, j :: 0 <= i < j < |pending| && (i < l || (i == l && j < r)) ==>
          NotMergeable(validate, tolerance, pending[i], pending[j]))
  }

  lemma {:induction false} ScanFindsFirst(validate: Validator, tolerance: real, pending: seq<PendingRegion>, left: nat,
                                          right: nat)
    requires left <= |pending| && left < right <= |pending| + 1
    requires ScanFrom(validate, tolerance, pending, left, right).Found?
    requires forall i, j :: 0 <= i < j < |pending| && (i < left || (i == left && j < right)) ==>
               NotMergeable(validate, tolerance, pending[i], pending[j])
    ensures var scan := ScanFrom(validate, tolerance, pending, left, right);
            FirstMergeable(validate, tolerance, pending, scan.left, scan.right)
    decreases |pending| - left, |pending| + 1 - right
  {
    if right >= |pending| {
      ScanFindsFirst(validate, tolerance, pending, left + 1, left + 2);
    } else {
      var bounds := UnionOf(pending[left].bounds, pending[right].bounds, tolerance);
      if !(bounds.Some? && validate(bounds.value).Ok? && validate(bounds.value).value.disposition == CertifiedFree) {
        ScanFindsFirst(validate, tolerance, pending, left, right + 1);
      }
    }
  }

  /** Only one pair is the first. */
  lemma {:induction false} FirstIsUnique(validate: Validator, tolerance: real, pending: seq<PendingRegion>, l: nat,
                                         r: nat, i: nat, j: nat)
    requires FirstMergeable(validate, tolerance, pending, l, r) && FirstMergeable(validate, tolerance, pending, i, j)
    ensures l == i && r == j
  {
  }

  /** One merge: the left region of the first mergeable pair is replaced by their
      union, certified anew and under the lesser source, and the right one is gone. */
  ghost predicate Merges(validate: Validator, tolerance: real, before: seq<PendingRegion>, after: seq<PendingRegion>) {
    exists l: nat, r: nat ::
      FirstMergeable(validate, tolerance, before, l, r) && MergedAt(validate, tolerance, before, after, l, r)
  }

  ghost predicate MergedAt(validate: Validator, tolerance: real, before: seq<PendingRegion>, after: seq<PendingRegion>,
                           l: nat, r: nat)
    requires l < r < |before|
  {
    && |after| == |before| - 1
    && (forall i :: 0 <= i < r && i != l ==> after[i] == before[i])
    && (forall i :: r <= i < |after| ==> after[i] == before[i + 1])
    && UnionOf(before[l].bounds, before[r].bounds, tolerance) == Some(after[l].bounds)
    && validate(after[l].bounds) == Ok(RegionValidation(CertifiedFree, after[l].clearance, after[l].envelope))
    && after[l].source in {before[l].source, before[r].source}
    && KeyLe(after[l].source, before[l].source) && KeyLe(after[l].source, before[r].source)
  }

  lemma {:induction false} MergePairMerges(validate: Validator, tolerance: real, pending: seq<PendingRegion>)
    requires ScanFrom(validate, tolerance, pending, 0, 1).Found?
    ensures Merges(validate, tolerance, pending, MergePair(pending, ScanFrom(validate, tolerance, pending, 0, 1)))
  {
    var scan := ScanFrom(validate, tolerance, pending, 0, 1);
    ScanFindsFirst(validate, tolerance, pending, 0, 1);
    FoundScan(validate, tolerance, pending, 0, 1);
    KeyOrder();
    assert MergedAt(validate, tolerance, pending, MergePair(pending, scan), scan.left, scan.right);
  }

  /** No pair can be merged. */
  ghost predicate Unmergeable(validate: Validator, tolerance: real, pending: seq<PendingRegion>) {
    forall i, j :: 0 <= i < j < |pending| ==> NotMergeable(validate, tolerance, pending[i], pending[j])
  }

  /** Merge after merge, each of the first pair there is, until there is none. */
  ghost predicate MergeTrace(validate: Validator, tolerance: real, trace: seq<seq<PendingRegion>>) {
    && trace != []
    && (forall i :: 0 < i < |trace| ==> Merges(validate, tolerance, trace[i - 1], trace[i]))
    && Unmergeable(validate, tolerance, Last(trace))
  }

  /** Merging that succeeds is such a sequence of merges. */
  lemma {:induction false} MergingIsTrace(validate: Validator, tolerance: real, pending: seq<PendingRegion>)
    returns (trace: seq<seq<PendingRegion>>)
    requires MergeAll(validate, tolerance, pending).Ok?
    ensures MergeTrace(validate, tolerance, trace) && trace[0] == pending
    ensures Last(trace) == MergeAll(validate, tolerance, pending).value
    decreases |pending|
  {
    var scan := ScanFrom(validate, tolerance, pending, 0, 1);
    if scan.Found? {
      var rest := MergingIsTrace(validate, tolerance, MergePair(pending, scan));
      MergePairMerges(validate, tolerance, pending);
      trace := [pending] + rest;
      forall i | 0 < i < |trace| ensures Merges(validate, tolerance, trace[i - 1], trace[i]) {
        if i > 1 {
          assert Merges(validate, tolerance, rest[i - 2], rest[i - 1]);
        }
      }
    } else {
      ExhaustedScan(validate, tolerance, pending, 0, 1);
      trace := [pending];
    }
  }

  /** The pair and its place determine the outcome of a merge. */
  lemma {:induction false} MergedAtIsUnique(validate: Validator, tolerance: real, before: seq<PendingRegion>,
                                            a: seq<PendingRegion>, b: seq<PendingRegion>, l: nat, r: nat)
    requires l < r < |before|
    requires MergedAt(validate, tolerance, before, a, l, r) && MergedAt(validate, tolerance, before, b, l, r)
    ensures a == b
  {
    KeyOrder();
    assert a[l].source == b[l].source;
    forall i | 0 <= i < |a| ensures a[i] == b[i] {
      if r <= i {
        assert a[i] == before[i + 1];
      } else if i != l {
        assert a[i] == before[i];
      }
    }
  }

  lemma {:induction false} MergesIsMergePair(validate: Validator, tolerance: real, before: seq<PendingRegion>,
                                             after: seq<PendingRegion>)
    requires Merges(validate, tolerance, before, after) && ScanFrom(validate, tolerance, before, 0, 1).Found?
    ensures after == MergePair(before, ScanFrom(validate, tolerance, before, 0, 1))
  {
    var made := MergePair(before, ScanFrom(validate, tolerance, before, 0, 1));
    MergePairMerges(validate, tolerance, before);
    var l: nat, r: nat :| FirstMergeable(validate, tolerance, before, l, r)
      && MergedAt(validate, tolerance, before, after, l, r);
    var i: nat, j: nat :| FirstMergeable(validate, tolerance, before, i, j)
      && MergedAt(validate, tolerance, before, made, i, j);
    FirstIsUnique(validate, tolerance, before, l, r, i, j);
    MergedAtIsUnique(validate, tolerance, before, after, made, l, r);
  }

  lemma {:induction false} MergeableIsFound(validate: Validator, tolerance: real, pending: seq<PendingRegion>, l: nat,
                                            r: nat, left: nat, right: nat)
    requires FirstMergeable(validate, tolerance, pending, l, r)
    requires left <= l && left < right <= |pending| + 1 && (left == l ==> right <= r)
    ensures ScanFrom(validate, tolerance, pending, left, right).Found?
    decreases |pending| - left, |pending| + 1 - right
  {
    if right >= |pending| {
      MergeableIsFound(validate, tolerance, pending, l, r, left + 1, left + 2);
    } else if left < l || right < r {
      assert NotMergeable(validate, tolerance, pending[left], pending[right]);
      MergeableIsFound(validate, tolerance, pending, l, r, left, right + 1);
    }
  }

  lemma {:induction false} UnmergeableIsExhausted(validate: Validator, tolerance: real, pending: seq<PendingRegion>,
                                                  left: nat, right: nat)
    requires Unmergeable(validate, tolerance, pending) && left <= |pending| && left < right <= |pending| + 1
    ensures ScanFrom(validate, tolerance, pending, left, right).Exhausted?
    decreases |pending| - left, |pending| + 1 - right
  {
    if left < |pending| {
      if right < |pending| {
        assert NotMergeable(validate, tolerance, pending[left], pending[right]);
        UnmergeableIsExhausted(validate, tolerance, pending, left, right + 1);
      } else {
        UnmergeableIsExhausted(validate, tolerance, pending, left + 1, left + 2);
      }
    }
  }

  /** And every such sequence is merging that succeeds. */
  lemma {:induction false} TraceIsMerging(validate: Validator, tolerance: real, trace: seq<seq<PendingRegion>>)
    requires MergeTrace(validate, tolerance, trace)
    ensures MergeAll(validate, tolerance, trace[0]) == Ok(Last(trace))
    decreases |trace|
  {
    if |trace| == 1 {
      UnmergeableIsExhausted(validate, tolerance, trace[0], 0, 1);
    } else {
      var rest := trace[1..];
      assert Merges(validate, tolerance, trace[0], trace[1]);
      var l: nat, r: nat :| FirstMergeable(validate, tolerance, trace[0], l, r)
        && MergedAt(validate, tolerance, trace[0], trace[1], l, r);
      MergeableIsFound(validate, tolerance, trace[0], l, r, 0, 1);
      MergesIsMergePair(validate, tolerance, trace[0], trace[1]);
      forall i | 0 < i < |rest| ensures Merges(validate, tolerance, rest[i - 1], rest[i]) {
        assert Merges(validate, tolerance, trace[i], trace[i + 1]);
      }
      TraceIsMerging(validate, tolerance, rest);
    }
  }

  /** Merging succeeds with a result exactly when merge after merge, each of the
      first mergeable pair, leads there and nowhere further. */
  lemma {:induction false} MergedIff(validate: Validator, tolerance: real, pending: seq<PendingRegion>,
                                     merged: seq<PendingRegion>)
    ensures MergeAll(validate, tolerance, pending) == Ok(merged) <==>
              exists trace :: MergeTrace(validate, tolerance, trace) && trace[0] == pending && Last(trace) == merged
  {
    if MergeAll(validate, tolerance, pending) == Ok(merged) {
      var trace := MergingIsTrace(validate, tolerance, pending);
    }
    forall trace | MergeTrace(validate, tolerance, trace) && trace[0] == pending && Last(trace) == merged
      ensures MergeAll(validate, tolerance, pending) == Ok(merged)
    {
      TraceIsMerging(validate, tolerance, trace);
    }
  }

  // ----- the merged regions

  /** Merging ends with every region certified on its final bounds, sources
      strictly sorted, and no pair left that could be merged. */
  lemma {:induction false} MergedRegions(validate: Validator, dimension: nat, tolerance: real,
                                         pending: seq<PendingRegion>)
    requires AllCertified(validate, dimension, pending) && SourcesSorted(pending)
    requires MergeAll(validate, tolerance, pending).Ok?
    ensures var merged := MergeAll(validate, tolerance, pending).value;
            && AllCertified(validate, dimension, merged) && SourcesSorted(merged) && |merged| <= |pending|
            && forall i, j :: 0 <= i < j < |merged| ==> NotMergeable(validate, tolerance, merged[i], merged[j])
    decreases |pending|
  {
    var scan := ScanFrom(validate, tolerance, pending, 0, 1);
    if scan.Found? {
      MergeKeeps(validate, dimension, tolerance, pending);
      MergedRegions(validate, dimension, tolerance, MergePair(pending, scan));
    } else {
      ExhaustedScan(validate, tolerance, pending, 0, 1);
    }
  }

  /** Merging never uncovers a configuration, whatever the slack it is covered
      with, and at tolerance zero covers exactly the same ones. */
  lemma {:induction false} MergedCoverage(validate: Validator, dimension: nat, tolerance: real,
                                          pending: seq<PendingRegion>, q: Point, slack: real)
    requires AllCertified(validate, dimension, pending) && SourcesSorted(pending)
    requires MergeAll(validate, tolerance, pending).Ok?
    ensures CoveredBy(pending, q, slack) ==> CoveredBy(MergeAll(validate, tolerance, pending).value, q, slack)
    ensures tolerance == 0.0 && CoveredBy(MergeAll(validate, tolerance, pending).value, q, 0.0) ==>
              CoveredBy(pending, q, 0.0)
    decreases |pending|
  {
    var scan := ScanFrom(validate, tolerance, pending, 0, 1);
    if scan.Found? {
      MergeKeeps(validate, dimension, tolerance, pending);
      if CoveredBy(pending, q, slack) {
        MergeCovers(validate, tolerance, pending, q, slack);
      }
      MergedCoverage(validate, dimension, tolerance, MergePair(pending, scan), q, slack);
      if tolerance == 0.0 && CoveredBy(MergePair(pending, scan), q, 0.0) {
        MergeIsExact(validate, dimension, pending, q);
      }
    }
  }

  /** Sorting distinct sources sorts them strictly, and keeps every region. */
  lemma {:induction false} SortedSources(pending: seq<PendingRegion>)
    requires forall i, j :: 0 <= i < j < |pending| ==> pending[i].source != pending[j].source
    ensures SourcesSorted(SortBySource(pending))
    ensures forall x :: x in SortBySource(pending) <==> x in pending
    ensures |SortBySource(pending)| == |pending|
  {
    KeyOrder();
    SortSorts(SourceLe, pending);
    SortMembers(SourceLe, pending);
    assert NoDuplicates(pending);
    SortKeepsDistinct(SourceLe, pending);
    var sorted := SortBySource(pending);
    forall i, j | 0 <= i < j < |sorted| ensures sorted[i].source != sorted[j].source {
      assert sorted[i] in pending && sorted[j] in pending;
      var a :| 0 <= a < |pending| && pending[a] == sorted[i];
      var b :| 0 <= b < |pending| && pending[b] == sorted[j];
      assert a != b;
      if a < b {
        assert pending[a].source != pending[b].source;
      } else {
        assert pending[b].source != pending[a].source;
      }
    }
  }
}
