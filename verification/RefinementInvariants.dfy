/** What every visit of the refinement keeps, and what a finished refinement
    therefore delivers: a partition of the domain into certified regions and
    repair domains, with every sample accounted for. */
module RefinementInvariants {
  import opened Support
  import opened Sequences
  import opened Boxes
  import opened Certificates
  import opened Lect
  import opened Refinement

  /** Joint limits are checked up to this slack. */
  const SAMPLE_SLACK: real := 0.000000000001

  // ----- leaves are shared out between work, certified and unresolved

  ghost function WorkKeys(work: seq<WorkItem>): seq<NodeKey> {
    seq(|work|, i requires 0 <= i < |work| => work[i].key)
  }

  ghost function PendingKeys(pending: seq<PendingRegion>): seq<NodeKey> {
    seq(|pending|, i requires 0 <= i < |pending| => pending[i].source)
  }

  ghost function UnresolvedKeys(unresolved: seq<RepairDomain>): seq<NodeKey> {
    seq(|unresolved|, i requires 0 <= i < |unresolved| => unresolved[i].source)
  }

  ghost function Shares(st: RefineState): multiset<NodeKey> {
    multiset(WorkKeys(st.work)) + multiset(PendingKeys(st.pending)) + multiset(UnresolvedKeys(st.unresolved))
  }

  /** Work, certified and unresolved nodes are together exactly the leaves, each once. */
  ghost predicate Partitioned(st: RefineState) {
    Shares(st) == multiset(Leaves(st.tree))
  }

  /** Visits and open work account for every node; leaves are one more than branches. */
  ghost predicate Counted(st: RefineState) {
    && |st.tree.nodes| == st.visited + |st.work|
    && 2 * (|st.work| + |st.pending| + |st.unresolved|) == |st.tree.nodes| + 1
  }

  // ----- samples

  ghost predicate Holds(r: Refiner, tree: LectTree, key: NodeKey, i: nat) {
    i < |r.samples| && Descends(tree, r.samples[i], key)
  }

  /** A list names, in increasing order, exactly the samples that descend to the node. */
  ghost predicate ExactSamples(r: Refiner, tree: LectTree, key: NodeKey, list: seq<nat>) {
    && (forall i, j :: 0 <= i < j < |list| ==> list[i] < list[j])
    && (forall i :: i in list <==> Holds(r, tree, key, i))
  }

  ghost predicate ItemOk(r: Refiner, tree: LectTree, item: WorkItem)
    requires item.key in tree.nodes
  {
    && ExactSamples(r, tree, item.key, item.samples)
    && (item.maySplit <==> item.samples != [])
    && (item.cached.Some? ==> r.validate(tree.nodes[item.key].box) == Ok(item.cached.value))
  }

  ghost predicate ItemsOk(r: Refiner, st: RefineState)
    requires Sane(r, st)
  {
    forall i :: 0 <= i < |st.work| ==> ItemOk(r, st.tree, st.work[i])
  }

  // ----- outcomes

  /** The region carries its leaf's box and what the validator certified for it. */
  ghost predicate PendingOk(r: Refiner, tree: LectTree, region: PendingRegion) {
    && region.source in tree.nodes && region.bounds == tree.nodes[region.source].box
    && r.validate(region.bounds) == Ok(RegionValidation(CertifiedFree, region.clearance, region.envelope))
  }

  /** The validator could not certify the box; if a sample descends to it, the
      box is at the maximum depth or cannot be bisected. */
  ghost predicate UnresolvedOk(r: Refiner, tree: LectTree, domain: RepairDomain) {
    && domain.source in tree.nodes && domain.bounds == tree.nodes[domain.source].box
    && r.validate(domain.bounds).Ok? && r.validate(domain.bounds).value.disposition == Undetermined
    && ValidRoot(tree.root) && |domain.bounds| == |tree.root|
    && ((exists i :: Holds(r, tree, domain.source, i)) ==>
          domain.source.Depth() >= r.options.maximumDepth || Unsplittable(tree.root, tree.minimumWidth, domain.bounds))
  }

  ghost predicate OutcomesOk(r: Refiner, st: RefineState) {
    && (forall i :: 0 <= i < |st.pending| ==> PendingOk(r, st.tree, st.pending[i]))
    && (forall i :: 0 <= i < |st.unresolved| ==> UnresolvedOk(r, st.tree, st.unresolved[i]))
  }

  ghost predicate Lands(tree: LectTree, q: Point) {
    exists key :: key in Leaves(tree) && Descends(tree, q, key)
  }

  /** Every sample descends to some leaf. */
  ghost predicate SamplesLand(r: Refiner, tree: LectTree) {
    forall i :: 0 <= i < |r.samples| ==> Lands(tree, r.samples[i])
  }

  /** The invariant of the refinement loop. */
  ghost predicate Refining(r: Refiner, st: RefineState) {
    && Sane(r, st)
    && Partitioned(st) && Counted(st) && Covers(st.tree)
    && ItemsOk(r, st) && OutcomesOk(r, st) && SamplesLand(r, st.tree)
  }

  // ----- shares of leaves

  lemma {:induction false} PopShares(st: RefineState)
    requires st.work != []
    ensures Shares(st) == Shares(Popped(st)) + multiset{st.work[0].key}
  {
    assert WorkKeys(st.work) == [st.work[0].key] + WorkKeys(Popped(st).work);
  }

  lemma {:induction false} PendingShares(st: RefineState, region: PendingRegion)
    ensures Shares(st.(pending := st.pending + [region])) == Shares(st) + multiset{region.source}
  {
    assert PendingKeys(st.pending + [region]) == PendingKeys(st.pending) + [region.source];
  }

  lemma {:induction false} GivenUpShares(st: RefineState, box: Box, key: NodeKey)
    ensures Shares(GivenUp(st, box, key)) == Shares(st) + multiset{key}
  {
    assert UnresolvedKeys(GivenUp(st, box, key).unresolved) == UnresolvedKeys(st.unresolved) + [key];
  }

  lemma {:induction false} PushShares(st: RefineState, tree: LectTree, a: WorkItem, b: WorkItem)
    ensures Shares(st.(tree := tree, work := st.work + [a, b])) == Shares(st) + multiset{a.key, b.key}
  {
    assert WorkKeys(st.work + [a, b]) == WorkKeys(st.work) + [a.key, b.key];
  }

  lemma {:induction false} InShares(st: RefineState, i: nat)
    ensures i < |st.work| ==> st.work[i].key in Shares(st)
    ensures i < |st.pending| ==> st.pending[i].source in Shares(st)
    ensures i < |st.unresolved| ==> st.unresolved[i].source in Shares(st)
  {
    if i < |st.work| {
      assert st.work[i].key == WorkKeys(st.work)[i];
      assert WorkKeys(st.work)[i] in multiset(WorkKeys(st.work));
    }
    if i < |st.pending| {
      assert st.pending[i].source == PendingKeys(st.pending)[i];
      assert PendingKeys(st.pending)[i] in multiset(PendingKeys(st.pending));
    }
    if i < |st.unresolved| {
      assert st.unresolved[i].source == UnresolvedKeys(st.unresolved)[i];
      assert UnresolvedKeys(st.unresolved)[i] in multiset(UnresolvedKeys(st.unresolved));
    }
  }

  /** A leaf owed an outcome has none yet. */
  lemma {:induction false} SharesDiffer(st: RefineState, key: NodeKey, i: nat)
    requires Shares(st) + multiset{key} == multiset(Leaves(st.tree))
    ensures i < |st.pending| ==> st.pending[i].source != key
    ensures i < |st.unresolved| ==> st.unresolved[i].source != key
  {
    InShares(st, i);
    assert multiset(Leaves(st.tree))[key] <= 1;
    assert (Shares(st) + multiset{key})[key] == Shares(st)[key] + 1;
  }

  // ----- a visit that closes the leaf

  /** The state in which the popped leaf is still owed an outcome. */
  ghost predicate Owing(r: Refiner, st: RefineState, item: WorkItem) {
    && Sane(r, st) && item.key in Leaves(st.tree) && KnownSamples(r, item.samples)
    && (forall i :: 0 <= i < |st.work| ==> st.work[i].key != item.key)
    && Shares(st) + multiset{item.key} == multiset(Leaves(st.tree))
    && |st.tree.nodes| == st.visited + |st.work|
    && 2 * (|st.work| + |st.pending| + |st.unresolved| + 1) == |st.tree.nodes| + 1
    && Covers(st.tree) && ItemsOk(r, st) && ItemOk(r, st.tree, item)
    && OutcomesOk(r, st) && SamplesLand(r, st.tree)
  }

  lemma {:induction false} PopOwes(r: Refiner, st: RefineState)
    requires Refining(r, st) && st.work != []
    ensures Owing(r, Popped(st), st.work[0])
  {
    PoppedSane(r, st);
    PopShares(st);
    assert ItemOk(r, st.tree, st.work[0]);
    forall i | 0 <= i < |Popped(st).work| ensures ItemOk(r, st.tree, Popped(st).work[i]) {
      assert Popped(st).work[i] == st.work[i + 1];
    }
  }

  lemma {:induction false} CertifyKeeps(r: Refiner, st: RefineState, item: WorkItem, validation: RegionValidation)
    requires Owing(r, st, item)
    requires r.validate(st.tree.nodes[item.key].box) == Ok(validation) && validation.disposition == CertifiedFree
    ensures Refining(r, st.(pending := st.pending + [PendingRegion(st.tree.nodes[item.key].box, item.key,
                                                                   validation.clearance, validation.envelope)]))
  {
    var region := PendingRegion(st.tree.nodes[item.key].box, item.key, validation.clearance, validation.envelope);
    PendingShares(st, region);
    assert PendingOk(r, st.tree, region);
  }

  lemma {:induction false} GiveUpKeeps(r: Refiner, st: RefineState, item: WorkItem)
    requires Owing(r, st, item)
    requires var box := st.tree.nodes[item.key].box;
             && r.validate(box).Ok? && r.validate(box).value.disposition == Undetermined
             && (|| !item.maySplit || item.samples == [] || item.key.Depth() >= r.options.maximumDepth
                 || Unsplittable(st.tree.root, st.tree.minimumWidth, box))
    ensures Refining(r, GivenUp(st, st.tree.nodes[item.key].box, item.key))
  {
    var box := st.tree.nodes[item.key].box;
    GivenUpShares(st, box, item.key);
    var domain := RepairDomain(0, box, item.key);
    if exists i :: Holds(r, st.tree, item.key, i) {
      var i :| Holds(r, st.tree, item.key, i);
      assert i in item.samples;
    }
    assert UnresolvedOk(r, st.tree, domain);
  }

  // ----- a visit that bisects the leaf

  lemma {:induction false} SideIsExact(r: Refiner, box: Box, d: nat, list: seq<nat>, left: bool, i: nat)
    requires d < |box| && KnownSamples(r, list) && forall k :: 0 <= k < |r.samples| ==> |r.samples[k]| == |box|
    ensures i in Side(r, box, d, list, left) <==> i in list && GoesLeft(box, d, r.samples[i]) == left
  {
    if list != [] {
      var before := list[..|list| - 1];
      SideIsExact(r, box, d, before, left, i);
      assert list == before + [Last(list)];
    }
  }

  lemma {:induction false} SideIncreases(r: Refiner, box: Box, d: nat, list: seq<nat>, left: bool)
    requires d < |box| && KnownSamples(r, list) && forall k :: 0 <= k < |r.samples| ==> |r.samples[k]| == |box|
    requires forall i, j :: 0 <= i < j < |list| ==> list[i] < list[j]
    ensures var side := Side(r, box, d, list, left);
            forall i, j :: 0 <= i < j < |side| ==> side[i] < side[j]
  {
    if list != [] {
      var before := list[..|list| - 1];
      SideIncreases(r, box, d, before, left);
      var side := Side(r, box, d, before, left);
      forall k | 0 <= k < |side| ensures side[k] < Last(list) {
        SideIsExact(r, box, d, before, left, side[k]);
        var m :| 0 <= m < |before| && before[m] == side[k];
        assert list[m] < list[|list| - 1];
      }
      var whole := Side(r, box, d, list, left);
      assert whole == side || whole == side + [Last(list)];
      forall i, j | 0 <= i < j < |whole| ensures whole[i] < whole[j] {
        assert whole[i] == side[i];
        if j < |side| {
          assert whole[j] == side[j] && side[i] < side[j];
        }
      }
    }
  }

  /** The samples of a bisected leaf are shared out exactly between its halves. */
  lemma {:induction false} HalfSamples(r: Refiner, tree: LectTree, key: NodeKey, list: seq<nat>, left: bool)
    requires WellFormed(tree) && key in Leaves(tree) && KnownSamples(r, list)
    requires forall k :: 0 <= k < |r.samples| ==> |r.samples[k]| == |tree.root|
    requires ExactSamples(r, tree, key, list)
    ensures var box := tree.nodes[key].box;
            var side := Side(r, box, LongestAxis(tree.root, box, |tree.root|), list, left);
            ExactSamples(r, Bisected(tree, key), if left then Left(key) else Right(key), side)
  {
    var box := tree.nodes[key].box;
    var d := LongestAxis(tree.root, box, |tree.root|);
    SideIncreases(r, box, d, list, left);
    forall i: nat ensures i in Side(r, box, d, list, left) <==>
                     Holds(r, Bisected(tree, key), if left then Left(key) else Right(key), i) {
      SideIsExact(r, box, d, list, left, i);
      if 0 <= i < |r.samples| {
        BisectDescent(tree, key, r.samples[i]);
      }
    }
  }

  lemma {:induction false} BisectKeepsItem(r: Refiner, tree: LectTree, key: NodeKey, item: WorkItem)
    requires WellFormed(tree) && key in Leaves(tree)
    requires item.key in Leaves(tree) && item.key != key && ItemOk(r, tree, item)
    ensures item.key in Bisected(tree, key).nodes && ItemOk(r, Bisected(tree, key), item)
  {
    BisectLeaves(tree, key);
    forall i: nat ensures Holds(r, Bisected(tree, key), item.key, i) == Holds(r, tree, item.key, i) {
      if i < |r.samples| {
        BisectKeepsDescent(tree, key, r.samples[i], item.key);
      }
    }
  }

  lemma {:induction false} BisectKeepsOutcomes(r: Refiner, st: RefineState, key: NodeKey)
    requires WellFormed(st.tree) && key in Leaves(st.tree) && OutcomesOk(r, st)
    requires Shares(st) + multiset{key} == multiset(Leaves(st.tree))
    ensures OutcomesOk(r, st.(tree := Bisected(st.tree, key)))
  {
    var after := Bisected(st.tree, key);
    BisectLeaves(st.tree, key);
    forall i | 0 <= i < |st.pending| ensures PendingOk(r, after, st.pending[i]) {
      assert PendingOk(r, st.tree, st.pending[i]);
      SharesDiffer(st, key, i);
    }
    forall i | 0 <= i < |st.unresolved| ensures UnresolvedOk(r, after, st.unresolved[i]) {
      var domain := st.unresolved[i];
      assert UnresolvedOk(r, st.tree, domain);
      SharesDiffer(st, key, i);
      forall k: nat | Holds(r, after, domain.source, k) ensures Holds(r, st.tree, domain.source, k) {
        BisectKeepsDescent(st.tree, key, r.samples[k], domain.source);
      }
    }
  }

  lemma {:induction false} BisectKeepsLanding(r: Refiner, tree: LectTree, key: NodeKey)
    requires WellFormed(tree) && key in Leaves(tree) && SamplesLand(r, tree)
    requires forall k :: 0 <= k < |r.samples| ==> |r.samples[k]| == |tree.root|
    ensures SamplesLand(r, Bisected(tree, key))
  {
    var after := Bisected(tree, key);
    BisectLeaves(tree, key);
    forall i | 0 <= i < |r.samples| ensures Lands(after, r.samples[i]) {
      assert Lands(tree, r.samples[i]);
      var k :| k in Leaves(tree) && Descends(tree, r.samples[i], k);
      if k == key {
        BisectDescent(tree, key, r.samples[i]);
        assert Left(key) in Leaves(after) && Right(key) in Leaves(after);
      } else {
        BisectKeepsDescent(tree, key, r.samples[i], k);
        assert k in Leaves(after);
      }
    }
  }

  lemma {:induction false} BisectShares(tree: LectTree, key: NodeKey)
    requires WellFormed(tree) && key in Leaves(tree)
    ensures multiset(Leaves(Bisected(tree, key))) + multiset{key} ==
            multiset(Leaves(tree)) + multiset{Left(key), Right(key)}
  {
    BisectLeaves(tree, key);
  }

  lemma {:induction false} SplitItemsOk(r: Refiner, st: RefineState, item: WorkItem)
    requires Owing(r, st, item) && Split(st.tree, item.key).Ok?
    requires SplitItem(r, st, item).Ok? && Sane(r, SplitItem(r, st, item).value)
    ensures ItemsOk(r, SplitItem(r, st, item).value)
  {
    var next := SplitItem(r, st, item).value;
    var box := st.tree.nodes[item.key].box;
    BisectWellFormed(st.tree, item.key);
    HalfSamples(r, st.tree, item.key, item.samples, true);
    HalfSamples(r, st.tree, item.key, item.samples, false);
    assert next.tree == Bisected(st.tree, item.key);
    forall i | 0 <= i < |next.work| ensures ItemOk(r, next.tree, next.work[i]) {
      if i < |st.work| {
        assert next.work[i] == st.work[i];
        BisectKeepsItem(r, st.tree, item.key, st.work[i]);
      }
    }
  }

  lemma {:induction false} SplitPartition(r: Refiner, st: RefineState, item: WorkItem)
    requires Sane(r, st) && item.key in Leaves(st.tree) && KnownSamples(r, item.samples)
    requires Shares(st) + multiset{item.key} == multiset(Leaves(st.tree))
    requires Split(st.tree, item.key).Ok? && SplitItem(r, st, item).Ok?
    ensures Partitioned(SplitItem(r, st, item).value)
  {
    var next := SplitItem(r, st, item).value;
    BisectShares(st.tree, item.key);
    PushShares(st, next.tree, next.work[|st.work|], next.work[|st.work| + 1]);
    var left, right := next.work[|st.work|].key, next.work[|st.work| + 1].key;
    assert Shares(next) == Shares(st) + multiset{left, right};
    assert Shares(next) + multiset{item.key} == multiset(Leaves(st.tree)) + multiset{left, right};
    assert Shares(next) + multiset{item.key} == multiset(Leaves(next.tree)) + multiset{item.key};
    CancelMultiset(Shares(next), multiset(Leaves(next.tree)), multiset{item.key});
  }

  lemma {:induction false} CancelMultiset<T>(a: multiset<T>, b: multiset<T>, c: multiset<T>)
    requires a + c == b + c
    ensures a == b
  {
    assert a == (a + c) - c && b == (b + c) - c;
  }

  lemma {:induction false} SplitKeeps(r: Refiner, st: RefineState, item: WorkItem)
    requires Owing(r, st, item) && Split(st.tree, item.key).Ok?
    requires |st.tree.nodes| + 2 <= r.options.maximumNodes
    requires SplitItem(r, st, item).Ok?
    ensures Refining(r, SplitItem(r, st, item).value)
  {
    var next := SplitItem(r, st, item).value;
    SplitSane(r, st, item);
    SplitItemsOk(r, st, item);
    BisectKeepsOutcomes(r, st, item.key);
    BisectKeepsLanding(r, st.tree, item.key);
    BisectCovers(st.tree, item.key);
    BisectLeaves(st.tree, item.key);
    SplitPartition(r, st, item);
  }

  /** Every visit keeps the loop invariant. */
  lemma {:induction false} StepKeeps(r: Refiner, st: RefineState)
    requires Refining(r, st) && st.work != [] && Step(r, st).Ok?
    ensures Refining(r, Step(r, st).value)
  {
    var item := st.work[0];
    var rest := Popped(st);
    PopOwes(r, st);
    var box := st.tree.nodes[item.key].box;
    var validation := ValidationOf(r, item, box).value;
    assert ItemOk(r, st.tree, item);
    if validation.disposition == CertifiedFree {
      CertifyKeeps(r, rest, item, validation);
    } else if !item.maySplit || item.samples == [] || item.key.Depth() >= r.options.maximumDepth {
      GiveUpKeeps(r, rest, item);
    } else if Split(st.tree, item.key).Ok? {
      SplitKeeps(r, rest, item);
    } else {
      GiveUpKeeps(r, rest, item);
    }
  }

  /** ... so a finished refinement has it too, with no work left. */
  lemma {:induction false} RunKeeps(r: Refiner, st: RefineState)
    requires Refining(r, st) && Run(r, st).Ok?
    ensures Refining(r, Run(r, st).value) && Run(r, st).value.work == []
    decreases r.options.maximumNodes - |st.tree.nodes|, |st.work|
  {
    if st.work != [] {
      StepSane(r, st);
      StepKeeps(r, st);
      RunKeeps(r, Step(r, st).value);
    }
  }

  lemma {:induction false} RunKeepsRoot(r: Refiner, st: RefineState)
    requires Sane(r, st) && Run(r, st).Ok?
    ensures Run(r, st).value.tree.root == st.tree.root && Run(r, st).value.tree.minimumWidth == st.tree.minimumWidth
    decreases r.options.maximumNodes - |st.tree.nodes|, |st.work|
  {
    if st.work != [] {
      StepSane(r, st);
      StepKeepsRoot(r, st);
      RunKeepsRoot(r, Step(r, st).value);
    }
  }

  // ----- from the first state to the last

  function AllSamples(n: nat): seq<nat> {
    seq(n, i => i)
  }

  function InitialState(tree: LectTree, samples: seq<Point>): RefineState {
    RefineState(tree, [WorkItem(Root, AllSamples(|samples|), true, None)], [], [], 0)
  }

  lemma {:induction false} InitialRefining(r: Refiner, root: Box, tree: LectTree)
    requires Create(root, r.options.minimumNormalizedWidth) == Ok(tree)
    requires r.samples != [] && r.options.maximumNodes >= 1
    requires forall i :: 0 <= i < |r.samples| ==> |r.samples[i]| == |root|
    ensures Refining(r, InitialState(tree, r.samples))
  {
    var st := InitialState(tree, r.samples);
    assert NodeOk(tree, Root);
    assert Leaves(tree) == {Root};
    assert WorkKeys(st.work) == [Root];
    forall i: nat ensures i in AllSamples(|r.samples|) <==> Holds(r, tree, Root, i) {
      if i < |r.samples| {
        assert AllSamples(|r.samples|)[i] == i;
      }
    }
    assert ItemOk(r, tree, st.work[0]);
    forall q | In(q, root) ensures exists key :: key in Leaves(tree) && In(q, tree.nodes[key].box) {
      assert Root in Leaves(tree);
    }
    forall i | 0 <= i < |r.samples| ensures Lands(tree, r.samples[i]) {
      assert Root in Leaves(tree) && Descends(tree, r.samples[i], Root);
    }
  }

  /** What a finished refinement says about the domain `root`. */
  ghost predicate Refined(r: Refiner, root: Box, st: RefineState) {
    && Refining(r, st) && st.work == [] && st.tree.root == root
    && st.tree.minimumWidth == r.options.minimumNormalizedWidth
  }

  /** The domain is covered: every configuration lies in a certified region or a repair domain. */
  lemma {:induction false} RefinedCovers(r: Refiner, root: Box, st: RefineState, q: Point)
    requires Refined(r, root, st) && In(q, root)
    ensures || (exists i :: 0 <= i < |st.pending| && In(q, st.pending[i].bounds))
            || (exists i :: 0 <= i < |st.unresolved| && In(q, st.unresolved[i].bounds))
  {
    var key :| key in Leaves(st.tree) && In(q, st.tree.nodes[key].box);
    LeafHasOutcome(r, root, st, key);
  }

  /** A leaf with an outcome is one region's source or one repair domain's. */
  ghost predicate HasOutcome(st: RefineState, key: NodeKey)
    requires key in st.tree.nodes
  {
    || (exists i :: 0 <= i < |st.pending| && st.pending[i].source == key
            && st.pending[i].bounds == st.tree.nodes[key].box)
    || (exists i :: 0 <= i < |st.unresolved| && st.unresolved[i].source == key
            && st.unresolved[i].bounds == st.tree.nodes[key].box)
  }

  /** Every leaf that is not to be visited any more has one. */
  lemma {:induction false} ClosedLeafHasOutcome(r: Refiner, st: RefineState, key: NodeKey)
    requires Refining(r, st) && key in Leaves(st.tree) && forall i :: 0 <= i < |st.work| ==> st.work[i].key != key
    ensures HasOutcome(st, key)
  {
    assert key in multiset(Leaves(st.tree));
    assert key in Shares(st);
    assert key !in WorkKeys(st.work);
    if key in multiset(PendingKeys(st.pending)) {
      assert key in PendingKeys(st.pending);
      var i :| 0 <= i < |PendingKeys(st.pending)| && PendingKeys(st.pending)[i] == key;
      assert PendingOk(r, st.tree, st.pending[i]);
    } else {
      assert key in multiset(UnresolvedKeys(st.unresolved));
      assert key in UnresolvedKeys(st.unresolved);
      var i :| 0 <= i < |UnresolvedKeys(st.unresolved)| && UnresolvedKeys(st.unresolved)[i] == key;
      assert UnresolvedOk(r, st.tree, st.unresolved[i]);
    }
  }

  lemma {:induction false} LeafHasOutcome(r: Refiner, root: Box, st: RefineState, key: NodeKey)
    requires Refined(r, root, st) && key in Leaves(st.tree)
    ensures HasOutcome(st, key)
  {
    ClosedLeafHasOutcome(r, st, key);
  }

  /** Every node was visited once, within the budget, and closed leaves outnumber branches by one. */
  lemma {:induction false} RefinedCounts(r: Refiner, root: Box, st: RefineState)
    requires Refined(r, root, st)
    ensures st.visited == |st.tree.nodes| <= r.options.maximumNodes
    ensures 2 * (|st.pending| + |st.unresolved|) == st.visited + 1
  {
  }

  /** Each sample ends in exactly one leaf, whose box contains it as closely as
      the domain does; if that box was left unresolved it could not be refined further. */
  lemma {:induction false} RefinedSamples(r: Refiner, root: Box, st: RefineState, i: nat, tolerance: real)
    returns (key: NodeKey)
    requires Refined(r, root, st) && i < |r.samples| && tolerance >= 0.0 && Contains(root, r.samples[i], tolerance)
    ensures key in Leaves(st.tree) && Contains(st.tree.nodes[key].box, r.samples[i], tolerance)
    ensures forall k :: k in Leaves(st.tree) && Descends(st.tree, r.samples[i], k) ==> k == key
    ensures forall u :: 0 <= u < |st.unresolved| && st.unresolved[u].source == key ==>
              || key.Depth() >= r.options.maximumDepth
              || (ValidRoot(root) && |st.unresolved[u].bounds| == |root|
                  && Unsplittable(root, r.options.minimumNormalizedWidth, st.unresolved[u].bounds))
  {
    assert Lands(st.tree, r.samples[i]);
    key :| key in Leaves(st.tree) && Descends(st.tree, r.samples[i], key);
    DescentIsContained(st.tree, r.samples[i], key, tolerance);
    forall k | k in Leaves(st.tree) && Descends(st.tree, r.samples[i], k) ensures k == key {
      DescentIsUnique(st.tree, r.samples[i], k, key);
    }
    assert Holds(r, st.tree, key, i);
    forall u | 0 <= u < |st.unresolved| && st.unresolved[u].source == key
      ensures || key.Depth() >= r.options.maximumDepth
              || (ValidRoot(root) && |st.unresolved[u].bounds| == |root|
                  && Unsplittable(root, r.options.minimumNormalizedWidth, st.unresolved[u].bounds))
    {
      assert UnresolvedOk(r, st.tree, st.unresolved[u]);
    }
  }

  /** Sources of regions are distinct leaves. */
  lemma {:induction false} RefinedSourcesDistinct(r: Refiner, root: Box, st: RefineState)
    requires Refined(r, root, st)
    ensures NoDuplicates(PendingKeys(st.pending)) && NoDuplicates(UnresolvedKeys(st.unresolved))
  {
    var p, u := PendingKeys(st.pending), UnresolvedKeys(st.unresolved);
    forall i, j | 0 <= i < j < |p| ensures p[i] != p[j] {
      assert Shares(st)[p[i]] == multiset(Leaves(st.tree))[p[i]] <= 1;
      if p[i] == p[j] {
        DuplicatesAreCounted(p, i, j);
      }
    }
    forall i, j | 0 <= i < j < |u| ensures u[i] != u[j] {
      assert Shares(st)[u[i]] == multiset(Leaves(st.tree))[u[i]] <= 1;
      if u[i] == u[j] {
        DuplicatesAreCounted(u, i, j);
      }
    }
  }
}
