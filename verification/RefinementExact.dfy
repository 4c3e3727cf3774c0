/** The refinement said without its work list: which boxes it bisects, which it
    leaves, and when it succeeds, in terms of the domain, the samples and the
    validator alone. */
module RefinementExact {
  import opened Support
  import opened Boxes
  import opened Certificates
  import opened Lect
  import opened Refinement
  import opened RefinementInvariants

  // ----- the boxes below a domain

  /** The box of a node: halves of the domain along the longest axis of each box on the way. */
  function BoxOf(root: Box, key: NodeKey): (box: Box)
    requires ValidRoot(root)
    ensures |box| == |root|
    decreases key
  {
    match key
    case Root => root
    case Left(parent) => LeftHalf(BoxOf(root, parent), LongestAxis(root, BoxOf(root, parent), |root|))
    case Right(parent) => RightHalf(BoxOf(root, parent), LongestAxis(root, BoxOf(root, parent), |root|))
  }

  /** The configuration goes to the node: on the way, at most the centre goes left. */
  predicate Passes(root: Box, q: Point, key: NodeKey)
    requires ValidRoot(root) && |q| == |root|
    decreases key
  {
    key.Root? ||
    (&& Passes(root, q, key.parent)
     && var box := BoxOf(root, key.parent);
        var d := LongestAxis(root, box, |root|);
        (key.Left? <==> q[d] <= box[d].Center()))
  }

  /** The refinement is set up for samples of the domain's dimension. */
  ghost predicate SetUp(r: Refiner, root: Box) {
    ValidRoot(root) && forall i :: 0 <= i < |r.samples| ==> |r.samples[i]| == |root|
  }

  /** The box is worth bisecting and can be: not certified, above the maximum
      depth, with a sample in it, and wide enough. */
  ghost predicate Divisible(r: Refiner, root: Box, key: NodeKey)
    requires SetUp(r, root)
  {
    && r.validate(BoxOf(root, key)).Ok? && r.validate(BoxOf(root, key)).value.disposition == Undetermined
    && key.Depth() < r.options.maximumDepth
    && (exists i :: 0 <= i < |r.samples| && Passes(root, r.samples[i], key))
    && !Unsplittable(root, r.options.minimumNormalizedWidth, BoxOf(root, key))
  }

  /** Every box above the node is divisible. */
  ghost predicate Reached(r: Refiner, root: Box, key: NodeKey)
    requires SetUp(r, root)
    decreases key
  {
    key.Root? || (Reached(r, root, key.parent) && Divisible(r, root, key.parent))
  }

  // ----- what every visit keeps

  /** The node has its box, and is bisected along the longest axis only if divisible. */
  ghost predicate NodeExact(r: Refiner, root: Box, tree: LectTree, key: NodeKey)
    requires SetUp(r, root) && key in tree.nodes
  {
    && tree.nodes[key].box == BoxOf(root, key)
    && (!tree.nodes[key].leaf ==>
          && tree.nodes[key].splitDimension == LongestAxis(root, BoxOf(root, key), |root|)
          && Divisible(r, root, key))
  }

  ghost predicate TreeExact(r: Refiner, root: Box, tree: LectTree)
    requires SetUp(r, root)
  {
    && tree.root == root && tree.minimumWidth == r.options.minimumNormalizedWidth
    && forall key {:trigger NodeExact(r, root, tree, key)} :: key in tree.nodes ==> NodeExact(r, root, tree, key)
  }

  lemma {:induction false} DescendsIffPasses(r: Refiner, root: Box, tree: LectTree, q: Point, key: NodeKey)
    requires SetUp(r, root) && WellFormed(tree) && TreeExact(r, root, tree) && key in tree.nodes && |q| == |root|
    ensures Descends(tree, q, key) <==> Passes(root, q, key)
    decreases key
  {
    if !key.Root? {
      assert NodeOk(tree, key);
      assert NodeExact(r, root, tree, key.parent);
      DescendsIffPasses(r, root, tree, q, key.parent);
    }
  }

  lemma {:induction false} BisectKeepsExact(r: Refiner, root: Box, tree: LectTree, key: NodeKey)
    requires SetUp(r, root) && WellFormed(tree) && key in Leaves(tree)
    requires TreeExact(r, root, tree) && Divisible(r, root, key)
    ensures TreeExact(r, root, Bisected(tree, key))
  {
    var after := Bisected(tree, key);
    assert NodeExact(r, root, tree, key);
    forall k | k in after.nodes ensures NodeExact(r, root, after, k) {
      if k != key && k != Left(key) && k != Right(key) {
        assert NodeExact(r, root, tree, k);
      }
    }
  }

  lemma {:induction false} ItemIsSampled(r: Refiner, root: Box, tree: LectTree, item: WorkItem)
    requires SetUp(r, root) && WellFormed(tree) && TreeExact(r, root, tree) && item.key in tree.nodes
    requires ItemOk(r, tree, item) && item.samples != []
    ensures exists i :: 0 <= i < |r.samples| && Passes(root, r.samples[i], item.key)
  {
    var i := item.samples[0];
    assert i in item.samples;
    assert Holds(r, tree, item.key, i);
    DescendsIffPasses(r, root, tree, r.samples[i], item.key);
  }

  /** A leaf that is bisected is divisible. */
  lemma {:induction false} BisectedIsDivisible(r: Refiner, root: Box, st: RefineState, item: WorkItem)
    requires SetUp(r, root) && Sane(r, st) && TreeExact(r, root, st.tree) && item.key in Leaves(st.tree)
    requires ItemOk(r, st.tree, item) && item.samples != [] && item.key.Depth() < r.options.maximumDepth
    requires var validation := ValidationOf(r, item, st.tree.nodes[item.key].box);
             validation.Ok? && validation.value.disposition == Undetermined
    requires Split(st.tree, item.key).Ok?
    ensures Divisible(r, root, item.key) && Split(st.tree, item.key) == Ok(Bisected(st.tree, item.key))
  {
    assert NodeExact(r, root, st.tree, item.key);
    ItemIsSampled(r, root, st.tree, item);
  }

  /** Every visit keeps it. */
  lemma {:induction false} StepKeepsExact(r: Refiner, root: Box, st: RefineState)
    requires SetUp(r, root) && Refining(r, st) && TreeExact(r, root, st.tree) && st.work != [] && Step(r, st).Ok?
    ensures TreeExact(r, root, Step(r, st).value.tree)
  {
    var item, rest := st.work[0], Popped(st);
    PopOwes(r, st);
    var validation := ValidationOf(r, item, st.tree.nodes[item.key].box).value;
    if || validation.disposition == CertifiedFree
       || !item.maySplit || item.samples == [] || item.key.Depth() >= r.options.maximumDepth {
    } else if Split(rest.tree, item.key).Ok? {
      BisectedIsDivisible(r, root, rest, item);
      BisectKeepsExact(r, root, rest.tree, item.key);
    }
  }

  lemma {:induction false} RunKeepsExact(r: Refiner, root: Box, st: RefineState)
    requires SetUp(r, root) && Refining(r, st) && TreeExact(r, root, st.tree) && Run(r, st).Ok?
    ensures TreeExact(r, root, Run(r, st).value.tree)
    decreases r.options.maximumNodes - |st.tree.nodes|, |st.work|
  {
    if st.work != [] {
      StepSane(r, st);
      StepKeeps(r, st);
      StepKeepsExact(r, root, st);
      RunKeepsExact(r, root, Step(r, st).value);
    }
  }

  lemma {:induction false} InitialExact(r: Refiner, root: Box, tree: LectTree)
    requires SetUp(r, root) && Create(root, r.options.minimumNormalizedWidth) == Ok(tree)
    ensures TreeExact(r, root, tree)
  {
  }

  // ----- a finished refinement

  /** A leaf that was closed is not divisible. */
  lemma {:induction false} ClosedIsNotDivisible(r: Refiner, root: Box, st: RefineState, key: NodeKey)
    requires SetUp(r, root) && Refining(r, st) && TreeExact(r, root, st.tree) && key in Leaves(st.tree)
    requires forall i :: 0 <= i < |st.work| ==> st.work[i].key != key
    ensures !Divisible(r, root, key)
  {
    ClosedLeafHasOutcome(r, st, key);
    assert NodeExact(r, root, st.tree, key);
    if i :| 0 <= i < |st.pending| && st.pending[i].source == key
            && st.pending[i].bounds == st.tree.nodes[key].box {
      assert PendingOk(r, st.tree, st.pending[i]);
    } else {
      var i :| 0 <= i < |st.unresolved| && st.unresolved[i].source == key
               && st.unresolved[i].bounds == st.tree.nodes[key].box;
      assert UnresolvedOk(r, st.tree, st.unresolved[i]);
      if k :| 0 <= k < |r.samples| && Passes(root, r.samples[k], key) {
        DescendsIffPasses(r, root, st.tree, r.samples[k], key);
        assert Holds(r, st.tree, key, k);
      }
    }
  }

  /** The tree of a finished refinement has exactly the nodes reached, and its
      branches are exactly the divisible ones. */
  lemma {:induction false} TreeIsReached(r: Refiner, root: Box, st: RefineState, key: NodeKey)
    requires SetUp(r, root) && Refined(r, root, st) && TreeExact(r, root, st.tree)
    ensures key in st.tree.nodes <==> Reached(r, root, key)
    ensures key in st.tree.nodes ==> (st.tree.nodes[key].leaf <==> !Divisible(r, root, key))
    decreases key
  {
    if key in st.tree.nodes {
      assert NodeOk(st.tree, key) && NodeExact(r, root, st.tree, key);
      if st.tree.nodes[key].leaf {
        ClosedIsNotDivisible(r, root, st, key);
      }
    }
    if !key.Root? {
      TreeIsReached(r, root, st, key.parent);
      if key.parent in st.tree.nodes {
        assert NodeOk(st.tree, key.parent);
      }
    }
  }

  /** The nodes reached, and what the validator says about each, are what a
      finished refinement delivers. */
  lemma {:induction false} OutcomesAreReached(r: Refiner, root: Box, st: RefineState, key: NodeKey)
    requires SetUp(r, root) && Refined(r, root, st) && TreeExact(r, root, st.tree)
    ensures (exists i :: 0 <= i < |st.pending| && st.pending[i].source == key) <==>
            && Reached(r, root, key) && r.validate(BoxOf(root, key)).Ok?
            && r.validate(BoxOf(root, key)).value.disposition == CertifiedFree
    ensures (exists i :: 0 <= i < |st.unresolved| && st.unresolved[i].source == key) <==>
            && Reached(r, root, key) && !Divisible(r, root, key) && r.validate(BoxOf(root, key)).Ok?
            && r.validate(BoxOf(root, key)).value.disposition == Undetermined
  {
    TreeIsReached(r, root, st, key);
    if i :| 0 <= i < |st.pending| && st.pending[i].source == key {
      PendingIsLeaf(r, root, st, i);
    }
    if i :| 0 <= i < |st.unresolved| && st.unresolved[i].source == key {
      UnresolvedIsLeaf(r, root, st, i);
    }
    if key in st.tree.nodes {
      assert NodeExact(r, root, st.tree, key);
      if st.tree.nodes[key].leaf {
        LeafHasOutcome(r, root, st, key);
      }
    }
  }

  lemma {:induction false} PendingIsLeaf(r: Refiner, root: Box, st: RefineState, i: nat)
    requires SetUp(r, root) && Refined(r, root, st) && TreeExact(r, root, st.tree) && i < |st.pending|
    ensures st.pending[i].source in Leaves(st.tree) && st.pending[i].bounds == BoxOf(root, st.pending[i].source)
    ensures r.validate(st.pending[i].bounds).Ok?
    ensures r.validate(st.pending[i].bounds).value.disposition == CertifiedFree
  {
    InShares(st, i);
    assert st.pending[i].source in multiset(Leaves(st.tree));
    assert PendingOk(r, st.tree, st.pending[i]);
    assert NodeExact(r, root, st.tree, st.pending[i].source);
  }

  lemma {:induction false} UnresolvedIsLeaf(r: Refiner, root: Box, st: RefineState, i: nat)
    requires SetUp(r, root) && Refined(r, root, st) && TreeExact(r, root, st.tree) && i < |st.unresolved|
    ensures st.unresolved[i].source in Leaves(st.tree)
    ensures st.unresolved[i].bounds == BoxOf(root, st.unresolved[i].source)
    ensures r.validate(st.unresolved[i].bounds).Ok?
    ensures r.validate(st.unresolved[i].bounds).value.disposition == Undetermined
  {
    InShares(st, i);
    assert st.unresolved[i].source in multiset(Leaves(st.tree));
    assert UnresolvedOk(r, st.tree, st.unresolved[i]);
    assert NodeExact(r, root, st.tree, st.unresolved[i].source);
  }

  /** The finished state of a successful refinement. */
  lemma {:induction false} FinishedFrom(r: Refiner, root: Box, tree: LectTree) returns (st: RefineState)
    requires SetUp(r, root) && Create(root, r.options.minimumNormalizedWidth) == Ok(tree)
    requires r.samples != [] && r.options.maximumNodes >= 1 && Sane(r, InitialState(tree, r.samples))
    requires Run(r, InitialState(tree, r.samples)).Ok?
    ensures Run(r, InitialState(tree, r.samples)) == Ok(st)
    ensures Refined(r, root, st) && TreeExact(r, root, st.tree)
  {
    var start := InitialState(tree, r.samples);
    InitialRefining(r, root, tree);
    InitialExact(r, root, tree);
    RunKeeps(r, start);
    RunKeepsRoot(r, start);
    RunKeepsExact(r, root, start);
    st := Run(r, start).value;
  }
}
