/** When the refinement succeeds, in terms of the boxes reached: its visits go
    breadth first, which tells how many nodes there are at each of them. */
module RefinementBudget {
  import opened Support
  import opened Sequences
  import opened Boxes
  import opened Certificates
  import opened Lect
  import opened Refinement
  import opened RefinementInvariants
  import opened RefinementExact

  // ----- success

  /** The keys are exactly the nodes reached. */
  ghost predicate AllReached(r: Refiner, root: Box, keys: set<NodeKey>)
    requires SetUp(r, root)
  {
    forall key :: key in keys <==> Reached(r, root, key)
  }

  /** Every box reached is validated without failure, and no visit is cancelled. */
  ghost predicate Undisturbed(r: Refiner, root: Box, keys: set<NodeKey>)
    requires SetUp(r, root)
  {
    && (forall key :: key in keys ==> r.validate(BoxOf(root, key)).Ok?)
    && (forall n :: 0 <= n < |keys| ==> !r.cancelled(n))
  }

  lemma {:induction false} VisitsWereNotCancelled(r: Refiner, st: RefineState, n: nat)
    requires Sane(r, st) && Run(r, st).Ok? && st.visited <= n < Run(r, st).value.visited
    ensures !r.cancelled(n)
    decreases r.options.maximumNodes - |st.tree.nodes|, |st.work|
  {
    if st.work != [] && n != st.visited {
      StepSane(r, st);
      VisitsWereNotCancelled(r, Step(r, st).value, n);
    }
  }

  /** A successful refinement visits each node reached once, all within the
      budget, uncancelled and without a failed validation. */
  lemma {:induction false} SuccessIsWithinBudget(r: Refiner, root: Box, tree: LectTree)
    returns (keys: set<NodeKey>)
    requires SetUp(r, root) && Create(root, r.options.minimumNormalizedWidth) == Ok(tree)
    requires r.samples != [] && r.options.maximumNodes >= 1 && Sane(r, InitialState(tree, r.samples))
    requires Run(r, InitialState(tree, r.samples)).Ok?
    ensures AllReached(r, root, keys) && Undisturbed(r, root, keys)
    ensures Run(r, InitialState(tree, r.samples)).value.visited == |keys| <= r.options.maximumNodes
  {
    var st := FinishedFrom(r, root, tree);
    keys := st.tree.nodes.Keys;
    RefinedCounts(r, root, st);
    forall key ensures key in keys <==> Reached(r, root, key) {
      TreeIsReached(r, root, st, key);
    }
    forall key | key in keys ensures r.validate(BoxOf(root, key)).Ok? {
      TreeIsReached(r, root, st, key);
      if st.tree.nodes[key].leaf {
        LeafHasOutcome(r, root, st, key);
        OutcomesAreReached(r, root, st, key);
      }
    }
    forall n | 0 <= n < |keys| ensures !r.cancelled(n) {
      VisitsWereNotCancelled(r, InitialState(tree, r.samples), n);
    }
  }

  lemma {:induction false} NodesWithin(r: Refiner, root: Box, st: RefineState, keys: set<NodeKey>)
    requires SetUp(r, root) && Refining(r, st) && TreeExact(r, root, st.tree) && AllReached(r, root, keys)
    ensures st.tree.nodes.Keys <= keys && |st.tree.nodes| <= |keys|
  {
    forall key | key in st.tree.nodes ensures key in keys {
      NodeIsReached(r, root, st.tree, key);
    }
    SubsetSize(st.tree.nodes.Keys, keys);
    assert |st.tree.nodes| == |st.tree.nodes.Keys|;
  }

  lemma {:induction false} NodeIsReached(r: Refiner, root: Box, tree: LectTree, key: NodeKey)
    requires SetUp(r, root) && WellFormed(tree) && TreeExact(r, root, tree) && key in tree.nodes
    ensures Reached(r, root, key)
    decreases key
  {
    if !key.Root? {
      assert NodeOk(tree, key) && NodeExact(r, root, tree, key.parent);
      NodeIsReached(r, root, tree, key.parent);
    }
  }

  // ----- breadth first

  /** Shallower nodes come first, and nodes of one depth from left to right. */
  predicate Before(a: NodeKey, b: NodeKey) {
    if a.Depth() != b.Depth() then a.Depth() < b.Depth()
    else if a.Root? then false
    else if a.parent == b.parent then a.Left? && b.Right?
    else Before(a.parent, b.parent)
  }

  lemma {:induction false} BeforeIsStrict(a: NodeKey, b: NodeKey)
    requires Before(a, b)
    ensures !Before(b, a) && a != b
  {
    if a.Depth() == b.Depth() && a.parent != b.parent {
      BeforeIsStrict(a.parent, b.parent);
    }
  }

  lemma {:induction false} BeforeIsTransitive(a: NodeKey, b: NodeKey, c: NodeKey)
    requires Before(a, b) && Before(b, c)
    ensures Before(a, c)
  {
    if a.Depth() == b.Depth() == c.Depth() {
      if a.parent != b.parent && b.parent != c.parent {
        BeforeIsTransitive(a.parent, b.parent, c.parent);
        BeforeIsStrict(a.parent, c.parent);
      }
    }
  }

  lemma {:induction false} ChildrenFollow(a: NodeKey, b: NodeKey, x: NodeKey, y: NodeKey)
    requires Before(a, b) && !x.Root? && !y.Root? && x.parent == a && y.parent == b
    ensures Before(x, y)
  {
    BeforeIsStrict(a, b);
  }

  ghost predicate IsOpen(open: seq<NodeKey>, key: NodeKey) {
    exists i :: 0 <= i < |open| && open[i] == key
  }

  /** The open nodes are listed breadth first, all before the halves of the first
      one, and every other node comes before them. */
  ghost predicate InOrder(nodes: set<NodeKey>, open: seq<NodeKey>) {
    && (forall i, j :: 0 <= i < j < |open| ==> Before(open[i], open[j]))
    && (forall i :: 0 <= i < |open| ==> Before(open[i], Left(open[0])))
    && (forall key, i :: key in nodes && !IsOpen(open, key) && 0 <= i < |open| ==> Before(key, open[i]))
  }

  lemma {:induction false} PopKeepsOrder(nodes: set<NodeKey>, open: seq<NodeKey>)
    requires InOrder(nodes, open) && open != []
    ensures InOrder(nodes, open[1..])
  {
    var rest := open[1..];
    forall i | 0 <= i < |rest| ensures Before(rest[i], Left(rest[0])) {
      ChildrenFollow(open[0], rest[0], Left(open[0]), Left(rest[0]));
      assert rest[i] == open[i + 1];
      BeforeIsTransitive(rest[i], Left(open[0]), Left(rest[0]));
    }
    forall key, i | key in nodes && !IsOpen(rest, key) && 0 <= i < |rest| ensures Before(key, rest[i]) {
      if key != open[0] {
        ClosedUnlessFirst(open, key);
      }
    }
  }

  /** Every open node comes before the halves of the first, and these before its successor's. */
  lemma {:induction false} RestBeforeHalves(nodes: set<NodeKey>, open: seq<NodeKey>, i: nat)
    requires InOrder(nodes, open) && 0 < i < |open|
    ensures Before(open[i], Left(open[0])) && Before(open[i], Right(open[0]))
    ensures Before(Left(open[0]), Left(open[1])) && Before(Right(open[0]), Left(open[1]))
  {
    BeforeIsTransitive(open[i], Left(open[0]), Right(open[0]));
    ChildrenFollow(open[0], open[1], Left(open[0]), Left(open[1]));
    ChildrenFollow(open[0], open[1], Right(open[0]), Left(open[1]));
  }

  /** The halves of the first open node come after all the others. */
  lemma {:induction false} PushKeepsOrder(nodes: set<NodeKey>, open: seq<NodeKey>)
    requires InOrder(nodes, open) && open != []
    ensures var left, right := Left(open[0]), Right(open[0]);
            InOrder(nodes + {left, right}, open[1..] + [left, right])
  {
    var left, right := Left(open[0]), Right(open[0]);
    var rest := open[1..];
    PopKeepsOrder(nodes, open);
    forall i | 0 <= i < |rest|
      ensures Before(rest[i], left) && Before(rest[i], right)
      ensures Before(left, Left(rest[0])) && Before(right, Left(rest[0]))
    {
      RestBeforeHalves(nodes, open, i + 1);
    }
    forall key | key in nodes && !IsOpen(rest, key) ensures Before(key, left) && Before(key, right) {
      NodeBeforeHalves(nodes, open, key);
    }
    AppendKeepsOrder(nodes, rest, left, right);
  }

  lemma {:induction false} AppendKeepsOrder(nodes: set<NodeKey>, rest: seq<NodeKey>, left: NodeKey, right: NodeKey)
    requires InOrder(nodes, rest) && Before(left, right) && Before(left, Left(left)) && Before(right, Left(left))
    requires forall i :: 0 <= i < |rest| ==> Before(rest[i], left) && Before(rest[i], right)
    requires rest != [] ==> Before(left, Left(rest[0])) && Before(right, Left(rest[0]))
    requires forall key :: key in nodes && !IsOpen(rest, key) ==> Before(key, left) && Before(key, right)
    ensures InOrder(nodes + {left, right}, rest + [left, right])
  {
    var next := rest + [left, right];
    forall key, i | key in nodes + {left, right} && !IsOpen(next, key) && 0 <= i < |next| ensures Before(key, next[i]) {
      NotOpenBefore(rest, left, right, key);
    }
  }

  lemma {:induction false} NotOpenBefore(rest: seq<NodeKey>, left: NodeKey, right: NodeKey, key: NodeKey)
    requires !IsOpen(rest + [left, right], key)
    ensures !IsOpen(rest, key) && key != left && key != right
  {
    var next := rest + [left, right];
    assert next[|rest|] == left && next[|rest| + 1] == right;
    forall i | 0 <= i < |rest| ensures rest[i] != key {
      assert next[i] == rest[i];
    }
  }

  lemma {:induction false} ClosedUnlessFirst(open: seq<NodeKey>, key: NodeKey)
    requires open != [] && !IsOpen(open[1..], key) && key != open[0]
    ensures !IsOpen(open, key)
  {
    forall i | 0 <= i < |open| ensures open[i] != key {
      assert i > 0 ==> open[1..][i - 1] == open[i];
    }
  }

  /** A node that is closed or first comes before the halves of the first open node. */
  lemma {:induction false} NodeBeforeHalves(nodes: set<NodeKey>, open: seq<NodeKey>, key: NodeKey)
    requires InOrder(nodes, open) && open != [] && key in nodes && !IsOpen(open[1..], key)
    ensures Before(key, Left(open[0])) && Before(key, Right(open[0]))
  {
    var left, right := Left(open[0]), Right(open[0]);
    if key != open[0] {
      ClosedUnlessFirst(open, key);
      BeforeIsTransitive(key, open[0], left);
      BeforeIsTransitive(key, open[0], right);
    }
  }

  ghost predicate Ordered(st: RefineState) {
    InOrder(st.tree.nodes.Keys, WorkKeys(st.work))
  }

  /** Every visit keeps the order. */
  lemma {:induction false} StepKeepsOrder(r: Refiner, st: RefineState)
    requires Sane(r, st) && st.work != [] && Step(r, st).Ok? && Ordered(st)
    ensures Ordered(Step(r, st).value)
  {
    var next, open := Step(r, st).value, WorkKeys(st.work);
    var key := st.work[0].key;
    assert WorkKeys(Popped(st).work) == open[1..];
    if next.tree == st.tree {
      SameTreePops(r, st);
      PopKeepsOrder(st.tree.nodes.Keys, open);
    } else {
      assert next.tree == Bisected(st.tree, key);
      assert WorkKeys(next.work) == open[1..] + [Left(key), Right(key)];
      assert next.tree.nodes.Keys == st.tree.nodes.Keys + {Left(key), Right(key)};
      PushKeepsOrder(st.tree.nodes.Keys, open);
    }
  }

  /** A visit that leaves the tree alone closes the node. */
  lemma {:induction false} SameTreePops(r: Refiner, st: RefineState)
    requires Sane(r, st) && st.work != [] && Step(r, st).Ok? && Step(r, st).value.tree == st.tree
    ensures Step(r, st).value.work == Popped(st).work
  {
    BisectLeaves(st.tree, st.work[0].key);
  }

  lemma {:induction false} InitialOrder(r: Refiner, root: Box, tree: LectTree)
    requires Create(root, r.options.minimumNormalizedWidth) == Ok(tree)
    ensures Ordered(InitialState(tree, r.samples))
  {
    var open := WorkKeys(InitialState(tree, r.samples).work);
    assert |open| == 1 && open[0] == Root;
  }

  // ----- the nodes there are at a visit

  /** The node exists when `visit` is visited: its parent was visited before. */
  predicate MadeBefore(key: NodeKey, visit: NodeKey) {
    key.Root? || Before(key.parent, visit)
  }

  /** At a visit, the nodes are those reached whose parents come before it. */
  lemma {:induction false} NodesAtVisit(r: Refiner, root: Box, st: RefineState, key: NodeKey)
    requires SetUp(r, root) && Refining(r, st) && TreeExact(r, root, st.tree) && Ordered(st) && st.work != []
    ensures key in st.tree.nodes <==> Reached(r, root, key) && MadeBefore(key, st.work[0].key)
    decreases key
  {
    var open := WorkKeys(st.work);
    assert open[0] == st.work[0].key;
    if key in st.tree.nodes {
      NodeIsReached(r, root, st.tree, key);
      if !key.Root? {
        assert NodeOk(st.tree, key);
        BranchIsClosed(r, st, key.parent);
      }
    }
    if !key.Root? && Reached(r, root, key) && Before(key.parent, open[0]) {
      if !key.parent.Root? {
        BeforeIsTransitive(key.parent.parent, key.parent, open[0]);
      }
      NodesAtVisit(r, root, st, key.parent);
      EarlierIsBranch(r, root, st, key.parent);
      assert NodeOk(st.tree, key.parent);
    }
  }

  lemma {:induction false} BranchIsClosed(r: Refiner, st: RefineState, key: NodeKey)
    requires Sane(r, st) && key in st.tree.nodes && !st.tree.nodes[key].leaf
    ensures !IsOpen(WorkKeys(st.work), key)
  {
    forall i | 0 <= i < |st.work| ensures WorkKeys(st.work)[i] != key {
      assert st.work[i].key in Leaves(st.tree);
    }
  }

  /** A divisible node that comes before the visit was bisected. */
  lemma {:induction false} EarlierIsBranch(r: Refiner, root: Box, st: RefineState, key: NodeKey)
    requires SetUp(r, root) && Refining(r, st) && TreeExact(r, root, st.tree) && Ordered(st) && st.work != []
    requires key in st.tree.nodes && Divisible(r, root, key) && Before(key, st.work[0].key)
    ensures !st.tree.nodes[key].leaf
  {
    var open := WorkKeys(st.work);
    BeforeIsStrict(key, open[0]);
    if st.tree.nodes[key].leaf {
      forall i | 0 <= i < |st.work| ensures st.work[i].key != key {
        assert open[i] == st.work[i].key;
        if i > 0 {
          BeforeIsStrict(open[0], open[i]);
        }
      }
      ClosedIsNotDivisible(r, root, st, key);
    }
  }

  ghost function NodesBefore(keys: set<NodeKey>, visit: NodeKey): set<NodeKey> {
    set key | key in keys && MadeBefore(key, visit)
  }

  lemma {:induction false} CountAtVisit(r: Refiner, root: Box, st: RefineState, keys: set<NodeKey>)
    requires SetUp(r, root) && Refining(r, st) && TreeExact(r, root, st.tree) && Ordered(st) && st.work != []
    requires AllReached(r, root, keys)
    ensures |st.tree.nodes| == |NodesBefore(keys, st.work[0].key)|
  {
    forall key ensures key in st.tree.nodes <==> key in NodesBefore(keys, st.work[0].key) {
      NodesAtVisit(r, root, st, key);
    }
    assert st.tree.nodes.Keys == NodesBefore(keys, st.work[0].key);
    assert |st.tree.nodes| == |st.tree.nodes.Keys|;
  }

  // ----- within the budget

  /** The node could be bisected but for its width. */
  ghost predicate Stubborn(r: Refiner, root: Box, key: NodeKey)
    requires SetUp(r, root)
  {
    && Reached(r, root, key) && !Divisible(r, root, key) && key.Depth() < r.options.maximumDepth
    && (exists i :: 0 <= i < |r.samples| && Passes(root, r.samples[i], key))
    && r.validate(BoxOf(root, key)).Ok? && r.validate(BoxOf(root, key)).value.disposition == Undetermined
  }

  /** The budget has room for the nodes, and at every stubborn node for two more
      than there are by then: the budget is checked before the width is. */
  ghost predicate Fits(r: Refiner, root: Box, keys: set<NodeKey>)
    requires SetUp(r, root)
  {
    && |keys| <= r.options.maximumNodes
    && forall key :: Stubborn(r, root, key) ==> |NodesBefore(keys, key)| + 2 <= r.options.maximumNodes
  }

  /** The halves of a leaf worth bisecting are validated, if there are any. */
  lemma {:induction false} HalvesAreValidated(r: Refiner, root: Box, st: RefineState, item: WorkItem,
                                              keys: set<NodeKey>)
    requires SetUp(r, root) && Refining(r, st) && TreeExact(r, root, st.tree) && st.work != [] && item == st.work[0]
    requires AllReached(r, root, keys) && Undisturbed(r, root, keys) && Worthwhile(r, root, item)
    requires !Unsplittable(root, r.options.minimumNormalizedWidth, BoxOf(root, item.key))
    ensures r.validate(BoxOf(root, Left(item.key))).Ok? && r.validate(BoxOf(root, Right(item.key))).Ok?
  {
    assert NodeExact(r, root, st.tree, item.key) && ItemOk(r, st.tree, item);
    ItemIsSampled(r, root, st.tree, item);
    NodeIsReached(r, root, st.tree, item.key);
    HalvesValidated(r, root, keys, item.key);
  }

  /** The item asks for its box to be bisected. */
  ghost predicate Worthwhile(r: Refiner, root: Box, item: WorkItem)
    requires SetUp(r, root)
  {
    && item.samples != [] && item.key.Depth() < r.options.maximumDepth
    && r.validate(BoxOf(root, item.key)).Ok? && r.validate(BoxOf(root, item.key)).value.disposition == Undetermined
  }

  lemma {:induction false} VisitUndisturbed(r: Refiner, root: Box, st: RefineState, keys: set<NodeKey>)
    requires SetUp(r, root) && Refining(r, st) && TreeExact(r, root, st.tree) && st.work != []
    requires AllReached(r, root, keys) && Undisturbed(r, root, keys)
    ensures !r.cancelled(st.visited) && st.tree.nodes[st.work[0].key].box == BoxOf(root, st.work[0].key)
    ensures ValidationOf(r, st.work[0], BoxOf(root, st.work[0].key)) == r.validate(BoxOf(root, st.work[0].key))
    ensures r.validate(BoxOf(root, st.work[0].key)).Ok?
  {
    NodesWithin(r, root, st, keys);
    assert NodeExact(r, root, st.tree, st.work[0].key) && ItemOk(r, st.tree, st.work[0]);
  }

  /** Undisturbed visits fail for lack of nodes only. */
  lemma {:induction false} StepFailsForBudget(r: Refiner, root: Box, st: RefineState, keys: set<NodeKey>)
    requires SetUp(r, root) && Refining(r, st) && TreeExact(r, root, st.tree) && st.work != []
    requires AllReached(r, root, keys) && Undisturbed(r, root, keys) && Step(r, st).Err?
    ensures Step(r, st) == Err(ResourceLimit)
    ensures |st.tree.nodes| + 2 > r.options.maximumNodes && Worthwhile(r, root, st.work[0])
  {
    var item := st.work[0];
    VisitUndisturbed(r, root, st, keys);
    if Worthwhile(r, root, item) {
      if !Unsplittable(root, r.options.minimumNormalizedWidth, BoxOf(root, item.key)) {
        HalvesAreValidated(r, root, st, item, keys);
      }
      SplitItemSucceeds(r, root, Popped(st), item);
    }
  }

  /** Within the budget no visit fails. */
  lemma {:induction false} StepSucceeds(r: Refiner, root: Box, st: RefineState, keys: set<NodeKey>)
    requires SetUp(r, root) && Refining(r, st) && TreeExact(r, root, st.tree) && Ordered(st) && st.work != []
    requires AllReached(r, root, keys) && Undisturbed(r, root, keys) && Fits(r, root, keys)
    ensures Step(r, st).Ok?
  {
    if Step(r, st).Err? {
      StepFailsForBudget(r, root, st, keys);
      assert ItemOk(r, st.tree, st.work[0]);
      ItemIsSampled(r, root, st.tree, st.work[0]);
      RoomToBisect(r, root, st, keys);
    }
  }

  lemma {:induction false} SplitItemSucceeds(r: Refiner, root: Box, st: RefineState, item: WorkItem)
    requires SetUp(r, root) && WellFormed(st.tree) && TreeExact(r, root, st.tree) && item.key in Leaves(st.tree)
    requires KnownSamples(r, item.samples)
    requires !Unsplittable(root, r.options.minimumNormalizedWidth, BoxOf(root, item.key)) ==>
               r.validate(BoxOf(root, Left(item.key))).Ok? && r.validate(BoxOf(root, Right(item.key))).Ok?
    ensures SplitItem(r, st, item).Ok?
  {
    assert NodeExact(r, root, st.tree, item.key);
  }

  lemma {:induction false} HalvesValidated(r: Refiner, root: Box, keys: set<NodeKey>, key: NodeKey)
    requires SetUp(r, root) && AllReached(r, root, keys) && Undisturbed(r, root, keys)
    requires Reached(r, root, key) && Divisible(r, root, key)
    ensures r.validate(BoxOf(root, Left(key))).Ok? && r.validate(BoxOf(root, Right(key))).Ok?
  {
    assert Reached(r, root, Left(key)) && Reached(r, root, Right(key));
    assert Left(key) in keys && Right(key) in keys;
  }

  /** A divisible leaf leaves two nodes to be reached. */
  lemma {:induction false} RoomForHalves(r: Refiner, root: Box, st: RefineState, keys: set<NodeKey>, key: NodeKey)
    requires SetUp(r, root) && Refining(r, st) && TreeExact(r, root, st.tree) && AllReached(r, root, keys)
    requires key in Leaves(st.tree) && Divisible(r, root, key)
    ensures |st.tree.nodes| + 2 <= |keys|
  {
    NodesWithin(r, root, st, keys);
    NodeIsReached(r, root, st.tree, key);
    BisectLeaves(st.tree, key);
    assert Reached(r, root, Left(key)) && Reached(r, root, Right(key));
    TwoMore(st.tree.nodes.Keys, Left(key), Right(key), keys);
  }

  lemma {:induction false} TwoMore(nodes: set<NodeKey>, a: NodeKey, b: NodeKey, keys: set<NodeKey>)
    requires nodes <= keys && a in keys && b in keys && a != b && a !in nodes && b !in nodes
    ensures |nodes| + 2 <= |keys|
  {
    SubsetSize(nodes + {a, b}, keys);
    assert |nodes + {a, b}| == |nodes| + 2;
  }

  lemma {:induction false} RoomToBisect(r: Refiner, root: Box, st: RefineState, keys: set<NodeKey>)
    requires SetUp(r, root) && Refining(r, st) && TreeExact(r, root, st.tree) && Ordered(st) && st.work != []
    requires AllReached(r, root, keys) && Fits(r, root, keys) && st.work[0].key.Depth() < r.options.maximumDepth
    requires var validation := r.validate(BoxOf(root, st.work[0].key));
             validation.Ok? && validation.value.disposition == Undetermined
    requires exists i :: 0 <= i < |r.samples| && Passes(root, r.samples[i], st.work[0].key)
    ensures |st.tree.nodes| + 2 <= r.options.maximumNodes
  {
    var key := st.work[0].key;
    if Divisible(r, root, key) {
      RoomForHalves(r, root, st, keys, key);
    } else {
      NodeIsReached(r, root, st.tree, key);
      CountAtVisit(r, root, st, keys);
      assert Stubborn(r, root, key);
    }
  }

  lemma {:induction false} RunSucceeds(r: Refiner, root: Box, st: RefineState, keys: set<NodeKey>)
    requires SetUp(r, root) && Refining(r, st) && TreeExact(r, root, st.tree) && Ordered(st)
    requires AllReached(r, root, keys) && Undisturbed(r, root, keys) && Fits(r, root, keys)
    ensures Run(r, st).Ok?
    decreases r.options.maximumNodes - |st.tree.nodes|, |st.work|
  {
    if st.work != [] {
      StepSucceeds(r, root, st, keys);
      StepSane(r, st);
      StepKeeps(r, st);
      StepKeepsExact(r, root, st);
      StepKeepsOrder(r, st);
      RunSucceeds(r, root, Step(r, st).value, keys);
    }
  }

  /** Undisturbed refinements fail for lack of nodes only. */
  lemma {:induction false} RunFailsForBudget(r: Refiner, root: Box, st: RefineState, keys: set<NodeKey>)
    requires SetUp(r, root) && Refining(r, st) && TreeExact(r, root, st.tree)
    requires AllReached(r, root, keys) && Undisturbed(r, root, keys) && Run(r, st).Err?
    ensures Run(r, st) == Err(ResourceLimit)
    decreases r.options.maximumNodes - |st.tree.nodes|, |st.work|
  {
    if Step(r, st).Err? {
      StepFailsForBudget(r, root, st, keys);
    } else {
      StepSane(r, st);
      StepKeeps(r, st);
      StepKeepsExact(r, root, st);
      RunFailsForBudget(r, root, Step(r, st).value, keys);
    }
  }

  // ----- and only then

  /** The node is yet to be visited. */
  ghost predicate ToVisit(st: RefineState, key: NodeKey) {
    key in st.tree.nodes ==> IsOpen(WorkKeys(st.work), key)
  }

  lemma {:induction false} StaysToVisit(r: Refiner, st: RefineState, key: NodeKey)
    requires Sane(r, st) && st.work != [] && Step(r, st).Ok? && ToVisit(st, key) && key != st.work[0].key
    ensures ToVisit(Step(r, st).value, key)
  {
    var next, open := Step(r, st).value, WorkKeys(st.work);
    assert WorkKeys(Popped(st).work) == open[1..];
    if next.tree == st.tree {
      SameTreePops(r, st);
      if key in st.tree.nodes {
        var i :| 0 <= i < |open| && open[i] == key;
        assert open[1..][i - 1] == key;
      }
    } else {
      var left, right := Left(open[0]), Right(open[0]);
      var after := WorkKeys(next.work);
      assert after == open[1..] + [left, right];
      assert after[|open| - 1] == left && after[|open|] == right;
      if key in st.tree.nodes {
        var i :| 0 <= i < |open| && open[i] == key;
        assert after[i - 1] == key;
      }
    }
  }

  /** Visiting a stubborn node needs room for two nodes more. */
  lemma {:induction false} StubbornNeedsRoom(r: Refiner, root: Box, st: RefineState)
    requires SetUp(r, root) && Refining(r, st) && TreeExact(r, root, st.tree) && st.work != [] && Step(r, st).Ok?
    requires Stubborn(r, root, st.work[0].key)
    ensures |st.tree.nodes| + 2 <= r.options.maximumNodes
  {
    var item := st.work[0];
    assert NodeExact(r, root, st.tree, item.key) && ItemOk(r, st.tree, item);
    var i :| 0 <= i < |r.samples| && Passes(root, r.samples[i], item.key);
    DescendsIffPasses(r, root, st.tree, r.samples[i], item.key);
    assert Holds(r, st.tree, item.key, i);
  }

  lemma {:induction false} SuccessHasRoom(r: Refiner, root: Box, st: RefineState, keys: set<NodeKey>, key: NodeKey)
    requires SetUp(r, root) && Refining(r, st) && TreeExact(r, root, st.tree) && Ordered(st) && Run(r, st).Ok?
    requires AllReached(r, root, keys) && Stubborn(r, root, key) && ToVisit(st, key)
    ensures |NodesBefore(keys, key)| + 2 <= r.options.maximumNodes
    decreases r.options.maximumNodes - |st.tree.nodes|, |st.work|
  {
    if st.work == [] {
      TreeIsReached(r, root, st, key);
    } else if st.work[0].key == key {
      StubbornNeedsRoom(r, root, st);
      CountAtVisit(r, root, st, keys);
    } else {
      StepSane(r, st);
      StepKeeps(r, st);
      StepKeepsExact(r, root, st);
      StepKeepsOrder(r, st);
      StaysToVisit(r, st, key);
      SuccessHasRoom(r, root, Step(r, st).value, keys, key);
    }
  }

  /** A refinement succeeds exactly when the nodes reached fit the budget, are
      validated without failure, and no visit is cancelled; if only the budget is
      missing it fails with that. */
  lemma {:induction false} SucceedsIffWithinBudget(r: Refiner, root: Box, tree: LectTree)
    requires SetUp(r, root) && Create(root, r.options.minimumNormalizedWidth) == Ok(tree)
    requires r.samples != [] && r.options.maximumNodes >= 1 && Sane(r, InitialState(tree, r.samples))
    ensures Run(r, InitialState(tree, r.samples)).Ok? <==>
              exists keys :: AllReached(r, root, keys) && Undisturbed(r, root, keys) && Fits(r, root, keys)
    ensures forall keys :: AllReached(r, root, keys) && Undisturbed(r, root, keys) && !Fits(r, root, keys) ==>
                             Run(r, InitialState(tree, r.samples)) == Err(ResourceLimit)
  {
    var start := InitialState(tree, r.samples);
    InitialRefining(r, root, tree);
    InitialExact(r, root, tree);
    InitialOrder(r, root, tree);
    forall keys | AllReached(r, root, keys) && Undisturbed(r, root, keys) && Fits(r, root, keys)
      ensures Run(r, start).Ok?
    {
      RunSucceeds(r, root, start, keys);
    }
    if Run(r, start).Ok? {
      var keys := SuccessIsWithinBudget(r, root, tree);
      forall key | Stubborn(r, root, key) ensures |NodesBefore(keys, key)| + 2 <= r.options.maximumNodes {
        assert WorkKeys(start.work)[0] == Root;
        SuccessHasRoom(r, root, start, keys, key);
      }
    }
    forall keys | AllReached(r, root, keys) && Undisturbed(r, root, keys) && !Fits(r, root, keys)
      ensures Run(r, start) == Err(ResourceLimit)
    {
      if Run(r, start).Err? {
        RunFailsForBudget(r, root, start, keys);
      } else {
        SameReached(r, root, keys);
      }
    }
  }

  /** Only one set holds exactly the nodes reached. */
  lemma {:induction false} SameReached(r: Refiner, root: Box, keys: set<NodeKey>)
    requires SetUp(r, root) && AllReached(r, root, keys)
    ensures forall other :: AllReached(r, root, other) ==> other == keys
  {
  }
}
