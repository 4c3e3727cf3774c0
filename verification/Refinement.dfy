/** The work-list refinement of the configuration domain: boxes are certified,
    left unresolved, or bisected while they still hold samples. */
module Refinement {
  import opened Support
  import opened Sequences
  import opened Boxes
  import opened Certificates
  import opened Lect

  datatype BuildOptions = BuildOptions(
    maximumDepth: nat,
    maximumNodes: U64,
    minimumNormalizedWidth: real,
    adjacencyTolerance: real,
    obstaclePadding: real,
    threads: int)

  /** A leaf to visit, the samples that descend to it, and its validation when
      a parallel split already computed it. */
  datatype WorkItem = WorkItem(key: NodeKey, samples: seq<nat>, maySplit: bool, cached: Option<RegionValidation>)

  datatype PendingRegion = PendingRegion(bounds: Box, source: NodeKey, clearance: real, envelope: Envelope)

  datatype RepairDomain = RepairDomain(id: U64, bounds: Box, source: NodeKey)

  /** What a refinement reads: the validator, the samples, the options, and the
      answer of the cancellation token at each visit. */
  datatype Refiner = Refiner(validate: Validator, samples: seq<Point>, options: BuildOptions, cancelled: nat -> bool)

  datatype RefineState = RefineState(
    tree: LectTree,
    work: seq<WorkItem>,
    pending: seq<PendingRegion>,
    unresolved: seq<RepairDomain>,
    visited: nat)

  // ----- one visit

  /** Every item is a leaf, lists known samples, and the node budget was respected. */
  ghost predicate Sane(r: Refiner, st: RefineState) {
    && WellFormed(st.tree)
    && |st.tree.nodes| <= r.options.maximumNodes
    && (forall i :: 0 <= i < |r.samples| ==> |r.samples[i]| == |st.tree.root|)
    && (forall i :: 0 <= i < |st.work| ==> st.work[i].key in Leaves(st.tree))
    && (forall i, j :: 0 <= i < j < |st.work| ==> st.work[i].key != st.work[j].key)
    && (forall i :: 0 <= i < |st.work| ==> KnownSamples(r, st.work[i].samples))
  }

  predicate KnownSamples(r: Refiner, list: seq<nat>) {
    forall k :: 0 <= k < |list| ==> list[k] < |r.samples|
  }

  function ValidationOf(r: Refiner, item: WorkItem, box: Box): Result<RegionValidation> {
    if item.cached.Some? then Ok(item.cached.value) else r.validate(box)
  }

  /** The listed samples on the given side of the bisected box, in list order. */
  function Side(r: Refiner, box: Box, d: nat, list: seq<nat>, left: bool): (side: seq<nat>)
    requires d < |box| && KnownSamples(r, list) && forall i :: 0 <= i < |r.samples| ==> |r.samples[i]| == |box|
    ensures KnownSamples(r, side)
  {
    if list == [] then []
    else
      var before := Side(r, box, d, list[..|list| - 1], left);
      if GoesLeft(box, d, r.samples[Last(list)]) == left then before + [Last(list)] else before
  }

  /** With several threads a split validates both halves at once and caches the answers. */
  function HalfCache(r: Refiner, box: Box): Result<Option<RegionValidation>> {
    if r.options.threads > 1 then
      var validation :- r.validate(box);
      Ok(Some(validation))
    else
      Ok(None)
  }

  function GivenUp(st: RefineState, box: Box, key: NodeKey): RefineState {
    st.(unresolved := st.unresolved + [RepairDomain(0, box, key)])
  }

  /** The current leaf removed from the work list and counted as visited. */
  function Popped(st: RefineState): RefineState
    requires st.work != []
  {
    st.(work := st.work[1..], visited := st.visited + 1)
  }

  ghost function SplitItem(r: Refiner, st: RefineState, current: WorkItem): Result<RefineState>
    requires WellFormed(st.tree) && current.key in Leaves(st.tree) && KnownSamples(r, current.samples)
    requires forall i :: 0 <= i < |r.samples| ==> |r.samples[i]| == |st.tree.root|
  {
    var box := st.tree.nodes[current.key].box;
    match Split(st.tree, current.key)
    case Err(code) => if code == ResourceLimit then Ok(GivenUp(st, box, current.key)) else Err(code)
    case Ok(tree) =>
      var d := LongestAxis(tree.root, box, |tree.root|);
      var left := Side(r, box, d, current.samples, true);
      var right := Side(r, box, d, current.samples, false);
      var leftCache :- HalfCache(r, LeftHalf(box, d));
      var rightCache :- HalfCache(r, RightHalf(box, d));
      Ok(st.(tree := tree,
             work := st.work + [WorkItem(Left(current.key), left, left != [], leftCache),
                                WorkItem(Right(current.key), right, right != [], rightCache)]))
  }

  ghost function Step(r: Refiner, st: RefineState): Result<RefineState>
    requires Sane(r, st) && st.work != []
  {
    var current := st.work[0];
    var box := st.tree.nodes[current.key].box;
    var rest := Popped(st);
    if r.cancelled(st.visited) then Err(Cancelled) else
    var validation :- ValidationOf(r, current, box);
    if validation.disposition == CertifiedFree then
      Ok(rest.(pending := rest.pending + [PendingRegion(box, current.key, validation.clearance, validation.envelope)]))
    else if !current.maySplit || current.samples == [] || current.key.Depth() >= r.options.maximumDepth then
      Ok(GivenUp(rest, box, current.key))
    else if |st.tree.nodes| + 2 > r.options.maximumNodes then
      Err(ResourceLimit)
    else
      SplitItem(r, rest, current)
  }

  lemma {:induction false} PoppedSane(r: Refiner, st: RefineState)
    requires Sane(r, st) && st.work != []
    ensures Sane(r, Popped(st))
    ensures forall i :: 0 <= i < |Popped(st).work| ==> Popped(st).work[i].key != st.work[0].key
  {
    assert forall i :: 0 <= i < |Popped(st).work| ==> Popped(st).work[i] == st.work[i + 1];
  }

  lemma {:induction false} SplitSane(r: Refiner, st: RefineState, current: WorkItem)
    requires Sane(r, st) && current.key in Leaves(st.tree) && KnownSamples(r, current.samples)
    requires forall i :: 0 <= i < |st.work| ==> st.work[i].key != current.key
    requires |st.tree.nodes| + 2 <= r.options.maximumNodes
    requires SplitItem(r, st, current).Ok?
    ensures Sane(r, SplitItem(r, st, current).value)
  {
    if Split(st.tree, current.key).Ok? {
      BisectWellFormed(st.tree, current.key);
      BisectLeaves(st.tree, current.key);
      var next := SplitItem(r, st, current).value;
      forall i | 0 <= i < |next.work|
        ensures next.work[i].key in Leaves(next.tree) && KnownSamples(r, next.work[i].samples)
      {
        if i < |st.work| {
          assert next.work[i] == st.work[i];
        }
      }
      forall i, j | 0 <= i < j < |next.work| ensures next.work[i].key != next.work[j].key {
        if i < |st.work| {
          assert next.work[i] == st.work[i];
          assert next.work[i].key in st.tree.nodes;
        }
        if j < |st.work| {
          assert next.work[j] == st.work[j];
        }
      }
    }
  }

  lemma {:induction false} StepSane(r: Refiner, st: RefineState)
    requires Sane(r, st) && st.work != [] && Step(r, st).Ok?
    ensures Sane(r, Step(r, st).value)
    ensures |Step(r, st).value.tree.nodes| >= |st.tree.nodes|
    ensures |Step(r, st).value.tree.nodes| > |st.tree.nodes| || |Step(r, st).value.work| < |st.work|
  {
    PoppedSane(r, st);
    var current := st.work[0];
    var validation := ValidationOf(r, current, st.tree.nodes[current.key].box).value;
    if || validation.disposition == CertifiedFree
       || !current.maySplit || current.samples == [] || current.key.Depth() >= r.options.maximumDepth {
    } else {
      SplitSane(r, Popped(st), current);
      BisectLeaves(st.tree, current.key);
    }
  }

  lemma {:induction false} StepKeepsRoot(r: Refiner, st: RefineState)
    requires Sane(r, st) && st.work != [] && Step(r, st).Ok?
    ensures Step(r, st).value.tree.root == st.tree.root
    ensures Step(r, st).value.tree.minimumWidth == st.tree.minimumWidth
  {
  }

  /** The whole refinement, visit by visit. */
  ghost function Run(r: Refiner, st: RefineState): Result<RefineState>
    requires Sane(r, st)
    decreases r.options.maximumNodes - |st.tree.nodes|, |st.work|
  {
    if st.work == [] then Ok(st)
    else
      match Step(r, st)
      case Err(code) => Err(code)
      case Ok(next) =>
        StepSane(r, st);
        Run(r, next)
  }

  // ----- the loop

  method ShareSamples(r: Refiner, box: Box, d: nat, list: seq<nat>) returns (left: seq<nat>, right: seq<nat>)
    requires d < |box| && KnownSamples(r, list) && forall i :: 0 <= i < |r.samples| ==> |r.samples[i]| == |box|
    ensures left == Side(r, box, d, list, true) && right == Side(r, box, d, list, false)
  {
    left, right := [], [];
    for k := 0 to |list|
      invariant left == Side(r, box, d, list[..k], true) && right == Side(r, box, d, list[..k], false)
    {
      assert list[..k + 1][..k] == list[..k];
      if r.samples[list[k]][d] <= box[d].Center() {
        left := left + [list[k]];
      } else {
        right := right + [list[k]];
      }
    }
    assert list[..|list|] == list;
  }

  /** Bisects the current leaf, or leaves it unresolved when the tree refuses. */
  method Bisect(r: Refiner, st: RefineState, current: WorkItem) returns (next: Result<RefineState>)
    requires WellFormed(st.tree) && current.key in Leaves(st.tree) && KnownSamples(r, current.samples)
    requires forall i :: 0 <= i < |r.samples| ==> |r.samples[i]| == |st.tree.root|
    ensures next == SplitItem(r, st, current)
  {
    var box := st.tree.nodes[current.key].box;
    var children := Split(st.tree, current.key);
    if children.Err? {
      if children.code == ResourceLimit {
        return Ok(GivenUp(st, box, current.key));
      }
      return Err(children.code);
    }
    var tree := children.value;
    var left, right := ShareSamples(r, box, tree.nodes[current.key].splitDimension, current.samples);
    var leftValidation: Option<RegionValidation>, rightValidation: Option<RegionValidation> := None, None;
    if r.options.threads > 1 {
      var leftResult := r.validate(tree.nodes[Left(current.key)].box);
      var rightResult := r.validate(tree.nodes[Right(current.key)].box);
      if leftResult.Err? {
        return Err(leftResult.code);
      }
      if rightResult.Err? {
        return Err(rightResult.code);
      }
      leftValidation, rightValidation := Some(leftResult.value), Some(rightResult.value);
    }
    next := Ok(st.(tree := tree,
                   work := st.work + [WorkItem(Left(current.key), left, left != [], leftValidation),
                                      WorkItem(Right(current.key), right, right != [], rightValidation)]));
  }

  /** Drains the work list. The result is the specified run. */
  method Refine(r: Refiner, start: RefineState) returns (result: Result<RefineState>)
    requires Sane(r, start)
    ensures result == Run(r, start)
  {
    var st := start;
    while st.work != []
      invariant Sane(r, st) && Run(r, start) == Run(r, st)
      decreases r.options.maximumNodes - |st.tree.nodes|, |st.work|
    {
      ghost var before := st;
      if r.cancelled(st.visited) {
        return Err(Cancelled);
      }
      var current := st.work[0];
      st := st.(work := st.work[1..], visited := st.visited + 1);
      var box := st.tree.nodes[current.key].box;
      var validation := ValidationOf(r, current, box);
      if validation.Err? {
        return Err(validation.code);
      }
      if validation.value.disposition == CertifiedFree {
        st := st.(pending := st.pending + [PendingRegion(box, current.key, validation.value.clearance,
                                                         validation.value.envelope)]);
      } else if !current.maySplit || current.samples == [] || current.key.Depth() >= r.options.maximumDepth {
        st := GivenUp(st, box, current.key);
      } else {
        if |st.tree.nodes| + 2 > r.options.maximumNodes {
          return Err(ResourceLimit);
        }
        var next := Bisect(r, st, current);
        if next.Err? {
          return next;
        }
        st := next.value;
      }
      StepSane(r, before);
    }
    result := Ok(st);
  }
}
