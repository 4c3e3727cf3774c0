/** The number of threads does not change a refinement: eager validation of
    both halves fails exactly when the sequential visits would, and its cached
    answers are the ones the visits would compute. */
module ParallelRefinement {
  import opened Support
  import opened Boxes
  import opened Certificates
  import opened Lect
  import opened Refinement
  import opened RefinementInvariants

  /** The validator fails on the box of the `k`-th item of the work list. */
  ghost predicate Doomed(r: Refiner, st: RefineState, k: nat)
    requires Sane(r, st)
  {
    k < |st.work| && r.validate(st.tree.nodes[st.work[k].key].box).Err?
  }

  lemma {:induction false} SplitKeepsItems(r: Refiner, st: RefineState, current: WorkItem, k: nat)
    requires Sane(r, st) && current.key in Leaves(st.tree) && KnownSamples(r, current.samples)
    requires k < |st.work| && st.work[k].key != current.key && SplitItem(r, st, current).Ok?
    ensures var next := SplitItem(r, st, current).value;
            && k < |next.work| && next.work[k] == st.work[k]
            && next.work[k].key in next.tree.nodes
            && next.tree.nodes[next.work[k].key].box == st.tree.nodes[st.work[k].key].box
  {
    assert NodeOk(st.tree, current.key);
  }

  /** A visit leaves the other items of the work list, and their boxes, alone. */
  lemma {:induction false} StepKeepsItems(r: Refiner, st: RefineState, k: nat)
    requires Sane(r, st) && 0 < k < |st.work| && Step(r, st).Ok?
    ensures var next := Step(r, st).value;
            && k - 1 < |next.work| && next.work[k - 1] == st.work[k]
            && next.work[k - 1].key in next.tree.nodes
            && next.tree.nodes[next.work[k - 1].key].box == st.tree.nodes[st.work[k].key].box
  {
    PoppedSane(r, st);
    assert Popped(st).work[k - 1] == st.work[k];
    var current := st.work[0];
    var validation := ValidationOf(r, current, st.tree.nodes[current.key].box).value;
    if || validation.disposition == CertifiedFree
       || !current.maySplit || current.samples == [] || current.key.Depth() >= r.options.maximumDepth {
    } else {
      SplitKeepsItems(r, Popped(st), current, k - 1);
    }
  }

  /** A validator failure waiting in the work list fails the run. */
  lemma {:induction false} DoomedRunFails(r: Refiner, st: RefineState, k: nat)
    requires Refining(r, st) && Doomed(r, st, k)
    ensures Run(r, st).Err?
    decreases k
  {
    assert ItemOk(r, st.tree, st.work[k]);
    if k > 0 && Step(r, st).Ok? {
      StepSane(r, st);
      StepKeeps(r, st);
      StepKeepsItems(r, st, k);
      DoomedRunFails(r, Step(r, st).value, k - 1);
    }
  }

  /** Equal up to what the work items have cached. */
  ghost predicate SameButCaches(a: RefineState, b: RefineState) {
    && a.tree == b.tree && a.pending == b.pending && a.unresolved == b.unresolved && a.visited == b.visited
    && |a.work| == |b.work|
    && forall i :: 0 <= i < |a.work| ==> a.work[i].(cached := None) == b.work[i].(cached := None)
  }

  function WithThreads(r: Refiner, threads: int): Refiner {
    r.(options := r.options.(threads := threads))
  }

  lemma {:induction false} SideIgnoresThreads(r: Refiner, threads: int, box: Box, d: nat, list: seq<nat>, left: bool)
    requires d < |box| && KnownSamples(r, list) && forall k :: 0 <= k < |r.samples| ==> |r.samples[k]| == |box|
    ensures Side(WithThreads(r, threads), box, d, list, left) == Side(r, box, d, list, left)
  {
    if list != [] {
      SideIgnoresThreads(r, threads, box, d, list[..|list| - 1], left);
    }
  }

  /** Bisecting with eager validation, when it succeeds, agrees with bisecting without. */
  lemma {:induction false} SplitsAgree(r: Refiner, threads: int, a: RefineState, b: RefineState, x: WorkItem,
                                       y: WorkItem)
    requires Sane(r, a) && Sane(r, b) && SameButCaches(a, b) && x.(cached := None) == y.(cached := None)
    requires x.key in Leaves(a.tree) && KnownSamples(r, x.samples)
    requires Sane(WithThreads(r, threads), b)
    requires SplitItem(r, a, x).Ok? && SplitItem(WithThreads(r, threads), b, y).Ok?
    ensures SameButCaches(SplitItem(r, a, x).value, SplitItem(WithThreads(r, threads), b, y).value)
  {
    var box := a.tree.nodes[x.key].box;
    if Split(a.tree, x.key).Ok? {
      SideIgnoresThreads(r, threads, box, LongestAxis(a.tree.root, box, |a.tree.root|), x.samples, true);
      SideIgnoresThreads(r, threads, box, LongestAxis(a.tree.root, box, |a.tree.root|), x.samples, false);
    }
  }

  /** If only one of the two bisections fails, it failed validating a half that
      the other has put on its work list. */
  lemma {:induction false} SplitFailureIsDoom(r: Refiner, threads: int, a: RefineState, b: RefineState, x: WorkItem,
                                              y: WorkItem) returns (k: nat)
    requires Sane(r, a) && Sane(r, b) && SameButCaches(a, b) && x.(cached := None) == y.(cached := None)
    requires x.key in Leaves(a.tree) && KnownSamples(r, x.samples)
    requires Sane(WithThreads(r, threads), b)
    requires SplitItem(r, a, x).Ok? && SplitItem(WithThreads(r, threads), b, y).Err?
    requires Sane(r, SplitItem(r, a, x).value)
    ensures Doomed(r, SplitItem(r, a, x).value, k)
  {
    var box := a.tree.nodes[x.key].box;
    var d := LongestAxis(a.tree.root, box, |a.tree.root|);
    k := if r.validate(LeftHalf(box, d)).Err? then |a.work| else |a.work| + 1;
  }

  lemma {:induction false} StepsAgree(r: Refiner, threads: int, a: RefineState, b: RefineState)
    requires Refining(r, a) && Refining(WithThreads(r, threads), b) && SameButCaches(a, b) && a.work != []
    requires Step(r, a).Ok? && Step(WithThreads(r, threads), b).Ok?
    ensures SameButCaches(Step(r, a).value, Step(WithThreads(r, threads), b).value)
  {
    PoppedSane(r, a);
    PoppedSane(WithThreads(r, threads), b);
    assert ItemOk(r, a.tree, a.work[0]) && ItemOk(WithThreads(r, threads), b.tree, b.work[0]);
    assert a.work[0].(cached := None) == b.work[0].(cached := None);
    SamePopped(a, b);
    var current := a.work[0];
    var validation := ValidationOf(r, current, a.tree.nodes[current.key].box).value;
    if || validation.disposition == CertifiedFree
       || !current.maySplit || current.samples == [] || current.key.Depth() >= r.options.maximumDepth {
    } else {
      SaneWithThreads(r, threads, Popped(b));
      SplitsAgree(r, threads, Popped(a), Popped(b), current, b.work[0]);
    }
  }

  lemma {:induction false} SaneWithThreads(r: Refiner, threads: int, st: RefineState)
    ensures Sane(r, st) <==> Sane(WithThreads(r, threads), st)
  {
    assert forall i :: 0 <= i < |st.work| ==>
           (KnownSamples(r, st.work[i].samples) <==> KnownSamples(WithThreads(r, threads), st.work[i].samples));
  }

  lemma {:induction false} SamePopped(a: RefineState, b: RefineState)
    requires SameButCaches(a, b) && a.work != []
    ensures SameButCaches(Popped(a), Popped(b))
  {
    forall i | 0 <= i < |Popped(a).work|
      ensures Popped(a).work[i].(cached := None) == Popped(b).work[i].(cached := None)
    {
      assert Popped(a).work[i] == a.work[i + 1] && Popped(b).work[i] == b.work[i + 1];
    }
  }

  /** If only one of the two visits fails, the run of the other fails later. */
  lemma {:induction false} StepFailureIsDoom(r: Refiner, threads: int, a: RefineState, b: RefineState)
    requires Refining(r, a) && Refining(WithThreads(r, threads), b) && SameButCaches(a, b) && a.work != []
    requires Step(r, a).Ok? && Step(WithThreads(r, threads), b).Err?
    ensures Run(r, a).Err?
  {
    PoppedSane(r, a);
    PoppedSane(WithThreads(r, threads), b);
    SaneWithThreads(r, threads, Popped(b));
    assert ItemOk(r, a.tree, a.work[0]) && ItemOk(WithThreads(r, threads), b.tree, b.work[0]);
    assert a.work[0].(cached := None) == b.work[0].(cached := None);
    SamePopped(a, b);
    StepSane(r, a);
    StepKeeps(r, a);
    var k := SplitFailureIsDoom(r, threads, Popped(a), Popped(b), a.work[0], b.work[0]);
    DoomedRunFails(r, Step(r, a).value, k);
  }

  /** Refinements of one domain with different numbers of threads succeed
      together and then have the same outcome. */
  lemma {:induction false} ThreadsAgree(r: Refiner, threads: int, a: RefineState, b: RefineState)
    requires Refining(r, a) && Refining(WithThreads(r, threads), b) && SameButCaches(a, b)
    ensures Run(r, a).Ok? <==> Run(WithThreads(r, threads), b).Ok?
    ensures Run(r, a).Ok? ==> Run(r, a) == Run(WithThreads(r, threads), b)
    decreases r.options.maximumNodes - |a.tree.nodes|, |a.work|
  {
    var q := WithThreads(r, threads);
    if a.work != [] {
      if Step(r, a).Ok? && Step(q, b).Ok? {
        StepsAgree(r, threads, a, b);
        StepSane(r, a);
        StepSane(q, b);
        StepKeeps(r, a);
        StepKeeps(q, b);
        ThreadsAgree(r, threads, Step(r, a).value, Step(q, b).value);
      } else if Step(r, a).Ok? {
        StepFailureIsDoom(r, threads, a, b);
      } else if Step(q, b).Ok? {
        assert WithThreads(q, r.options.threads) == r;
        StepFailureIsDoom(q, r.options.threads, b, a);
      }
    }
  }
}
