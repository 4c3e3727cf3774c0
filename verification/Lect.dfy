/** The binary partition tree of the configuration domain: nodes keyed by their
    split path, longest-normalized-axis bisection, and refusal to split below
    the minimum width. */
module Lect {
  import opened Support
  import opened Sequences
  import opened Boxes

  /** The splits from the root to a node. */
  datatype NodeKey = Root | Left(parent: NodeKey) | Right(parent: NodeKey) {
    function Depth(): nat {
      if Root? then 0 else 1 + parent.Depth()
    }

    /** The stored form: one '0' or '1' a split. */
    function Path(): (path: string)
      ensures |path| == Depth()
    {
      match this
      case Root => ""
      case Left(parent) => parent.Path() + ['0']
      case Right(parent) => parent.Path() + ['1']
    }
  }

  datatype LectNode = LectNode(box: Box, leaf: bool, splitDimension: nat)

  datatype LectTree = LectTree(root: Box, minimumWidth: real, nodes: map<NodeKey, LectNode>)

  predicate CharLess(a: char, b: char) {
    a < b
  }

  /** Keys are ordered by their paths. */
  predicate KeyLe(a: NodeKey, b: NodeKey) {
    LexLe(CharLess, a.Path(), b.Path())
  }

  lemma {:induction false} PathIsInjective(a: NodeKey, b: NodeKey)
    requires a.Path() == b.Path()
    ensures a == b
  {
    if !a.Root? {
      assert Last(a.Path()) == Last(b.Path());
      assert a.Path()[..|a.Path()| - 1] == a.parent.Path() && b.Path()[..|b.Path()| - 1] == b.parent.Path();
      PathIsInjective(a.parent, b.parent);
    }
  }

  lemma {:induction false} KeyOrder()
    ensures TotalPreorder(KeyLe)
    ensures forall a, b :: KeyLe(a, b) && KeyLe(b, a) ==> a == b
  {
    forall a, b ensures KeyLe(a, b) || KeyLe(b, a) {
      LexTotal(CharLess, a.Path(), b.Path());
    }
    forall a, b, c | KeyLe(a, b) && KeyLe(b, c) ensures KeyLe(a, c) {
      LexTransitive(CharLess, a.Path(), b.Path(), c.Path());
    }
    forall a, b | KeyLe(a, b) && KeyLe(b, a) ensures a == b {
      LexAntisymmetric(CharLess, a.Path(), b.Path());
      PathIsInjective(a, b);
    }
  }

  /** Admissible root domains: valid, with positive width on every axis. */
  predicate ValidRoot(root: Box) {
    ValidBox(root) && forall d :: 0 <= d < |root| ==> root[d].Width() > 0.0
  }

  function Create(root: Box, minimumWidth: real): Result<LectTree> {
    if !ValidBox(root) || |root| > 64 then Err(InvalidArgument)
    else if minimumWidth < 0.0 || minimumWidth >= 1.0 then Err(InvalidArgument)
    else if !ValidRoot(root) then Err(InvalidArgument)
    else Ok(LectTree(root, minimumWidth, map[Root := LectNode(root, true, 0)]))
  }

  // ----- bisection

  function NormalizedWidth(root: Box, box: Box, d: nat): real
    requires ValidRoot(root) && |box| == |root| && d < |root|
  {
    box[d].Width() / root[d].Width()
  }

  /** Among the first `n` axes, the first of greatest normalized width. */
  function LongestAxis(root: Box, box: Box, n: nat): (axis: nat)
    requires ValidRoot(root) && |box| == |root| && 0 < n <= |root|
    ensures axis < n
    ensures forall d :: 0 <= d < n ==> NormalizedWidth(root, box, d) <= NormalizedWidth(root, box, axis)
    ensures forall d :: 0 <= d < axis ==> NormalizedWidth(root, box, d) < NormalizedWidth(root, box, axis)
  {
    if n == 1 then 0 else
      var selected := LongestAxis(root, box, n - 1);
      if NormalizedWidth(root, box, n - 1) > NormalizedWidth(root, box, selected) then n - 1 else selected
  }

  function LeftHalf(box: Box, d: nat): Box
    requires d < |box|
  {
    box[d := Interval(box[d].lower, box[d].Center())]
  }

  function RightHalf(box: Box, d: nat): Box
    requires d < |box|
  {
    box[d := Interval(box[d].Center(), box[d].upper)]
  }

  /** Too narrow to bisect, or without a centre strictly inside. */
  predicate Unsplittable(root: Box, minimumWidth: real, box: Box)
    requires ValidRoot(root) && |box| == |root|
  {
    var d := LongestAxis(root, box, |root|);
    || NormalizedWidth(root, box, d) <= minimumWidth
    || !(box[d].lower < box[d].Center() < box[d].upper)
  }

  /** The two halves cover exactly the box, with the centre in both. */
  lemma {:induction false} HalvesCover(box: Box, d: nat, q: Point)
    requires ValidBox(box) && d < |box|
    ensures In(q, box) <==> In(q, LeftHalf(box, d)) || In(q, RightHalf(box, d))
    ensures ValidBox(LeftHalf(box, d)) && ValidBox(RightHalf(box, d))
  {
    var left, right := LeftHalf(box, d), RightHalf(box, d);
    forall i | 0 <= i < |box| ensures left[i].Valid() && right[i].Valid() {
      assert box[i].Valid();
    }
    assert box[d].Valid();
    if In(q, box) {
      assert box[d].Contains(q[d], 0.0);
      if q[d] <= box[d].Center() {
        assert forall i :: 0 <= i < |box| ==> box[i].Contains(q[i], 0.0) ==> left[i].Contains(q[i], 0.0);
      } else {
        assert forall i :: 0 <= i < |box| ==> box[i].Contains(q[i], 0.0) ==> right[i].Contains(q[i], 0.0);
      }
    }
    if In(q, left) {
      forall i | 0 <= i < |box| ensures box[i].Contains(q[i], 0.0) {
        assert left[i].Contains(q[i], 0.0);
      }
    }
    if In(q, right) {
      forall i | 0 <= i < |box| ensures box[i].Contains(q[i], 0.0) {
        assert right[i].Contains(q[i], 0.0);
      }
    }
  }

  // ----- the tree

  /** A node and its place: children exist exactly below branches and halve their parent. */
  ghost predicate NodeOk(tree: LectTree, key: NodeKey)
    requires key in tree.nodes
  {
    var node := tree.nodes[key];
    && ValidBox(node.box) && |node.box| == |tree.root| && node.splitDimension < |tree.root|
    && (node.leaf ==> Left(key) !in tree.nodes && Right(key) !in tree.nodes)
    && (!node.leaf ==> Left(key) in tree.nodes && Right(key) in tree.nodes
                       && tree.nodes[Left(key)].box == LeftHalf(node.box, node.splitDimension)
                       && tree.nodes[Right(key)].box == RightHalf(node.box, node.splitDimension))
    && (key.Root? || (key.parent in tree.nodes && !tree.nodes[key.parent].leaf))
  }

  ghost predicate WellFormed(tree: LectTree) {
    && ValidRoot(tree.root) && 0.0 <= tree.minimumWidth
    && Root in tree.nodes && tree.nodes[Root].box == tree.root
    && (forall key {:trigger tree.nodes[key]} :: key in tree.nodes ==> |tree.nodes[key].box| == |tree.root|)
    && (forall key {:trigger NodeOk(tree, key)} :: key in tree.nodes ==> NodeOk(tree, key))
  }

  function Leaves(tree: LectTree): set<NodeKey> {
    set key | key in tree.nodes && tree.nodes[key].leaf
  }

  /** `key` bisected: its two halves become leaves. A branch is left alone. */
  function Split(tree: LectTree, key: NodeKey): Result<LectTree>
    requires ValidRoot(tree.root)
    requires key in tree.nodes ==> |tree.nodes[key].box| == |tree.root|
  {
    if key !in tree.nodes then Err(InvalidArgument)
    else if !tree.nodes[key].leaf then Ok(tree)
    else if Unsplittable(tree.root, tree.minimumWidth, tree.nodes[key].box) then Err(ResourceLimit)
    else Ok(Bisected(tree, key))
  }

  function Bisected(tree: LectTree, key: NodeKey): LectTree
    requires ValidRoot(tree.root) && key in tree.nodes && |tree.nodes[key].box| == |tree.root|
  {
    var box := tree.nodes[key].box;
    var d := LongestAxis(tree.root, box, |tree.root|);
    tree.(nodes := tree.nodes[key := LectNode(box, false, d)]
            [Left(key) := LectNode(LeftHalf(box, d), true, 0)]
            [Right(key) := LectNode(RightHalf(box, d), true, 0)])
  }

  /** Bisecting a leaf replaces it among the leaves by its two halves and adds two nodes. */
  lemma {:induction false} BisectLeaves(tree: LectTree, key: NodeKey)
    requires WellFormed(tree) && key in Leaves(tree)
    ensures Leaves(Bisected(tree, key)) == Leaves(tree) - {key} + {Left(key), Right(key)}
    ensures |Bisected(tree, key).nodes| == |tree.nodes| + 2
    ensures Left(key) !in tree.nodes && Right(key) !in tree.nodes
  {
    assert NodeOk(tree, key);
    assert Bisected(tree, key).nodes.Keys == tree.nodes.Keys + {Left(key), Right(key)};
  }

  lemma {:induction false} BisectNodeOk(tree: LectTree, key: NodeKey, k: NodeKey)
    requires WellFormed(tree) && key in Leaves(tree)
    requires k in Bisected(tree, key).nodes
    ensures NodeOk(Bisected(tree, key), k)
  {
    var after := Bisected(tree, key);
    assert NodeOk(tree, key);
    if k in {key, Left(key), Right(key)} {
      var box := tree.nodes[key].box;
      HalvesCover(box, LongestAxis(tree.root, box, |tree.root|), []);
    } else {
      assert NodeOk(tree, k);
    }
    assert Left(k) in tree.nodes ==> NodeOk(tree, Left(k));
    assert Right(k) in tree.nodes ==> NodeOk(tree, Right(k));
  }

  lemma {:induction false} BisectWellFormed(tree: LectTree, key: NodeKey)
    requires WellFormed(tree) && key in Leaves(tree)
    ensures WellFormed(Bisected(tree, key))
  {
    forall k | k in Bisected(tree, key).nodes ensures NodeOk(Bisected(tree, key), k) {
      BisectNodeOk(tree, key, k);
    }
    assert NodeOk(tree, key);
  }

  // ----- coverage

  /** Every configuration of the root domain lies in some leaf box. */
  ghost predicate Covers(tree: LectTree) {
    forall q :: In(q, tree.root) ==> exists key :: key in Leaves(tree) && In(q, tree.nodes[key].box)
  }

  lemma {:induction false} BisectCovers(tree: LectTree, key: NodeKey)
    requires WellFormed(tree) && key in Leaves(tree) && Covers(tree)
    ensures Covers(Bisected(tree, key))
  {
    var after := Bisected(tree, key);
    BisectLeaves(tree, key);
    forall q | In(q, after.root) ensures exists k :: k in Leaves(after) && In(q, after.nodes[k].box) {
      var k :| k in Leaves(tree) && In(q, tree.nodes[k].box);
      if k == key {
        assert NodeOk(tree, key);
        HalvesCover(tree.nodes[key].box, LongestAxis(tree.root, tree.nodes[key].box, |tree.root|), q);
        assert Left(key) in Leaves(after) && Right(key) in Leaves(after);
      } else {
        assert k in Leaves(after) && after.nodes[k] == tree.nodes[k];
      }
    }
  }

  // ----- descent

  /** The rule deciding where a configuration goes: at most the centre goes left. */
  predicate GoesLeft(box: Box, d: nat, q: Point)
    requires d < |box| == |q|
  {
    q[d] <= box[d].Center()
  }

  /** Following that rule from the root, `q` passes through node `key`. */
  ghost predicate Descends(tree: LectTree, q: Point, key: NodeKey)
    decreases key
  {
    key.Root? ||
    (&& Descends(tree, q, key.parent)
     && key.parent in tree.nodes && !tree.nodes[key.parent].leaf
     && tree.nodes[key.parent].splitDimension < |tree.nodes[key.parent].box| == |q|
     && (key.Left? <==> GoesLeft(tree.nodes[key.parent].box, tree.nodes[key.parent].splitDimension, q)))
  }

  /** Bisection changes the descent to no existing node ... */
  lemma {:induction false} BisectKeepsDescent(tree: LectTree, key: NodeKey, q: Point, k: NodeKey)
    requires WellFormed(tree) && key in Leaves(tree) && k in tree.nodes
    ensures Descends(Bisected(tree, key), q, k) == Descends(tree, q, k)
    decreases k
  {
    if !k.Root? {
      assert NodeOk(tree, k);
      assert NodeOk(tree, key);
      BisectKeepsDescent(tree, key, q, k.parent);
    }
  }

  /** ... and sends what reached the bisected leaf on to exactly one half. */
  lemma {:induction false} BisectDescent(tree: LectTree, key: NodeKey, q: Point)
    requires WellFormed(tree) && key in Leaves(tree) && |q| == |tree.root| == |tree.nodes[key].box|
    ensures var left := GoesLeft(tree.nodes[key].box, LongestAxis(tree.root, tree.nodes[key].box, |tree.root|), q);
            && (Descends(Bisected(tree, key), q, Left(key)) <==> Descends(tree, q, key) && left)
            && (Descends(Bisected(tree, key), q, Right(key)) <==> Descends(tree, q, key) && !left)
  {
    BisectKeepsDescent(tree, key, q, key);
    assert NodeOk(tree, key);
  }

  /** A sample within the root up to the tolerance stays within every box it descends through. */
  lemma {:induction false} DescentIsContained(tree: LectTree, q: Point, key: NodeKey, tolerance: real)
    requires WellFormed(tree) && key in tree.nodes && Descends(tree, q, key)
    requires tolerance >= 0.0 && Contains(tree.root, q, tolerance)
    ensures Contains(tree.nodes[key].box, q, tolerance)
    decreases key
  {
    if !key.Root? {
      assert NodeOk(tree, key);
      assert NodeOk(tree, key.parent);
      DescentIsContained(tree, q, key.parent, tolerance);
      var parent := tree.nodes[key.parent];
      forall i | 0 <= i < |parent.box| ensures tree.nodes[key].box[i].Contains(q[i], tolerance) {
        assert parent.box[i].Contains(q[i], tolerance);
      }
    }
  }

  /** No configuration descends to two different leaves. */
  lemma {:induction false} DescentIsUnique(tree: LectTree, q: Point, a: NodeKey, b: NodeKey)
    requires WellFormed(tree) && a in Leaves(tree) && b in Leaves(tree)
    requires Descends(tree, q, a) && Descends(tree, q, b)
    ensures a == b
  {
    if a.Depth() <= b.Depth() {
      SameDescent(tree, q, a, b);
    } else {
      SameDescent(tree, q, b, a);
    }
  }

  /** A leaf on a descent is where the descent ends. */
  lemma {:induction false} SameDescent(tree: LectTree, q: Point, leaf: NodeKey, key: NodeKey)
    requires WellFormed(tree) && leaf in Leaves(tree) && key in tree.nodes
    requires Descends(tree, q, leaf) && Descends(tree, q, key) && leaf.Depth() <= key.Depth()
    ensures leaf == key
  {
    if leaf.Depth() < key.Depth() {
      assert NodeOk(tree, key);
      SameDescent(tree, q, leaf, key.parent);
      assert false;
    } else {
      SameDepthSameNode(tree, q, leaf, key);
    }
  }

  lemma {:induction false} SameDepthSameNode(tree: LectTree, q: Point, a: NodeKey, b: NodeKey)
    requires Descends(tree, q, a) && Descends(tree, q, b) && a.Depth() == b.Depth()
    ensures a == b
  {
    if !a.Root? {
      SameDepthSameNode(tree, q, a.parent, b.parent);
    }
  }
}
