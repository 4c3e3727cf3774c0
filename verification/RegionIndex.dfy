/** The bounding-box hierarchy over the regions of an atlas, and the two queries
    it answers: the regions that hold a configuration, and the nearest region. */
module RegionIndex {
  import opened Support
  import opened Sequences
  import opened Boxes
  import opened Wilson
  import opened Assembly

  const LEAF_CAPACITY: nat := 8
  const QUERY_TOLERANCE: real := 0.000000000001

  datatype Node = Node(bounds: Box, begin: nat, end: nat, left: nat, right: nat, leaf: bool)

  // ----- distance

  function Gap(x: real, axis: Interval): real {
    if x < axis.lower then axis.lower - x else if x > axis.upper then x - axis.upper else 0.0
  }

  /** The squared distance to a box, over the first `n` axes. */
  function Distance(q: Point, box: Box, n: nat): real
    requires n <= |q| && n <= |box|
  {
    if n == 0 then 0.0 else Distance(q, box, n - 1) + Gap(q[n - 1], box[n - 1]) * Gap(q[n - 1], box[n - 1])
  }

  predicate Inside(inner: Box, outer: Box) {
    |inner| == |outer|
        && forall i :: 0 <= i < |inner| ==> outer[i].lower <= inner[i].lower && inner[i].upper <= outer[i].upper
  }

  lemma {:induction false} SquaresGrow(a: real, b: real)
    requires 0.0 <= a <= b
    ensures a * a <= b * b
  {
    NonNegative(a, b - a);
    NonNegative(b, b - a);
    assert b * b - a * a == b * (b - a) + a * (b - a);
  }

  /** A larger box is no farther away. */
  lemma {:induction false} LargerIsNearer(q: Point, inner: Box, outer: Box, n: nat)
    requires Inside(inner, outer) && |q| == |inner| && n <= |inner| && forall i :: 0 <= i < |inner| ==> inner[i].Valid()
    ensures Distance(q, outer, n) <= Distance(q, inner, n)
  {
    if n > 0 {
      LargerIsNearer(q, inner, outer, n - 1);
      SquaresGrow(Gap(q[n - 1], outer[n - 1]), Gap(q[n - 1], inner[n - 1]));
    }
  }

  // ----- regions in range

  /** Regions the index is built for. */
  predicate Indexable(regions: seq<SafeRegion>, dimension: nat) {
    dimension > 0 && forall i :: 0 <= i < |regions| ==> |regions[i].bounds| == dimension && ValidBox(regions[i].bounds)
  }

  predicate AllIndices(items: seq<nat>, n: nat) {
    forall k :: 0 <= k < |items| ==> items[k] < n
  }

  ghost predicate Encloses(bounds: Box, regions: seq<SafeRegion>, items: seq<nat>)
    requires AllIndices(items, |regions|)
  {
    forall k :: 0 <= k < |items| ==> Inside(regions[items[k]].bounds, bounds)
  }

  function Enclosing(regions: seq<SafeRegion>, items: seq<nat>, dimension: nat): (bounds: Box)
    requires Indexable(regions, dimension) && items != [] && AllIndices(items, |regions|)
    ensures |bounds| == dimension
  {
    if |items| == 1 then regions[items[0]].bounds
    else Hull(Enclosing(regions, items[..|items| - 1], dimension), regions[Last(items)].bounds)
  }

  lemma {:induction false} HullIsLarger(a: Box, b: Box)
    requires |a| == |b|
    ensures Inside(a, Hull(a, b)) && Inside(b, Hull(a, b))
  {
  }

  lemma {:induction false} InsideTransitive(a: Box, b: Box, c: Box)
    requires Inside(a, b) && Inside(b, c)
    ensures Inside(a, c)
  {
  }

  lemma {:induction false} EnclosingEncloses(regions: seq<SafeRegion>, items: seq<nat>, dimension: nat)
    requires Indexable(regions, dimension) && items != [] && AllIndices(items, |regions|)
    ensures Encloses(Enclosing(regions, items, dimension), regions, items)
  {
    var bounds := Enclosing(regions, items, dimension);
    if |items| > 1 {
      var before := items[..|items| - 1];
      EnclosingEncloses(regions, before, dimension);
      HullIsLarger(Enclosing(regions, before, dimension), regions[Last(items)].bounds);
      forall k | 0 <= k < |items| ensures Inside(regions[items[k]].bounds, bounds) {
        if k < |before| {
          assert before[k] == items[k];
          InsideTransitive(regions[items[k]].bounds, Enclosing(regions, before, dimension), bounds);
        }
      }
    }
  }

  lemma {:induction false} EnclosesPermuted(bounds: Box, regions: seq<SafeRegion>, a: seq<nat>, b: seq<nat>)
    requires AllIndices(a, |regions|) && Encloses(bounds, regions, a) && multiset(a) == multiset(b)
    ensures AllIndices(b, |regions|) && Encloses(bounds, regions, b)
  {
    forall k | 0 <= k < |b| ensures b[k] < |regions| && Inside(regions[b[k]].bounds, bounds) {
      assert b[k] in multiset(b) && b[k] in multiset(a) && b[k] in a;
    }
  }

  // ----- the hierarchy

  /** Node `n` spans its slice of the indices, and its children split that slice. */
  ghost predicate TreeOk(regions: seq<SafeRegion>, nodes: seq<Node>, indices: seq<nat>, n: nat)
    decreases |nodes| - n
  {
    && n < |nodes| && AllIndices(indices, |regions|)
    && var node := nodes[n];
    && node.begin < node.end <= |indices|
    && Encloses(node.bounds, regions, indices[node.begin..node.end])
    && (!node.leaf ==>
          && n < node.left < |nodes| && n < node.right < |nodes|
          && nodes[node.left].begin == node.begin && nodes[node.left].end == nodes[node.right].begin
          && nodes[node.right].end == node.end
          && TreeOk(regions, nodes, indices, node.left) && TreeOk(regions, nodes, indices, node.right))
  }

  /** A subtree depends only on its own nodes and its own slice. */
  lemma {:induction false} TreeFrame(regions: seq<SafeRegion>, nodes: seq<Node>, indices: seq<nat>,
                                     moreNodes: seq<Node>, newIndices: seq<nat>, n: nat)
    requires TreeOk(regions, nodes, indices, n) && AllIndices(newIndices, |regions|)
    requires |nodes| <= |moreNodes| && forall m :: n <= m < |nodes| ==> moreNodes[m] == nodes[m]
    requires |newIndices| == |indices| && forall k :: nodes[n].begin <= k < nodes[n].end ==> newIndices[k] == indices[k]
    ensures TreeOk(regions, moreNodes, newIndices, n)
    decreases |nodes| - n
  {
    var node := nodes[n];
    assert newIndices[node.begin..node.end] == indices[node.begin..node.end];
    if !node.leaf {
      TreeFrame(regions, nodes, indices, moreNodes, newIndices, node.left);
      TreeFrame(regions, nodes, indices, moreNodes, newIndices, node.right);
    }
  }

  // ----- the split

  function CenterOf(regions: seq<SafeRegion>, axis: nat, i: nat): real {
    if i < |regions| && axis < |regions[i].bounds| then regions[i].bounds[axis].Center() else 0.0
  }

  function IdOf(regions: seq<SafeRegion>, i: nat): nat {
    if i < |regions| then regions[i].id else 0
  }

  /** By center along the axis, then by id. */
  predicate CenterLe(regions: seq<SafeRegion>, axis: nat, i: nat, j: nat) {
    var a, b := CenterOf(regions, axis, i), CenterOf(regions, axis, j);
    if a != b then a < b else IdOf(regions, i) <= IdOf(regions, j)
  }

  function ByCenter(regions: seq<SafeRegion>, axis: nat): (nat, nat) -> bool {
    (i: nat, j: nat) => CenterLe(regions, axis, i, j)
  }

  lemma {:induction false} CenterOrder(regions: seq<SafeRegion>, axis: nat)
    ensures TotalPreorder(ByCenter(regions, axis))
  {
  }

  function MinimumCenter(regions: seq<SafeRegion>, items: seq<nat>, axis: nat, dimension: nat): real
    requires Indexable(regions, dimension) && items != [] && AllIndices(items, |regions|) && axis < dimension
  {
    var last := regions[Last(items)].bounds[axis].Center();
    if |items| == 1 then last else Min(MinimumCenter(regions, items[..|items| - 1], axis, dimension), last)
  }

  function MaximumCenter(regions: seq<SafeRegion>, items: seq<nat>, axis: nat, dimension: nat): real
    requires Indexable(regions, dimension) && items != [] && AllIndices(items, |regions|) && axis < dimension
  {
    var last := regions[Last(items)].bounds[axis].Center();
    if |items| == 1 then last else Max(MaximumCenter(regions, items[..|items| - 1], axis, dimension), last)
  }

  lemma {:induction false} CentersOrdered(regions: seq<SafeRegion>, items: seq<nat>, axis: nat, dimension: nat)
    requires Indexable(regions, dimension) && items != [] && AllIndices(items, |regions|) && axis < dimension
    ensures MinimumCenter(regions, items, axis, dimension) <= MaximumCenter(regions, items, axis, dimension)
  {
    if |items| > 1 {
      CentersOrdered(regions, items[..|items| - 1], axis, dimension);
    }
  }

  /** How far the centers spread along an axis, relative to the root. */
  function Spread(regions: seq<SafeRegion>, items: seq<nat>, axis: nat, dimension: nat, rootWidths: seq<real>): real
    requires Indexable(regions, dimension) && items != [] && AllIndices(items, |regions|)
             && axis < dimension == |rootWidths|
  {
    var width := rootWidths[axis];
    (MaximumCenter(regions, items, axis, dimension) - MinimumCenter(regions, items, axis, dimension))
    / if width > 0.0 then width else 1.0
  }

  lemma {:induction false} SpreadIsNonNegative(regions: seq<SafeRegion>, items: seq<nat>, axis: nat, dimension: nat,
                                               rootWidths: seq<real>)
    requires Indexable(regions, dimension) && items != [] && AllIndices(items, |regions|)
             && axis < dimension == |rootWidths|
    ensures Spread(regions, items, axis, dimension, rootWidths) >= 0.0
  {
    CentersOrdered(regions, items, axis, dimension);
    ShareSign(MaximumCenter(regions, items, axis, dimension) - MinimumCenter(regions, items, axis, dimension),
              if rootWidths[axis] > 0.0 then rootWidths[axis] else 1.0);
  }

  /** The centers of the items lie between the two measures, which are centers themselves. */
  lemma {:induction false} CentersBetween(regions: seq<SafeRegion>, items: seq<nat>, axis: nat, dimension: nat)
    requires Indexable(regions, dimension) && items != [] && AllIndices(items, |regions|) && axis < dimension
    ensures forall i :: i in items ==> MinimumCenter(regions, items, axis, dimension) <= CenterOf(regions, axis, i)
                                       <= MaximumCenter(regions, items, axis, dimension)
    ensures exists i :: i in items && MinimumCenter(regions, items, axis, dimension) == CenterOf(regions, axis, i)
    ensures exists i :: i in items && MaximumCenter(regions, items, axis, dimension) == CenterOf(regions, axis, i)
  {
    var before := items[..|items| - 1];
    assert items == before + [Last(items)];
    assert Last(items) in items;
    if before != [] {
      CentersBetween(regions, before, axis, dimension);
    }
  }

  /** The spread does not depend on the order of the items. */
  lemma {:induction false} SpreadIgnoresOrder(regions: seq<SafeRegion>, a: seq<nat>, b: seq<nat>, axis: nat,
                                              dimension: nat, rootWidths: seq<real>)
    requires Indexable(regions, dimension) && axis < dimension == |rootWidths|
    requires a != [] && b != [] && AllIndices(a, |regions|) && AllIndices(b, |regions|)
    requires forall i :: i in a <==> i in b
    ensures Spread(regions, a, axis, dimension, rootWidths) == Spread(regions, b, axis, dimension, rootWidths)
  {
    CentersBetween(regions, a, axis, dimension);
    CentersBetween(regions, b, axis, dimension);
    assert MinimumCenter(regions, a, axis, dimension) == MinimumCenter(regions, b, axis, dimension);
    assert MaximumCenter(regions, a, axis, dimension) == MaximumCenter(regions, b, axis, dimension);
  }

  /** The first axis of the largest spread. */
  ghost predicate Widest(regions: seq<SafeRegion>, items: seq<nat>, dimension: nat, rootWidths: seq<real>, axis: nat)
    requires Indexable(regions, dimension) && items != [] && AllIndices(items, |regions|) && dimension == |rootWidths|
  {
    && axis < dimension
    && forall a: nat :: a < dimension ==>
         && Spread(regions, items, a, dimension, rootWidths) <= Spread(regions, items, axis, dimension, rootWidths)
         && (a < axis ==>
               Spread(regions, items, a, dimension, rootWidths) < Spread(regions, items, axis, dimension, rootWidths))
  }

  lemma {:induction false} WidestIgnoresOrder(regions: seq<SafeRegion>, a: seq<nat>, b: seq<nat>, dimension: nat,
                                              rootWidths: seq<real>, axis: nat)
    requires Indexable(regions, dimension) && dimension == |rootWidths|
    requires a != [] && b != [] && AllIndices(a, |regions|) && AllIndices(b, |regions|) && multiset(a) == multiset(b)
    requires Widest(regions, a, dimension, rootWidths, axis)
    ensures Widest(regions, b, dimension, rootWidths, axis)
  {
    forall i ensures i in a <==> i in b {
      assert i in multiset(a) <==> i in multiset(b);
    }
    forall x: nat | x < dimension
      ensures Spread(regions, a, x, dimension, rootWidths) == Spread(regions, b, x, dimension, rootWidths)
    {
      SpreadIgnoresOrder(regions, a, b, x, dimension, rootWidths);
    }
  }

  method MeasureCenters(regions: seq<SafeRegion>, items: seq<nat>, axis: nat, dimension: nat)
    returns (minimum: real, maximum: real)
    requires Indexable(regions, dimension) && items != [] && AllIndices(items, |regions|) && axis < dimension
    ensures minimum == MinimumCenter(regions, items, axis, dimension)
            && maximum == MaximumCenter(regions, items, axis, dimension)
  {
    minimum := regions[items[0]].bounds[axis].Center();
    maximum := minimum;
    for k := 1 to |items|
      invariant minimum == MinimumCenter(regions, items[..k], axis, dimension)
                && maximum == MaximumCenter(regions, items[..k], axis, dimension)
    {
      assert items[..k + 1][..k] == items[..k];
      var center := regions[items[k]].bounds[axis].Center();
      minimum, maximum := Min(minimum, center), Max(maximum, center);
    }
    assert items[..|items|] == items;
  }

  /** The first axis of the largest spread. */
  method ChooseAxis(regions: seq<SafeRegion>, items: seq<nat>, dimension: nat, rootWidths: seq<real>)
    returns (splitAxis: nat)
    requires Indexable(regions, dimension) && items != [] && AllIndices(items, |regions|) && dimension == |rootWidths|
    ensures Widest(regions, items, dimension, rootWidths, splitAxis)
  {
    splitAxis := 0;
    var bestSpread := -1.0;
    for axis := 0 to dimension
      invariant splitAxis <= axis
                && (axis > 0 ==>
                    splitAxis < axis && bestSpread == Spread(regions, items, splitAxis, dimension, rootWidths))
      invariant axis == 0 ==> bestSpread == -1.0 && splitAxis == 0
      invariant forall a: nat :: a < axis ==>
                  && Spread(regions, items, a, dimension, rootWidths) <= bestSpread
                  && (a < splitAxis ==> Spread(regions, items, a, dimension, rootWidths) < bestSpread)
    {
      var minimum, maximum := MeasureCenters(regions, items, axis, dimension);
      var normalizer := if rootWidths[axis] > 0.0 then rootWidths[axis] else 1.0;
      var spread := (maximum - minimum) / normalizer;
      SpreadIsNonNegative(regions, items, axis, dimension, rootWidths);
      if spread > bestSpread {
        bestSpread, splitAxis := spread, axis;
      }
    }
  }

  // ----- the queries as linear scans

  /** The items whose regions hold the configuration, in order. */
  function Holding(regions: seq<SafeRegion>, q: Point, items: seq<nat>): seq<nat>
    requires AllIndices(items, |regions|)
  {
    if items == [] then [] else
      var before := Holding(regions, q, items[..|items| - 1]);
      if Contains(regions[Last(items)].bounds, q, QUERY_TOLERANCE) then before + [Last(items)] else before
  }

  lemma {:induction false} HoldingConcat(regions: seq<SafeRegion>, q: Point, a: seq<nat>, b: seq<nat>)
    requires AllIndices(a, |regions|) && AllIndices(b, |regions|)
    ensures AllIndices(a + b, |regions|)
            && Holding(regions, q, a + b) == Holding(regions, q, a) + Holding(regions, q, b)
  {
    if b == [] {
      assert a + b == a;
    } else {
      HoldingConcat(regions, q, a, b[..|b| - 1]);
      assert (a + b)[..|a + b| - 1] == a + b[..|b| - 1] && Last(a + b) == Last(b);
    }
  }

  lemma {:induction false} HoldingIsExact(regions: seq<SafeRegion>, q: Point, items: seq<nat>)
    requires AllIndices(items, |regions|)
    ensures forall i: nat :: i in Holding(regions, q, items) <==>
            i in items && i < |regions| && Contains(regions[i].bounds, q, QUERY_TOLERANCE)
    ensures NoDuplicates(items) ==> NoDuplicates(Holding(regions, q, items))
  {
    if items != [] {
      var before := items[..|items| - 1];
      HoldingIsExact(regions, q, before);
      assert items == before + [Last(items)];
    }
  }

  /** A configuration outside the node's box is in none of its regions. */
  lemma {:induction false} NothingHeld(regions: seq<SafeRegion>, q: Point, items: seq<nat>, bounds: Box)
    requires AllIndices(items, |regions|) && Encloses(bounds, regions, items) && !Contains(bounds, q, QUERY_TOLERANCE)
    ensures Holding(regions, q, items) == []
  {
    if items != [] {
      NothingHeld(regions, q, items[..|items| - 1], bounds);
      var inner := regions[Last(items)].bounds;
      assert Inside(inner, bounds);
      if Contains(inner, q, QUERY_TOLERANCE) {
        forall i | 0 <= i < |bounds| ensures bounds[i].Contains(q[i], QUERY_TOLERANCE) {
          assert inner[i].Contains(q[i], QUERY_TOLERANCE);
        }
      }
    }
  }

  function DistanceTo(regions: seq<SafeRegion>, q: Point, i: nat): real
    requires i < |regions| && |regions[i].bounds| == |q|
  {
    Distance(q, regions[i].bounds, |q|)
  }

  /** Nearer, or as near with a smaller or equal id. */
  predicate AsNear(regions: seq<SafeRegion>, q: Point, i: nat, j: nat)
    requires Indexable(regions, |q|) && i < |regions| && j < |regions|
  {
    DistanceTo(regions, q, i) < DistanceTo(regions, q, j)
    || (DistanceTo(regions, q, i) == DistanceTo(regions, q, j) && regions[i].id <= regions[j].id)
  }

  // ----- what near means

  /** The squared Euclidean distance of two configurations, over the first `n` axes. */
  function Squared(q: Point, x: Point, n: nat): real
    requires n <= |q| && n <= |x|
  {
    if n == 0 then 0.0 else Squared(q, x, n - 1) + (q[n - 1] - x[n - 1]) * (q[n - 1] - x[n - 1])
  }

  function Clamp(x: real, axis: Interval): real {
    if x < axis.lower then axis.lower else if x > axis.upper then axis.upper else x
  }

  /** The configuration moved into the box, axis by axis. */
  function Clamped(q: Point, box: Box): (x: Point)
    requires |q| == |box|
    ensures |x| == |q|
  {
    seq(|q|, i requires 0 <= i < |q| => Clamp(q[i], box[i]))
  }

  lemma {:induction false} GapIsLeast(x: real, y: real, axis: Interval)
    requires axis.Valid() && axis.Contains(y, 0.0)
    ensures Gap(x, axis) * Gap(x, axis) <= (x - y) * (x - y)
  {
    var d := if x < y then y - x else x - y;
    SquaresGrow(Gap(x, axis), d);
    assert d * d == (x - y) * (x - y);
  }

  /** No configuration of the box is closer than its distance ... */
  lemma {:induction false} DistanceIsLeast(q: Point, box: Box, x: Point, n: nat)
    requires ValidBox(box) && |q| == |box| && In(x, box) && n <= |q|
    ensures Distance(q, box, n) <= Squared(q, x, n)
  {
    if n > 0 {
      DistanceIsLeast(q, box, x, n - 1);
      assert box[n - 1].Contains(x[n - 1], 0.0);
      GapIsLeast(q[n - 1], x[n - 1], box[n - 1]);
    }
  }

  /** ... and one is exactly that close. */
  lemma {:induction false} DistanceIsAttained(q: Point, box: Box, n: nat)
    requires ValidBox(box) && |q| == |box| && n <= |q|
    ensures In(Clamped(q, box), box) && Squared(q, Clamped(q, box), n) == Distance(q, box, n)
  {
    if n > 0 {
      DistanceIsAttained(q, box, n - 1);
      var d := q[n - 1] - Clamped(q, box)[n - 1];
      assert d == Gap(q[n - 1], box[n - 1]) || d == -Gap(q[n - 1], box[n - 1]);
      assert d * d == Gap(q[n - 1], box[n - 1]) * Gap(q[n - 1], box[n - 1]);
    }
    forall i | 0 <= i < |box| ensures box[i].Contains(Clamped(q, box)[i], 0.0) {
      assert box[i].Valid();
    }
  }

  /** The region holds a configuration at least as close to `q` as every
      configuration of every region, and wins ties by its id. */
  ghost predicate ClosestRegion(regions: seq<SafeRegion>, q: Point, best: nat)
    requires best < |regions|
  {
    exists x: Point :: In(x, regions[best].bounds) && |x| == |q| && ClosestAt(regions, q, best, x)
  }

  ghost predicate ClosestAt(regions: seq<SafeRegion>, q: Point, best: nat, x: Point)
    requires best < |regions| && |x| == |q|
  {
    forall j: nat, y: Point :: j < |regions| && In(y, regions[j].bounds) && |y| == |q| ==>
      && Squared(q, x, |q|) <= Squared(q, y, |q|)
      && (Squared(q, x, |q|) == Squared(q, y, |q|) ==> regions[best].id <= regions[j].id)
  }

  /** Nearest by distance means closest. */
  lemma {:induction false} NearestIsClosest(regions: seq<SafeRegion>, q: Point, best: nat)
    requires Indexable(regions, |q|) && NearestOf(regions, q, best, Iota(|regions|))
    ensures ClosestRegion(regions, q, best)
  {
    var x := Clamped(q, regions[best].bounds);
    DistanceIsAttained(q, regions[best].bounds, |q|);
    forall j: nat, y: Point | j < |regions| && In(y, regions[j].bounds) && |y| == |q|
      ensures Squared(q, x, |q|) <= Squared(q, y, |q|)
      ensures Squared(q, x, |q|) == Squared(q, y, |q|) ==> regions[best].id <= regions[j].id
    {
      assert Iota(|regions|)[j] == j;
      assert AsNear(regions, q, best, j);
      DistanceIsLeast(q, regions[j].bounds, y, |q|);
    }
    assert ClosestAt(regions, q, best, x);
  }

  /** `best` is as near as everything in `items`. */
  ghost predicate NearestOf(regions: seq<SafeRegion>, q: Point, best: nat, items: seq<nat>)
    requires Indexable(regions, |q|) && AllIndices(items, |regions|)
  {
    best < |regions| && forall k :: 0 <= k < |items| ==> AsNear(regions, q, best, items[k])
  }

  lemma {:induction false} NearestTransfers(regions: seq<SafeRegion>, q: Point, better: nat, best: nat, items: seq<nat>)
    requires Indexable(regions, |q|) && AllIndices(items, |regions|) && better < |regions|
             && NearestOf(regions, q, best, items)
    requires AsNear(regions, q, better, best)
    ensures NearestOf(regions, q, better, items)
  {
  }

  lemma {:induction false} NothingNearer(regions: seq<SafeRegion>, q: Point, best: nat, items: seq<nat>, bounds: Box)
    requires Indexable(regions, |q|) && AllIndices(items, |regions|) && Encloses(bounds, regions, items)
    requires best < |regions| && |bounds| == |q| && Distance(q, bounds, |q|) > DistanceTo(regions, q, best)
    ensures NearestOf(regions, q, best, items)
  {
    forall k | 0 <= k < |items| ensures AsNear(regions, q, best, items[k]) {
      LargerIsNearer(q, regions[items[k]].bounds, bounds, |q|);
    }
  }

  // ----- building in place

  /** The slice is permuted and the rest is as it was. */
  ghost predicate Rearranged(before: seq<nat>, after: seq<nat>, begin: nat, end: nat) {
    && |after| == |before| && begin <= end <= |before|
    && (forall k :: 0 <= k < |before| && !(begin <= k < end) ==> after[k] == before[k])
    && multiset(after[begin..end]) == multiset(before[begin..end])
  }

  lemma {:induction false} RearrangedKeepsIndices(before: seq<nat>, after: seq<nat>, begin: nat, end: nat, n: nat)
    requires Rearranged(before, after, begin, end) && AllIndices(before, n)
    ensures AllIndices(after, n)
  {
    forall k | 0 <= k < |after| ensures after[k] < n {
      if begin <= k < end {
        assert after[k] == after[begin..end][k - begin];
        assert after[k] in multiset(before[begin..end]) && after[k] in before[begin..end];
      }
    }
  }

  lemma {:induction false} SliceSplits(s: seq<nat>, begin: nat, low: nat, high: nat, end: nat)
    requires begin <= low <= high <= end <= |s|
    ensures multiset(s[begin..end]) == multiset(s[begin..low]) + multiset(s[low..high]) + multiset(s[high..end])
  {
    assert s[begin..end] == s[begin..low] + s[low..high] + s[high..end];
  }

  lemma {:induction false} RearrangedWidens(before: seq<nat>, after: seq<nat>, begin: nat, low: nat, high: nat,
                                            end: nat)
    requires Rearranged(before, after, low, high) && begin <= low && high <= end <= |before|
    ensures Rearranged(before, after, begin, end)
  {
    SliceSplits(before, begin, low, high, end);
    SliceSplits(after, begin, low, high, end);
    assert after[begin..low] == before[begin..low] && after[high..end] == before[high..end];
  }

  lemma {:induction false} RearrangedChains(a: seq<nat>, b: seq<nat>, c: seq<nat>, begin: nat, end: nat)
    requires Rearranged(a, b, begin, end) && Rearranged(b, c, begin, end)
    ensures Rearranged(a, c, begin, end)
  {
  }

  function SortSlice(regions: seq<SafeRegion>, axis: nat, indices: seq<nat>, begin: nat, end: nat): seq<nat>
    requires begin <= end <= |indices|
  {
    indices[..begin] + Sort(ByCenter(regions, axis), indices[begin..end]) + indices[end..]
  }

  lemma {:induction false} SortSliceRearranges(regions: seq<SafeRegion>, axis: nat, indices: seq<nat>, begin: nat,
                                               end: nat)
    requires begin <= end <= |indices|
    ensures Rearranged(indices, SortSlice(regions, axis, indices, begin, end), begin, end)
  {
    SortPermutes(ByCenter(regions, axis), indices[begin..end]);
    assert SortSlice(regions, axis, indices, begin, end)[begin..end]
           == Sort(ByCenter(regions, axis), indices[begin..end]);
  }

  /** Everything below the middle comes before everything from it on. */
  ghost predicate Separated(regions: seq<SafeRegion>, axis: nat, indices: seq<nat>, begin: nat, middle: nat, end: nat)
    requires begin <= middle <= end <= |indices|
  {
    forall i, j :: begin <= i < middle && middle <= j < end ==> CenterLe(regions, axis, indices[i], indices[j])
  }

  lemma {:induction false} SortedIsSeparated(regions: seq<SafeRegion>, axis: nat, indices: seq<nat>, begin: nat,
                                             middle: nat, end: nat)
    requires begin <= middle <= end <= |indices|
    ensures |SortSlice(regions, axis, indices, begin, end)| == |indices|
    ensures Separated(regions, axis, SortSlice(regions, axis, indices, begin, end), begin, middle, end)
  {
    var sorted := Sort(ByCenter(regions, axis), indices[begin..end]);
    SortPermutes(ByCenter(regions, axis), indices[begin..end]);
    CenterOrder(regions, axis);
    SortSorts(ByCenter(regions, axis), indices[begin..end]);
    var after := SortSlice(regions, axis, indices, begin, end);
    forall i, j | begin <= i < middle && middle <= j < end ensures CenterLe(regions, axis, after[i], after[j]) {
      assert after[i] == sorted[i - begin] && after[j] == sorted[j - begin];
      assert ByCenter(regions, axis)(sorted[i - begin], sorted[j - begin]);
    }
  }

  /** Rearranging either half keeps the halves separated. */
  lemma {:induction false} SeparatedKept(regions: seq<SafeRegion>, axis: nat, before: seq<nat>, after: seq<nat>,
                                         begin: nat, middle: nat, end: nat, low: nat, high: nat)
    requires begin <= middle <= end <= |before| && Separated(regions, axis, before, begin, middle, end)
    requires (low == begin && high == middle) || (low == middle && high == end)
    requires Rearranged(before, after, low, high)
    ensures Separated(regions, axis, after, begin, middle, end)
  {
    forall i, j | begin <= i < middle && middle <= j < end ensures CenterLe(regions, axis, after[i], after[j]) {
      var a := Origin(before, after, low, high, i);
      var b := Origin(before, after, low, high, j);
      assert CenterLe(regions, axis, before[a], before[b]);
    }
  }

  /** Where the entry at `i` was before the slice was permuted. */
  lemma {:induction false} Origin(before: seq<nat>, after: seq<nat>, low: nat, high: nat, i: nat) returns (a: nat)
    requires Rearranged(before, after, low, high) && i < |before|
    ensures a < |before| && before[a] == after[i] && (if low <= i < high then low <= a < high else a == i)
  {
    if low <= i < high {
      assert after[i] == after[low..high][i - low];
      assert after[i] in multiset(before[low..high]) && after[i] in before[low..high];
      var k :| 0 <= k < high - low && before[low..high][k] == after[i];
      a := low + k;
    } else {
      a := i;
    }
  }

  function Halfway(begin: nat, end: nat): nat
    requires begin <= end
  {
    begin + (end - begin) / 2
  }

  /** The slice is separated at its middle along its first axis of the largest spread. */
  ghost predicate SplitWell(regions: seq<SafeRegion>, dimension: nat, rootWidths: seq<real>, indices: seq<nat>,
                            begin: nat, end: nat)
    requires Indexable(regions, dimension) && |rootWidths| == dimension && AllIndices(indices, |regions|)
    requires begin < end <= |indices|
  {
    exists axis ::
      && Widest(regions, indices[begin..end], dimension, rootWidths, axis)
      && Separated(regions, axis, indices, begin, Halfway(begin, end), end)
  }

  lemma {:induction false} SplitKept(regions: seq<SafeRegion>, dimension: nat, rootWidths: seq<real>,
                                     before: seq<nat>, after: seq<nat>, begin: nat, end: nat, low: nat, high: nat)
    requires Indexable(regions, dimension) && |rootWidths| == dimension
    requires AllIndices(before, |regions|) && AllIndices(after, |regions|) && begin < end <= |before|
    requires SplitWell(regions, dimension, rootWidths, before, begin, end)
    requires (low == begin && high == Halfway(begin, end)) || (low == Halfway(begin, end) && high == end)
    requires Rearranged(before, after, low, high)
    ensures SplitWell(regions, dimension, rootWidths, after, begin, end)
  {
    var axis :| && Widest(regions, before[begin..end], dimension, rootWidths, axis)
                && Separated(regions, axis, before, begin, Halfway(begin, end), end);
    RearrangedWidens(before, after, begin, low, high, end);
    WidestIgnoresOrder(regions, before[begin..end], after[begin..end], dimension, rootWidths, axis);
    SeparatedKept(regions, axis, before, after, begin, Halfway(begin, end), end, low, high);
  }

  /** Leaves hold at most `LEAF_CAPACITY` regions; every larger node is split well at its middle. */
  ghost predicate Balanced(regions: seq<SafeRegion>, dimension: nat, rootWidths: seq<real>, nodes: seq<Node>,
                           indices: seq<nat>, n: nat)
    requires Indexable(regions, dimension) && |rootWidths| == dimension && TreeOk(regions, nodes, indices, n)
    decreases |nodes| - n
  {
    var node := nodes[n];
    && (node.leaf <==> node.end - node.begin <= LEAF_CAPACITY)
    && (!node.leaf ==>
          && nodes[node.left].end == Halfway(node.begin, node.end)
          && SplitWell(regions, dimension, rootWidths, indices, node.begin, node.end)
          && Balanced(regions, dimension, rootWidths, nodes, indices, node.left)
          && Balanced(regions, dimension, rootWidths, nodes, indices, node.right))
  }

  lemma {:induction false} SplitFrame(regions: seq<SafeRegion>, dimension: nat, rootWidths: seq<real>,
                                      indices: seq<nat>, newIndices: seq<nat>, begin: nat, end: nat)
    requires Indexable(regions, dimension) && |rootWidths| == dimension
    requires AllIndices(indices, |regions|) && AllIndices(newIndices, |regions|)
    requires begin < end <= |indices| == |newIndices| && forall k :: begin <= k < end ==> newIndices[k] == indices[k]
    requires SplitWell(regions, dimension, rootWidths, indices, begin, end)
    ensures SplitWell(regions, dimension, rootWidths, newIndices, begin, end)
  {
    var axis :| && Widest(regions, indices[begin..end], dimension, rootWidths, axis)
                && Separated(regions, axis, indices, begin, Halfway(begin, end), end);
    assert newIndices[begin..end] == indices[begin..end];
    assert Separated(regions, axis, newIndices, begin, Halfway(begin, end), end);
  }

  /** Balance, too, depends only on the subtree's own nodes and slice. */
  lemma {:induction false} BalancedFrame(regions: seq<SafeRegion>, dimension: nat, rootWidths: seq<real>,
                                         nodes: seq<Node>, indices: seq<nat>, moreNodes: seq<Node>,
                                         newIndices: seq<nat>, n: nat)
    requires Indexable(regions, dimension) && |rootWidths| == dimension
    requires TreeOk(regions, nodes, indices, n) && AllIndices(newIndices, |regions|)
    requires |nodes| <= |moreNodes| && forall m :: n <= m < |nodes| ==> moreNodes[m] == nodes[m]
    requires |newIndices| == |indices| && forall k :: nodes[n].begin <= k < nodes[n].end ==> newIndices[k] == indices[k]
    requires Balanced(regions, dimension, rootWidths, nodes, indices, n)
    ensures TreeOk(regions, moreNodes, newIndices, n)
    ensures Balanced(regions, dimension, rootWidths, moreNodes, newIndices, n)
    decreases |nodes| - n
  {
    var node := nodes[n];
    TreeFrame(regions, nodes, indices, moreNodes, newIndices, n);
    if !node.leaf {
      SplitFrame(regions, dimension, rootWidths, indices, newIndices, node.begin, node.end);
      BalancedFrame(regions, dimension, rootWidths, nodes, indices, moreNodes, newIndices, node.left);
      BalancedFrame(regions, dimension, rootWidths, nodes, indices, moreNodes, newIndices, node.right);
    }
  }

  lemma {:induction false} ParentBalanced(regions: seq<SafeRegion>, dimension: nat, rootWidths: seq<real>,
                                          nodes: seq<Node>, indices: seq<nat>, n: nat, left: nat, right: nat)
    requires Indexable(regions, dimension) && |rootWidths| == dimension
    requires n < left < |nodes| && n < right < |nodes|
    requires TreeOk(regions, nodes, indices, left) && TreeOk(regions, nodes, indices, right)
    requires nodes[n].begin < nodes[n].end <= |indices| && !nodes[n].leaf
             && nodes[n].end - nodes[n].begin > LEAF_CAPACITY
    requires SplitWell(regions, dimension, rootWidths, indices, nodes[n].begin, nodes[n].end)
    requires nodes[left].end == Halfway(nodes[n].begin, nodes[n].end)
    requires Balanced(regions, dimension, rootWidths, nodes, indices, left)
    requires Balanced(regions, dimension, rootWidths, nodes, indices, right)
    requires TreeOk(regions, nodes[n := nodes[n].(left := left, right := right)], indices, n)
    ensures Balanced(regions, dimension, rootWidths, nodes[n := nodes[n].(left := left, right := right)], indices, n)
  {
    var updated := nodes[n := nodes[n].(left := left, right := right)];
    BalancedFrame(regions, dimension, rootWidths, nodes, indices, updated, indices, left);
    BalancedFrame(regions, dimension, rootWidths, nodes, indices, updated, indices, right);
  }

  /** The parent of two adjacent subtrees. */
  lemma {:induction false} ParentOk(regions: seq<SafeRegion>, nodes: seq<Node>, indices: seq<nat>, n: nat, left: nat,
                                    right: nat)
    requires n < left < |nodes| && n < right < |nodes|
    requires TreeOk(regions, nodes, indices, left) && TreeOk(regions, nodes, indices, right)
    requires nodes[left].begin == nodes[n].begin && nodes[left].end == nodes[right].begin
             && nodes[right].end == nodes[n].end
    requires nodes[n].begin < nodes[n].end <= |indices|
             && Encloses(nodes[n].bounds, regions, indices[nodes[n].begin..nodes[n].end])
    ensures TreeOk(regions, nodes[n := nodes[n].(left := left, right := right)], indices, n)
  {
    var updated := nodes[n := nodes[n].(left := left, right := right)];
    TreeFrame(regions, nodes, indices, updated, indices, left);
    TreeFrame(regions, nodes, indices, updated, indices, right);
  }

  function Iota(n: nat): (items: seq<nat>)
    ensures |items| == n && forall k :: 0 <= k < n ==> items[k] == k
  {
    seq(n, k requires 0 <= k < n => k)
  }

  /** What a built index knows about its regions. */
  ghost predicate Indexes(regions: seq<SafeRegion>, dimension: nat, indices: seq<nat>, nodes: seq<Node>) {
    && multiset(indices) == multiset(Iota(|regions|)) && |indices| == |regions|
    && (regions == [] <==> nodes == [])
    && (nodes != [] ==>
        Indexable(regions, dimension) && TreeOk(regions, nodes, indices, 0) && nodes[0].begin == 0
            && nodes[0].end == |indices|)
  }

  class RegionQueryIndex {
    var dimension: nat
    var rootWidths: seq<real>
    var indices: seq<nat>
    var nodes: seq<Node>

    constructor (regions: seq<SafeRegion>, regionDimension: nat)
      requires regions != [] ==> Indexable(regions, regionDimension)
      ensures Indexes(regions, dimension, indices, nodes) && dimension == regionDimension
      ensures nodes != [] ==> |rootWidths| == dimension && Balanced(regions, dimension, rootWidths, nodes, indices, 0)
    {
      dimension := regionDimension;
      indices := Iota(|regions|);
      rootWidths := [];
      nodes := [];
      new;
      if regions != [] {
        var root := Enclosing(regions, indices, dimension);
        rootWidths := seq(dimension, axis requires 0 <= axis < |root| => root[axis].Width());
        var index := BuildNode(regions, 0, |regions|);
        assert indices == indices[0..|regions|] && Iota(|regions|)[0..|regions|] == Iota(|regions|);
      }
    }

    method BuildNode(regions: seq<SafeRegion>, begin: nat, end: nat) returns (index: nat)
      requires Indexable(regions, dimension) && |rootWidths| == dimension && begin < end <= |indices|
               && AllIndices(indices, |regions|)
      modifies this
      decreases end - begin
      ensures dimension == old(dimension) && rootWidths == old(rootWidths)
      ensures index == |old(nodes)| < |nodes| && old(nodes) <= nodes
      ensures Rearranged(old(indices), indices, begin, end) && AllIndices(indices, |regions|)
      ensures TreeOk(regions, nodes, indices, index) && nodes[index].begin == begin && nodes[index].end == end
      ensures Balanced(regions, dimension, rootWidths, nodes, indices, index)
    {
      index := |nodes|;
      PushNode(regions, begin, end);
      ghost var pushed := nodes;
      if end - begin > LEAF_CAPACITY {
        SortItems(regions, begin, end);
        ghost var sorted := indices;
        EnclosesPermuted(nodes[index].bounds, regions, old(indices)[begin..end], indices[begin..end]);
        SplitNode(regions, begin, end, index);
        RearrangedChains(old(indices), sorted, indices, begin, end);
        assert nodes[..index] == pushed[..index] == old(nodes);
      }
    }

    method PushNode(regions: seq<SafeRegion>, begin: nat, end: nat)
      requires Indexable(regions, dimension) && begin < end <= |indices| && AllIndices(indices, |regions|)
      modifies `nodes
      ensures nodes
              == old(nodes) + [Node(Enclosing(regions, indices[begin..end], dimension), begin, end, 0, 0,
                                    end - begin <= LEAF_CAPACITY)]
      ensures Encloses(Last(nodes).bounds, regions, indices[begin..end])
    {
      EnclosingEncloses(regions, indices[begin..end], dimension);
      nodes := nodes + [Node(Enclosing(regions, indices[begin..end], dimension), begin, end, 0, 0,
                             end - begin <= LEAF_CAPACITY)];
    }

    /** Sorts the slice by center along the axis of the largest spread, then by id. */
    method SortItems(regions: seq<SafeRegion>, begin: nat, end: nat)
      requires Indexable(regions, dimension) && |rootWidths| == dimension && begin < end <= |indices|
               && AllIndices(indices, |regions|)
      modifies `indices
      ensures Rearranged(old(indices), indices, begin, end) && AllIndices(indices, |regions|)
      ensures SplitWell(regions, dimension, rootWidths, indices, begin, end)
    {
      var splitAxis := ChooseAxis(regions, indices[begin..end], dimension, rootWidths);
      ghost var before := indices;
      SortSliceRearranges(regions, splitAxis, indices, begin, end);
      RearrangedKeepsIndices(indices, SortSlice(regions, splitAxis, indices, begin, end), begin, end, |regions|);
      SortedIsSeparated(regions, splitAxis, indices, begin, Halfway(begin, end), end);
      indices := SortSlice(regions, splitAxis, indices, begin, end);
      WidestIgnoresOrder(regions, before[begin..end], indices[begin..end], dimension, rootWidths, splitAxis);
    }

    /** Builds both halves of a node and links them. */
    method SplitNode(regions: seq<SafeRegion>, begin: nat, end: nat, index: nat)
      requires Indexable(regions, dimension) && |rootWidths| == dimension && begin + 1 < end <= |indices|
               && AllIndices(indices, |regions|)
      requires |nodes| == index + 1 && nodes[index].begin == begin && nodes[index].end == end
      requires Encloses(nodes[index].bounds, regions, indices[begin..end])
      requires !nodes[index].leaf && end - begin > LEAF_CAPACITY
      requires SplitWell(regions, dimension, rootWidths, indices, begin, end)
      modifies this
      decreases end - begin, 0
      ensures dimension == old(dimension) && rootWidths == old(rootWidths)
      ensures index < |nodes| && nodes[..index] == old(nodes)[..index]
      ensures Rearranged(old(indices), indices, begin, end) && AllIndices(indices, |regions|)
      ensures TreeOk(regions, nodes, indices, index) && nodes[index].begin == begin && nodes[index].end == end
      ensures Balanced(regions, dimension, rootWidths, nodes, indices, index)
    {
      var middle := begin + (end - begin) / 2;
      var left := BuildNode(regions, begin, middle);
      ghost var nodes1, indices1 := nodes, indices;
      RearrangedWidens(old(indices), indices1, begin, begin, middle, end);
      var right := BuildNode(regions, middle, end);
      RearrangedWidens(indices1, indices, begin, middle, end, end);
      RearrangedChains(old(indices), indices1, indices, begin, end);
      SplitKept(regions, dimension, rootWidths, old(indices), indices1, begin, end, begin, middle);
      SplitKept(regions, dimension, rootWidths, indices1, indices, begin, end, middle, end);
      BalancedFrame(regions, dimension, rootWidths, nodes1, indices1, nodes, indices, left);
      EnclosesPermuted(nodes[index].bounds, regions, old(indices)[begin..end], indices[begin..end]);
      ParentOk(regions, nodes, indices, index, left, right);
      ParentBalanced(regions, dimension, rootWidths, nodes, indices, index, left, right);
      nodes := nodes[index := nodes[index].(left := left, right := right)];
    }

    /** Appends the regions of a subtree that hold the configuration, skipping subtrees whose box does not. */
    method Collect(regions: seq<SafeRegion>, n: nat, q: Point, found: seq<nat>) returns (more: seq<nat>)
      requires TreeOk(regions, nodes, indices, n)
      ensures more == found + Holding(regions, q, indices[nodes[n].begin..nodes[n].end])
      decreases |nodes| - n
    {
      var node := nodes[n];
      ghost var items := indices[node.begin..node.end];
      if !Contains(node.bounds, q, QUERY_TOLERANCE) {
        NothingHeld(regions, q, items, node.bounds);
        return found;
      }
      if !node.leaf {
        var middle := nodes[node.left].end;
        more := Collect(regions, node.left, q, found);
        more := Collect(regions, node.right, q, more);
        ChildSpans(regions, nodes, indices, n);
        HoldingConcat(regions, q, indices[node.begin..middle], indices[middle..node.end]);
        return;
      }
      more := CollectLeaf(regions, node, q, found);
    }

    method CollectLeaf(regions: seq<SafeRegion>, node: Node, q: Point, found: seq<nat>) returns (more: seq<nat>)
      requires AllIndices(indices, |regions|) && node.begin <= node.end <= |indices|
      ensures more == found + Holding(regions, q, indices[node.begin..node.end])
    {
      more := found;
      assert found == found + Holding(regions, q, indices[node.begin..node.begin]);
      for offset := node.begin to node.end
        invariant more == found + Holding(regions, q, indices[node.begin..offset])
      {
        assert indices[node.begin..offset + 1] == indices[node.begin..offset] + [indices[offset]];
        if Contains(regions[indices[offset]].bounds, q, QUERY_TOLERANCE) {
          more := more + [indices[offset]];
        }
      }
    }

    /** The regions that hold the configuration, as a scan of all regions in storage order finds them. */
    method ContainingRegions(regions: seq<SafeRegion>, q: Point) returns (result: seq<nat>)
      requires Indexes(regions, dimension, indices, nodes)
      ensures result == Holding(regions, q, Iota(|regions|))
    {
      result := [];
      if nodes == [] {
        assert Iota(|regions|) == [];
      } else {
        result := Collect(regions, 0, q, []);
        assert indices[0..|indices|] == indices && result == Holding(regions, q, indices);
        SortedHolding(regions, q, indices);
        result := Sort(NatLe, result);
      }
    }

    /** Improves the selection over a subtree, skipping subtrees that are strictly farther away. */
    method SearchNearest(regions: seq<SafeRegion>, n: nat, q: Point, selected: nat) returns (nearest: nat)
      requires Indexable(regions, |q|) && TreeOk(regions, nodes, indices, n) && selected < |regions|
      ensures NearestOf(regions, q, nearest, indices[nodes[n].begin..nodes[n].end])
              && AsNear(regions, q, nearest, selected)
      decreases |nodes| - n
    {
      var node := nodes[n];
      ghost var items := indices[node.begin..node.end];
      BoundsDimension(regions, nodes, indices, n, |q|);
      if Distance(q, node.bounds, |q|) > DistanceTo(regions, q, selected) {
        NothingNearer(regions, q, selected, items, node.bounds);
        return selected;
      }
      if node.leaf {
        nearest := SearchLeaf(regions, node, q, selected);
        return;
      }
      BoundsDimension(regions, nodes, indices, node.left, |q|);
      BoundsDimension(regions, nodes, indices, node.right, |q|);
      var leftFirst := Distance(q, nodes[node.left].bounds, |q|) <= Distance(q, nodes[node.right].bounds, |q|);
      var first, second := if leftFirst then node.left else node.right, if leftFirst then node.right else node.left;
      var near := SearchNearest(regions, first, q, selected);
      nearest := SearchNearest(regions, second, q, near);
      NearestTransfers(regions, q, nearest, near, indices[nodes[first].begin..nodes[first].end]);
      ChildSpans(regions, nodes, indices, n);
      NearestOfBoth(regions, q, nearest, indices[nodes[node.left].begin..nodes[node.left].end],
                    indices[nodes[node.right].begin..nodes[node.right].end]);
    }

    method SearchLeaf(regions: seq<SafeRegion>, node: Node, q: Point, selected: nat) returns (nearest: nat)
      requires Indexable(regions, |q|) && AllIndices(indices, |regions|) && node.begin <= node.end <= |indices|
               && selected < |regions|
      ensures NearestOf(regions, q, nearest, indices[node.begin..node.end]) && AsNear(regions, q, nearest, selected)
    {
      nearest := selected;
      for offset := node.begin to node.end
        invariant nearest < |regions| && AsNear(regions, q, nearest, selected)
        invariant NearestOf(regions, q, nearest, indices[node.begin..offset])
      {
        var candidate := indices[offset];
        var distance, best := DistanceTo(regions, q, candidate), DistanceTo(regions, q, nearest);
        assert indices[node.begin..offset + 1] == indices[node.begin..offset] + [candidate];
        if distance < best || (distance == best && regions[candidate].id < regions[nearest].id) {
          NearestTransfers(regions, q, candidate, nearest, indices[node.begin..offset]);
          nearest := candidate;
        }
      }
    }

    /** The nearest region, ties going to the smallest id. */
    method NearestRegion(regions: seq<SafeRegion>, q: Point) returns (nearest: Option<nat>)
      requires Indexes(regions, dimension, indices, nodes) && |q| == dimension
      ensures nearest.None? <==> regions == []
      ensures nearest.Some? ==>
                NearestOf(regions, q, nearest.value, Iota(|regions|)) && ClosestRegion(regions, q, nearest.value)
    {
      if nodes == [] {
        return None;
      }
      assert indices[0..|indices|] == indices;
      var selected := SearchNearest(regions, 0, q, indices[0]);
      NearestOfPermutation(regions, q, selected, indices, Iota(|regions|));
      NearestIsClosest(regions, q, selected);
      nearest := Some(selected);
    }
  }

  // ----- facts about subtrees

  lemma {:induction false} ChildSpans(regions: seq<SafeRegion>, nodes: seq<Node>, indices: seq<nat>, n: nat)
    requires TreeOk(regions, nodes, indices, n) && !nodes[n].leaf
    ensures var node := nodes[n]; var left, right := nodes[node.left], nodes[node.right];
            && left.begin == node.begin && left.end == right.begin && right.end == node.end
            && left.begin <= left.end <= right.end <= |indices|
            && indices[node.begin..node.end] == indices[left.begin..left.end] + indices[right.begin..right.end]
  {
  }

  lemma {:induction false} BoundsDimension(regions: seq<SafeRegion>, nodes: seq<Node>, indices: seq<nat>, n: nat,
                                           dimension: nat)
    requires Indexable(regions, dimension) && TreeOk(regions, nodes, indices, n)
    ensures |nodes[n].bounds| == dimension
  {
    var items := indices[nodes[n].begin..nodes[n].end];
    assert Inside(regions[items[0]].bounds, nodes[n].bounds);
  }

  lemma {:induction false} NearestOfBoth(regions: seq<SafeRegion>, q: Point, best: nat, a: seq<nat>, b: seq<nat>)
    requires Indexable(regions, |q|) && AllIndices(a, |regions|) && AllIndices(b, |regions|)
    requires NearestOf(regions, q, best, a) && NearestOf(regions, q, best, b)
    ensures AllIndices(a + b, |regions|) && NearestOf(regions, q, best, a + b)
  {
  }

  lemma {:induction false} NearestOfPermutation(regions: seq<SafeRegion>, q: Point, best: nat, a: seq<nat>, b: seq<nat>)
    requires Indexable(regions, |q|) && AllIndices(a, |regions|) && NearestOf(regions, q, best, a)
             && multiset(a) == multiset(b)
    ensures AllIndices(b, |regions|) && NearestOf(regions, q, best, b)
  {
    forall k | 0 <= k < |b| ensures b[k] < |regions| && AsNear(regions, q, best, b[k]) {
      assert b[k] in multiset(b) && b[k] in multiset(a) && b[k] in a;
    }
  }

  // ----- sorting the answer

  predicate NatLe(i: nat, j: nat) {
    i <= j
  }

  lemma {:induction false} IotaIsDistinct(indices: seq<nat>, n: nat)
    requires multiset(indices) == multiset(Iota(n))
    ensures NoDuplicates(indices) && forall i: nat :: i in indices <==> i < n
  {
    forall i: nat ensures i in indices <==> i < n {
      assert i in indices <==> i in multiset(indices);
      assert i in Iota(n) <==> i in multiset(Iota(n));
      if i < n {
        assert Iota(n)[i] == i;
      }
    }
    forall i, j | 0 <= i < j < |indices| ensures indices[i] != indices[j] {
      IotaOnce(n, indices[i]);
      if indices[i] == indices[j] {
        TwiceCounts(indices, i, j);
      }
    }
  }

  lemma {:induction false} IotaOnce(n: nat, x: nat)
    ensures multiset(Iota(n))[x] <= 1
  {
    if n > 0 {
      IotaOnce(n - 1, x);
      assert Iota(n) == Iota(n - 1) + [n - 1];
      assert n - 1 !in Iota(n - 1);
    }
  }

  lemma {:induction false} TwiceCounts(s: seq<nat>, i: nat, j: nat)
    requires i < j < |s| && s[i] == s[j]
    ensures multiset(s)[s[i]] >= 2
  {
    assert s == s[..j] + s[j..];
    assert s[i] in s[..j] && s[i] in s[j..] by {
      assert s[..j][i] == s[i] && s[j..][0] == s[i];
    }
    assert multiset(s) == multiset(s[..j]) + multiset(s[j..]);
  }

  lemma {:induction false} HoldingAscends(regions: seq<SafeRegion>, q: Point, n: nat)
    requires n <= |regions|
    ensures SortedBy(NatLe, Holding(regions, q, Iota(n))) && AllIndices(Holding(regions, q, Iota(n)), n)
  {
    if n > 0 {
      HoldingAscends(regions, q, n - 1);
      assert Iota(n)[..n - 1] == Iota(n - 1);
    }
  }

  /** Sorting what the hierarchy found gives what the scan finds. */
  lemma {:induction false} SortedHolding(regions: seq<SafeRegion>, q: Point, indices: seq<nat>)
    requires multiset(indices) == multiset(Iota(|regions|)) && AllIndices(indices, |regions|)
    ensures Sort(NatLe, Holding(regions, q, indices)) == Holding(regions, q, Iota(|regions|))
  {
    var found, scanned := Holding(regions, q, indices), Holding(regions, q, Iota(|regions|));
    IotaIsDistinct(indices, |regions|);
    IotaIsDistinct(Iota(|regions|), |regions|);
    HoldingIsExact(regions, q, indices);
    HoldingIsExact(regions, q, Iota(|regions|));
    HoldingAscends(regions, q, |regions|);
    SortMembers(NatLe, found);
    SortKeepsDistinct(NatLe, found);
    SortSorts(NatLe, found);
    SortedSetIsUnique(NatLe, Sort(NatLe, found), scanned);
  }

  // ----- the scan without an index

  method NearestByScan(regions: seq<SafeRegion>, q: Point) returns (selected: nat)
    requires regions != [] && Indexable(regions, |q|)
    ensures NearestOf(regions, q, selected, Iota(|regions|)) && ClosestRegion(regions, q, selected)
  {
    selected := 0;
    var best := DistanceTo(regions, q, 0);
    assert Iota(1) == [0];
    for index := 1 to |regions|
      invariant selected < |regions| && best == DistanceTo(regions, q, selected)
                && NearestOf(regions, q, selected, Iota(index))
    {
      var distance := DistanceTo(regions, q, index);
      assert Iota(index + 1) == Iota(index) + [index];
      if distance < best || (distance == best && regions[index].id < regions[selected].id) {
        NearestTransfers(regions, q, index, selected, Iota(index));
        selected, best := index, distance;
      }
    }
    NearestIsClosest(regions, q, selected);
  }

  /** With unique ids there is one answer, so the index and the scan agree. */
  lemma {:induction false} NearestIsUnique(regions: seq<SafeRegion>, q: Point, i: nat, j: nat)
    requires Indexable(regions, |q|) && forall a, b :: 0 <= a < b < |regions| ==> regions[a].id != regions[b].id
    requires NearestOf(regions, q, i, Iota(|regions|)) && NearestOf(regions, q, j, Iota(|regions|))
    ensures i == j
  {
    assert AsNear(regions, q, i, Iota(|regions|)[j]) && AsNear(regions, q, j, Iota(|regions|)[i]);
  }
}
