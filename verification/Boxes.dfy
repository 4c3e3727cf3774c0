/** Axis-aligned boxes of configuration space: closed membership with a
    tolerance, overlap, the rectangular union used by region merging, and the
    intersection witness used by routing. */
module Boxes {
  import opened Support

  datatype Interval = Interval(lower: real, upper: real) {
    predicate Valid() {
      lower <= upper
    }

    function Width(): real {
      upper - lower
    }

    function Center(): real {
      0.5 * (lower + upper)
    }

    predicate Contains(value: real, tolerance: real) {
      lower - tolerance <= value <= upper + tolerance
    }

    predicate Overlaps(other: Interval, tolerance: real) {
      lower <= other.upper + tolerance && other.lower <= upper + tolerance
    }
  }

  type Box = seq<Interval>
  type Point = seq<real>

  predicate ValidBox(box: Box) {
    box != [] && forall i :: 0 <= i < |box| ==> box[i].Valid()
  }

  predicate Contains(box: Box, q: Point, tolerance: real) {
    |q| == |box| && forall i :: 0 <= i < |box| ==> box[i].Contains(q[i], tolerance)
  }

  predicate In(q: Point, box: Box) {
    Contains(box, q, 0.0)
  }

  predicate Overlaps(a: Box, b: Box, tolerance: real) {
    |a| == |b| && forall i :: 0 <= i < |a| ==> a[i].Overlaps(b[i], tolerance)
  }

  // ----- rectangular union

  predicate SameAxis(a: Interval, b: Interval, tolerance: real) {
    Abs(a.lower - b.lower) <= tolerance && Abs(a.upper - b.upper) <= tolerance
  }

  function HullAxis(a: Interval, b: Interval): Interval {
    Interval(Min(a.lower, b.lower), Max(a.upper, b.upper))
  }

  function Hull(a: Box, b: Box): (hull: Box)
    requires |a| == |b|
    ensures |hull| == |a|
  {
    seq(|a|, i requires 0 <= i < |a| => HullAxis(a[i], b[i]))
  }

  /** The boxes agree on all axes but at most one, and overlap on that one. */
  predicate Stackable(a: Box, b: Box, tolerance: real) {
    && |a| == |b|
    && (forall i, j :: 0 <= i < j < |a| ==> SameAxis(a[i], b[i], tolerance) || SameAxis(a[j], b[j], tolerance))
    && (forall i :: 0 <= i < |a| ==> SameAxis(a[i], b[i], tolerance) || a[i].Overlaps(b[i], tolerance))
  }

  function UnionOf(a: Box, b: Box, tolerance: real): Option<Box> {
    if Stackable(a, b, tolerance) then Some(Hull(a, b)) else None
  }

  method RectangularUnion(a: Box, b: Box, tolerance: real) returns (r: Option<Box>)
    ensures r == UnionOf(a, b, tolerance)
  {
    if |a| != |b| {
      return None;
    }
    var axes: Box := [];
    var differing := 0;
    ghost var last := 0;  // the differing axis, when there is one
    for d := 0 to |a|
      invariant |axes| == d && forall i :: 0 <= i < d ==> axes[i] == HullAxis(a[i], b[i])
      invariant 0 <= differing <= 1
      invariant differing == 1 ==> last < d && !SameAxis(a[last], b[last], tolerance)
      invariant forall i :: 0 <= i < d && (differing == 0 || i != last) ==> SameAxis(a[i], b[i], tolerance)
      invariant forall i :: 0 <= i < d ==> SameAxis(a[i], b[i], tolerance) || a[i].Overlaps(b[i], tolerance)
    {
      if !SameAxis(a[d], b[d], tolerance) {
        differing := differing + 1;
        if differing > 1 || !a[d].Overlaps(b[d], tolerance) {
          return None;
        }
        last := d;
      }
      axes := axes + [HullAxis(a[d], b[d])];
    }
    assert axes == Hull(a, b);
    r := Some(axes);
  }

  /** Whatever the tolerance, the union covers both boxes, up to any slack. */
  lemma {:induction false} UnionCovers(a: Box, b: Box, tolerance: real, q: Point, slack: real)
    requires UnionOf(a, b, tolerance).Some?
    requires Contains(a, q, slack) || Contains(b, q, slack)
    ensures Contains(UnionOf(a, b, tolerance).value, q, slack)
  {
    forall i | 0 <= i < |a| ensures Hull(a, b)[i].Contains(q[i], slack) {
      if Contains(a, q, slack) {
        assert a[i].Contains(q[i], slack);
      } else {
        assert b[i].Contains(q[i], slack);
      }
    }
  }

  /** At tolerance zero the union of two valid boxes adds no configuration. */
  lemma {:induction false} UnionIsExact(a: Box, b: Box, q: Point)
    requires ValidBox(a) && ValidBox(b) && UnionOf(a, b, 0.0).Some?
    ensures In(q, UnionOf(a, b, 0.0).value) <==> In(q, a) || In(q, b)
  {
    var hull := Hull(a, b);
    if In(q, a) || In(q, b) {
      UnionCovers(a, b, 0.0, q, 0.0);
    }
    if In(q, hull) && !In(q, a) {
      var k :| 0 <= k < |a| && !a[k].Contains(q[k], 0.0);
      assert hull[k].Contains(q[k], 0.0);
      assert !SameAxis(a[k], b[k], 0.0);
      forall i | 0 <= i < |b| ensures b[i].Contains(q[i], 0.0) {
        assert hull[i].Contains(q[i], 0.0);
        if i != k {
          assert SameAxis(a[i], b[i], 0.0);
        } else {
          assert a[k].Overlaps(b[k], 0.0) && a[k].Valid() && b[k].Valid();
        }
      }
    }
  }

  lemma {:induction false} UnionIsValid(a: Box, b: Box, tolerance: real)
    requires ValidBox(a) && ValidBox(b) && UnionOf(a, b, tolerance).Some?
    ensures ValidBox(UnionOf(a, b, tolerance).value)
  {
    forall i | 0 <= i < |a| ensures Hull(a, b)[i].Valid() {
      assert a[i].Valid() && b[i].Valid();
    }
  }

  // ----- intersection witness

  predicate Meets(a: Interval, b: Interval) {
    Max(a.lower, b.lower) <= Min(a.upper, b.upper)
  }

  function Middle(a: Interval, b: Interval): real {
    0.5 * (Max(a.lower, b.lower) + Min(a.upper, b.upper))
  }

  function Middles(a: Box, b: Box): (q: Point)
    requires |a| == |b|
    ensures |q| == |a|
  {
    seq(|a|, i requires 0 <= i < |a| => Middle(a[i], b[i]))
  }

  /** The middle of the intersection, when the boxes share a configuration. */
  function WitnessOf(a: Box, b: Box): Option<Point> {
    if |a| == |b| && forall i :: 0 <= i < |a| ==> Meets(a[i], b[i]) then Some(Middles(a, b)) else None
  }

  method IntersectionWitness(a: Box, b: Box) returns (r: Option<Point>)
    ensures r == WitnessOf(a, b)
  {
    if |a| != |b| {
      return None;
    }
    var found: Point := [];
    for axis := 0 to |a|
      invariant |found| == axis
      invariant forall i :: 0 <= i < axis ==> Meets(a[i], b[i]) && found[i] == Middle(a[i], b[i])
    {
      var lower := Max(a[axis].lower, b[axis].lower);
      var upper := Min(a[axis].upper, b[axis].upper);
      if lower > upper {
        return None;
      }
      found := found + [0.5 * (lower + upper)];
    }
    assert found == Middles(a, b);
    r := Some(found);
  }

  lemma {:induction false} WitnessIsShared(a: Box, b: Box)
    requires WitnessOf(a, b).Some?
    ensures In(WitnessOf(a, b).value, a) && In(WitnessOf(a, b).value, b)
  {
    var w := WitnessOf(a, b).value;
    forall i | 0 <= i < |a| ensures a[i].Contains(w[i], 0.0) && b[i].Contains(w[i], 0.0) {
      assert Meets(a[i], b[i]);
      assert w[i] == Middle(a[i], b[i]);
    }
  }

  /** On every axis as far from the lower end of what the boxes share as from its upper end. */
  ghost predicate Amid(w: Point, a: Box, b: Box) {
    && |w| == |a| == |b|
    && forall i :: 0 <= i < |w| ==> 0.0 <= w[i] - Max(a[i].lower, b[i].lower) == Min(a[i].upper, b[i].upper) - w[i]
  }

  /** The ends named there are the ends of the shared box. */
  lemma {:induction false} SharedEnds(a: Box, b: Box, q: Point)
    requires |a| == |b| == |q|
    ensures In(q, a) && In(q, b) <==>
            forall i :: 0 <= i < |q| ==> Max(a[i].lower, b[i].lower) <= q[i] <= Min(a[i].upper, b[i].upper)
  {
    if In(q, a) && In(q, b) {
      forall i | 0 <= i < |q| ensures Max(a[i].lower, b[i].lower) <= q[i] <= Min(a[i].upper, b[i].upper) {
        assert a[i].Contains(q[i], 0.0) && b[i].Contains(q[i], 0.0);
      }
    }
  }

  /** The witness is in the middle of what the boxes share. */
  lemma {:induction false} WitnessIsAmid(a: Box, b: Box)
    requires WitnessOf(a, b).Some?
    ensures Amid(WitnessOf(a, b).value, a, b)
  {
    var w := WitnessOf(a, b).value;
    forall i | 0 <= i < |w|
      ensures 0.0 <= w[i] - Max(a[i].lower, b[i].lower) == Min(a[i].upper, b[i].upper) - w[i]
    {
      assert Meets(a[i], b[i]) && w[i] == Middle(a[i], b[i]);
    }
  }

  /** Two boxes have a witness exactly when they share some configuration. */
  lemma {:induction false} WitnessIffShared(a: Box, b: Box)
    ensures WitnessOf(a, b).Some? <==> exists q :: In(q, a) && In(q, b)
  {
    if WitnessOf(a, b).Some? {
      WitnessIsShared(a, b);
    }
    forall q | In(q, a) && In(q, b) ensures WitnessOf(a, b).Some? {
      forall i | 0 <= i < |a| ensures Meets(a[i], b[i]) {
        assert a[i].Contains(q[i], 0.0) && b[i].Contains(q[i], 0.0);
      }
    }
  }

  lemma {:induction false} WitnessIsSymmetric(a: Box, b: Box)
    ensures WitnessOf(a, b) == WitnessOf(b, a)
  {
    if |a| == |b| {
      assert forall i :: 0 <= i < |a| ==> Meets(a[i], b[i]) == Meets(b[i], a[i]);
      if WitnessOf(a, b).Some? {
        assert WitnessOf(a, b).value == WitnessOf(b, a).value;
      }
    }
  }

  lemma {:induction false} WitnessImpliesOverlap(a: Box, b: Box, tolerance: real)
    requires WitnessOf(a, b).Some? && tolerance >= 0.0
    ensures Overlaps(a, b, tolerance)
  {
    forall i | 0 <= i < |a| ensures a[i].Overlaps(b[i], tolerance) {
      assert Meets(a[i], b[i]);
    }
  }

  /** At tolerance zero, overlapping valid boxes share a configuration. */
  lemma {:induction false} OverlapImpliesWitness(a: Box, b: Box)
    requires ValidBox(a) && ValidBox(b) && Overlaps(a, b, 0.0)
    ensures WitnessOf(a, b).Some?
  {
    forall i | 0 <= i < |a| ensures Meets(a[i], b[i]) {
      assert a[i].Overlaps(b[i], 0.0) && a[i].Valid() && b[i].Valid();
    }
  }

  // ----- what the tolerances mean

  /** Two axes end at the same values, up to the tolerance. */
  ghost predicate SameEnds(a: Interval, b: Interval, tolerance: real) {
    && a.lower - tolerance <= b.lower <= a.lower + tolerance
    && a.upper - tolerance <= b.upper <= a.upper + tolerance
  }

  /** Two boxes have a union exactly when they end at the same values on every
      axis, or on every axis but one, on which they overlap; all up to the tolerance. */
  lemma {:induction false} UnionIff(a: Box, b: Box, tolerance: real)
    ensures UnionOf(a, b, tolerance).Some? <==>
              && |a| == |b|
              && exists k: nat {:trigger AgreeBut(a, b, tolerance, k)} :: AgreeBut(a, b, tolerance, k)
  {
    if |a| == |b| && Stackable(a, b, tolerance) {
      if i :| 0 <= i < |a| && !SameAxis(a[i], b[i], tolerance) {
        assert AgreeBut(a, b, tolerance, i);
      } else {
        assert AgreeBut(a, b, tolerance, |a|);
      }
    }
  }

  /** The boxes end at the same values on all axes but `k`, on which they overlap. */
  ghost predicate AgreeBut(a: Box, b: Box, tolerance: real, k: nat)
    requires |a| == |b|
  {
    && (forall i :: 0 <= i < |a| && i != k ==> SameEnds(a[i], b[i], tolerance))
    && (k < |a| ==> SameEnds(a[k], b[k], tolerance) || a[k].Overlaps(b[k], tolerance))
  }

  /** The union is the least box with both boxes in it. */
  lemma {:induction false} UnionIsLeast(a: Box, b: Box, tolerance: real, other: Box)
    requires ValidBox(a) && ValidBox(b) && UnionOf(a, b, tolerance).Some? && |other| == |a|
    requires forall q :: In(q, a) || In(q, b) ==> In(q, other)
    ensures forall i :: 0 <= i < |a| ==>
              other[i].lower <= UnionOf(a, b, tolerance).value[i].lower
              && UnionOf(a, b, tolerance).value[i].upper <= other[i].upper
  {
    CornersAreIn(a, other);
    CornersAreIn(b, other);
  }

  lemma {:induction false} CornersAreIn(box: Box, other: Box)
    requires ValidBox(box) && |other| == |box| && forall q :: In(q, box) ==> In(q, other)
    ensures forall i :: 0 <= i < |box| ==> other[i].lower <= box[i].lower && box[i].upper <= other[i].upper
  {
    var low: Point := seq(|box|, i requires 0 <= i < |box| => box[i].lower);
    var high: Point := seq(|box|, i requires 0 <= i < |box| => box[i].upper);
    assert In(low, box) && In(high, box) by {
      forall i | 0 <= i < |box| ensures box[i].Contains(low[i], 0.0) && box[i].Contains(high[i], 0.0) {
        assert box[i].Valid();
      }
    }
    forall i | 0 <= i < |box| ensures other[i].lower <= box[i].lower && box[i].upper <= other[i].upper {
      assert other[i].Contains(low[i], 0.0) && other[i].Contains(high[i], 0.0);
    }
  }

  /** On every axis the configurations are no farther apart than the tolerance. */
  ghost predicate Within(p: Point, q: Point, tolerance: real) {
    |p| == |q| && forall i :: 0 <= i < |p| ==> p[i] - tolerance <= q[i] <= p[i] + tolerance
  }

  /** Valid boxes overlap exactly when some configurations of theirs are within the tolerance. */
  lemma {:induction false} OverlapsIffWithin(a: Box, b: Box, tolerance: real)
    requires ValidBox(a) && ValidBox(b) && tolerance >= 0.0
    ensures Overlaps(a, b, tolerance) <==> exists p, q :: In(p, a) && In(q, b) && Within(p, q, tolerance)
  {
    if Overlaps(a, b, tolerance) {
      var p: Point := seq(|a|, i requires 0 <= i < |a| => Nearest(a[i], b[i]));
      var q: Point := seq(|a|, i requires 0 <= i < |a| => Nearest(b[i], a[i]));
      forall i | 0 <= i < |a|
        ensures a[i].Contains(p[i], 0.0) && b[i].Contains(q[i], 0.0)
        ensures p[i] - tolerance <= q[i] <= p[i] + tolerance
      {
        assert a[i].Valid() && b[i].Valid() && a[i].Overlaps(b[i], tolerance);
      }
      assert In(p, a) && In(q, b) && Within(p, q, tolerance);
    }
    forall p, q | In(p, a) && In(q, b) && Within(p, q, tolerance) ensures Overlaps(a, b, tolerance) {
      forall i | 0 <= i < |a| ensures a[i].Overlaps(b[i], tolerance) {
        assert a[i].Contains(p[i], 0.0) && b[i].Contains(q[i], 0.0);
      }
    }
  }

  /** The value of the first interval that is nearest to the second. */
  function Nearest(a: Interval, b: Interval): real {
    if a.upper < b.lower then a.upper else Max(a.lower, b.lower)
  }

  // ----- convexity

  function Lerp(p: Point, q: Point, t: real): (r: Point)
    requires |p| == |q|
    ensures |r| == |p|
  {
    seq(|p|, i requires 0 <= i < |p| => (1.0 - t) * p[i] + t * q[i])
  }

  lemma {:induction false} LerpWithin(lower: real, upper: real, a: real, b: real, t: real)
    requires lower <= a <= upper && lower <= b <= upper && 0.0 <= t <= 1.0
    ensures lower <= (1.0 - t) * a + t * b <= upper
  {
    assert (1.0 - t) * (a - lower) >= 0.0 && t * (b - lower) >= 0.0;
    assert (1.0 - t) * (upper - a) >= 0.0 && t * (upper - b) >= 0.0;
  }

  /** A box contains every segment between two of its configurations. */
  lemma {:induction false} BoxIsConvex(box: Box, p: Point, q: Point, t: real)
    requires In(p, box) && In(q, box) && 0.0 <= t <= 1.0
    ensures In(Lerp(p, q, t), box)
  {
    forall i | 0 <= i < |box| ensures box[i].Contains(Lerp(p, q, t)[i], 0.0) {
      assert box[i].Contains(p[i], 0.0) && box[i].Contains(q[i], 0.0);
      LerpWithin(box[i].lower, box[i].upper, p[i], q[i], t);
    }
  }
}
