/** The shape of the boxes a bisection makes: halves are equal, and repeated
    bisection along the longest axis never lets a box grow lopsided. */
module LectShape {
  import opened Boxes
  import opened Lect
  import opened RefinementExact

  /** The halves agree with the box on every other axis, meet in one value, and are equally wide. */
  lemma {:induction false} HalvesAreEqual(box: Box, d: nat)
    requires d < |box|
    ensures var left, right := LeftHalf(box, d), RightHalf(box, d);
            && |left| == |right| == |box|
            && (forall i :: 0 <= i < |box| && i != d ==> left[i] == right[i] == box[i])
            && left[d].lower == box[d].lower && left[d].upper == right[d].lower && right[d].upper == box[d].upper
            && left[d].Width() == right[d].Width() == box[d].Width() / 2.0
  {
  }

  /** On every axis, the share of the domain's width that is left. */
  ghost predicate Proportional(root: Box, box: Box)
    requires ValidRoot(root) && |box| == |root|
  {
    forall i, j :: 0 <= i < |root| && 0 <= j < |root| ==>
      0.0 < NormalizedWidth(root, box, i) <= 2.0 * NormalizedWidth(root, box, j)
  }

  lemma {:induction false} HalfShare(width: real, rootWidth: real)
    requires rootWidth > 0.0
    ensures (width / 2.0) / rootWidth == (width / rootWidth) / 2.0
  {
  }

  lemma {:induction false} HalvingKeepsProportion(root: Box, box: Box, half: Box)
    requires ValidRoot(root) && |box| == |root| && Proportional(root, box)
    requires var d := LongestAxis(root, box, |root|); half == LeftHalf(box, d) || half == RightHalf(box, d)
    ensures Proportional(root, half)
  {
    var d := LongestAxis(root, box, |root|);
    HalvesAreEqual(box, d);
    HalfShare(box[d].Width(), root[d].Width());
    assert NormalizedWidth(root, half, d) == NormalizedWidth(root, box, d) / 2.0;
    forall i | 0 <= i < |root| && i != d
      ensures NormalizedWidth(root, half, i) == NormalizedWidth(root, box, i) <= NormalizedWidth(root, box, d)
    {
      assert half[i] == box[i];
    }
    forall i, j | 0 <= i < |root| && 0 <= j < |root|
      ensures 0.0 < NormalizedWidth(root, half, i) <= 2.0 * NormalizedWidth(root, half, j)
    {
      assert 0.0 < NormalizedWidth(root, box, i) <= 2.0 * NormalizedWidth(root, box, j);
      assert NormalizedWidth(root, box, d) <= 2.0 * NormalizedWidth(root, box, j);
    }
  }

  lemma {:induction false} RootIsWhole(root: Box)
    requires ValidRoot(root)
    ensures forall i :: 0 <= i < |root| ==> NormalizedWidth(root, root, i) == 1.0
  {
  }

  /** No box below a domain keeps more than twice the share of its width on one axis as on another. */
  lemma {:induction false} BoxesStayProportional(root: Box, key: NodeKey)
    requires ValidRoot(root)
    ensures Proportional(root, BoxOf(root, key))
    decreases key
  {
    if key.Root? {
      RootIsWhole(root);
    } else {
      BoxesStayProportional(root, key.parent);
      HalvingKeepsProportion(root, BoxOf(root, key.parent), BoxOf(root, key));
    }
  }
}
