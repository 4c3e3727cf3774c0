/** A build that fails for lack of nodes although all boxes it reaches would fit:
    the budget is checked before a box is found too narrow to bisect. */
module NarrowBudget {
  import opened Support
  import opened Boxes
  import opened Certificates
  import opened Lect
  import opened Refinement
  import opened RefinementExact
  import opened RefinementBudget
  import opened AtlasBuilder
  import opened BuiltRefinement
  import opened ToleranceGap

  /** Nothing is certified. */
  function NarrowValidator(): Validator {
    (box: Box) => Ok(RegionValidation(Undetermined, 0.0, []))
  }

  function Domain(): Box {
    [Interval(0.0, 4.0)]
  }

  function NarrowCell(robotDigest: string, sceneDigest: string): Workcell {
    Workcell(robotDigest, sceneDigest, Domain(), 1, "interval", "1", NarrowValidator())
  }

  /** Boxes of half the domain are too narrow, and there may be three nodes. */
  function NarrowOptions(): BuildOptions {
    BuildOptions(3, 3, 0.5, 0.0, 0.0, 1)
  }

  function NarrowRefiner(): Refiner {
    Refiner(NarrowValidator(), [[0.5]], NarrowOptions(), Never())
  }

  function Three(): set<NodeKey> {
    {Root, Left(Root), Right(Root)}
  }

  lemma {:induction false} NarrowRoot()
    ensures ValidRoot(Domain()) && LongestAxis(Domain(), Domain(), 1) == 0
    ensures BoxOf(Domain(), Left(Root)) == [Interval(0.0, 2.0)] && BoxOf(Domain(), Right(Root)) == [Interval(2.0, 4.0)]
    ensures !Unsplittable(Domain(), 0.5, Domain()) && Unsplittable(Domain(), 0.5, [Interval(0.0, 2.0)])
    ensures Unsplittable(Domain(), 0.5, [Interval(2.0, 4.0)])
  {
    assert Domain()[0].Width() == 4.0 && Domain()[0].Center() == 2.0;
    assert LeftHalf(Domain(), 0) == [Interval(0.0, 2.0)] && RightHalf(Domain(), 0) == [Interval(2.0, 4.0)];
  }

  lemma {:induction false} NarrowReached(key: NodeKey)
    ensures SetUp(NarrowRefiner(), Domain())
    ensures key in Three() <==> Reached(NarrowRefiner(), Domain(), key)
    ensures Divisible(NarrowRefiner(), Domain(), key) && Reached(NarrowRefiner(), Domain(), key) ==> key == Root
  {
    var r := NarrowRefiner();
    NarrowRoot();
    assert Passes(Domain(), r.samples[0], Root) && Divisible(r, Domain(), Root);
    assert !Divisible(r, Domain(), Left(Root)) && !Divisible(r, Domain(), Right(Root));
    if !key.Root? {
      NarrowReached(key.parent);
    }
  }

  lemma {:induction false} NarrowDoesNotFit()
    ensures SetUp(NarrowRefiner(), Domain()) && Stubborn(NarrowRefiner(), Domain(), Left(Root))
    ensures NodesBefore(Three(), Left(Root)) == Three() && |Three()| == 3
  {
    var r := NarrowRefiner();
    NarrowRoot();
    NarrowReached(Left(Root));
    assert Passes(Domain(), r.samples[0], Root);
    assert Passes(Domain(), r.samples[0], Left(Root));
    assert Before(Root, Left(Root));
  }

  lemma {:induction false} NarrowRefines(robotDigest: string, sceneDigest: string)
    ensures var cell := NarrowCell(robotDigest, sceneDigest);
            && RefinerFor(cell, [[0.5]], NarrowOptions(), Never()) == NarrowRefiner()
            && ValidOptions(NarrowOptions()) && SampleFailure(cell.domain, [[0.5]]).None?
            && Create(cell.domain, 0.5).Ok?
  {
    OneSample([0.5]);
    assert [[0.5]][..0] == [];
    assert AdmissibleSample(Domain(), [0.5]);
  }

  lemma {:induction false} ThreeAreReached()
    ensures SetUp(NarrowRefiner(), Domain()) && AllReached(NarrowRefiner(), Domain(), Three())
    ensures Undisturbed(NarrowRefiner(), Domain(), Three())
  {
    forall key ensures key in Three() <==> Reached(NarrowRefiner(), Domain(), key) {
      NarrowReached(key);
    }
  }

  /** The three nodes reached fit the budget, none is cancelled or fails to
      validate, and yet the build fails for lack of nodes. */
  lemma {:induction false} BudgetBeforeWidth(hash: Hash, robotDigest: string, sceneDigest: string)
    requires IsSha256(hash)
    ensures var cell := NarrowCell(robotDigest, sceneDigest);
            var r := RefinerFor(cell, [[0.5]], NarrowOptions(), Never());
            && SetUp(r, Domain()) && AllReached(r, Domain(), Three()) && Undisturbed(r, Domain(), Three())
            && |Three()| == r.options.maximumNodes == 3
            && BuildOf(hash, cell, [[0.5]], NarrowOptions(), Never()) == Err(ResourceLimit)
  {
    var cell := NarrowCell(robotDigest, sceneDigest);
    NarrowRefines(robotDigest, sceneDigest);
    NarrowDoesNotFit();
    ThreeAreReached();
    BuildRefinesWithinBudget(cell, [[0.5]], NarrowOptions(), Never());
    assert RefinedState(cell, [[0.5]], NarrowOptions(), Never()) == Err(ResourceLimit);
  }
}
