/** What creating, keeping and loading a calibration profile demand, said of the
    bins themselves: which inputs are accepted, what an identity commits to, and
    how close the figures of a valid profile are to the derived ones. */
module ProfileMeaning {
  import opened Support
  import opened Sequences
  import opened Decimal
  import opened Wilson
  import opened JsonFields
  import opened Profile
  import opened ProfileCodec

  // ----- which inputs are accepted

  /** The bins run from 0 to 1 without gap or overlap, and each holds its own mean. */
  ghost predicate Tiles(bins: seq<BinInput>) {
    && bins != [] && bins[0].lower == 0.0 && Last(bins).upper == 1.0
    && (forall i :: 0 < i < |bins| ==> bins[i].lower == bins[i - 1].upper)
    && (forall i :: 0 <= i < |bins| ==> bins[i].lower < bins[i].upper && Matches(bins, i, bins[i].mean))
  }

  /** Every bin was observed, and succeeded no more often than it was observed. */
  ghost predicate SoundCounts(bins: seq<BinInput>) {
    forall i :: 0 <= i < |bins| ==> 0 < bins[i].samples && bins[i].successes <= bins[i].samples
  }

  /** The ends of tiling bins lie in the unit interval, the inner ones below one. */
  lemma {:induction false} LowersRise(bins: seq<BinInput>, i: nat)
    requires Tiles(bins) && i < |bins|
    ensures 0.0 <= bins[i].lower
  {
    if i > 0 {
      LowersRise(bins, i - 1);
      assert bins[i].lower == bins[i - 1].upper && bins[i - 1].lower < bins[i - 1].upper;
    }
  }

  lemma {:induction false} UppersStayBelow(bins: seq<BinInput>, i: nat)
    requires Tiles(bins) && i < |bins|
    ensures bins[i].upper <= 1.0 && (i + 1 < |bins| ==> bins[i].upper < 1.0)
    decreases |bins| - i
  {
    if i + 1 < |bins| {
      UppersStayBelow(bins, i + 1);
      assert bins[i + 1].lower == bins[i].upper && bins[i + 1].lower < bins[i + 1].upper;
    }
  }

  lemma {:induction false} TilesAreValid(bins: seq<BinInput>, i: nat)
    requires Tiles(bins) && SoundCounts(bins) && i < |bins|
    ensures ValidBin(bins, i)
  {
    LowersRise(bins, i);
    UppersStayBelow(bins, i);
    assert Matches(bins, i, bins[i].mean);
  }

  lemma {:induction false} PartitionTiles(bins: seq<BinInput>)
    requires Partition(bins)
    ensures Tiles(bins) && SoundCounts(bins)
  {
    forall i | 0 <= i < |bins| ensures bins[i].lower < bins[i].upper && Matches(bins, i, bins[i].mean)
      && 0 < bins[i].samples && bins[i].successes <= bins[i].samples
      && (i > 0 ==> bins[i].lower == bins[i - 1].upper) {
      assert ValidBin(bins, i);
    }
    assert ValidBin(bins, 0) && ValidBin(bins, |bins| - 1);
  }

  lemma {:induction false} FewerSamples(bins: seq<BinInput>, n: nat)
    requires n <= |bins|
    ensures TotalSamples(bins[..n]) <= TotalSamples(bins)
    decreases |bins| - n
  {
    if n == |bins| {
      assert bins[..n] == bins;
    } else {
      FewerSamples(bins, n + 1);
      assert bins[..n + 1][..n] == bins[..n];
    }
  }

  lemma {:induction false} NoFailureFor(bins: seq<BinInput>, n: nat)
    requires n <= |bins| && TotalSamples(bins) <= MAXIMUM_SAMPLES
    requires forall i :: 0 <= i < |bins| ==> ValidBin(bins, i)
    ensures BinFailure(bins, n).None?
  {
    if n > 0 {
      NoFailureFor(bins, n - 1);
      FewerSamples(bins, n);
      assert bins[..n][..n - 1] == bins[..n - 1];
    }
  }

  /** An input is accepted exactly when its declarations are, its bins tile [0, 1]
      with sound counts, and there are not too many bins or samples. */
  lemma {:induction false} AcceptedIff(input: ProfileInput)
    ensures Refusal(input).None? <==>
              && ValidScope(input.scope) && Tiles(input.bins) && SoundCounts(input.bins)
              && |input.bins| <= 4096 && TotalSamples(input.bins) <= 1_000_000_000_000
  {
    if Refusal(input).None? {
      AcceptedIsPartition(input);
      PartitionTiles(input.bins);
    }
    if Tiles(input.bins) && SoundCounts(input.bins) && TotalSamples(input.bins) <= 1_000_000_000_000 {
      forall i | 0 <= i < |input.bins| ensures ValidBin(input.bins, i) {
        TilesAreValid(input.bins, i);
      }
      NoFailureFor(input.bins, |input.bins|);
    }
  }

  // ----- the identity

  lemma {:induction false} BinTreeDetermines(a: BinInput, b: BinInput)
    requires BinTree(a) == BinTree(b)
    ensures a == b
  {
    var x, y := BinTree(a).fields, BinTree(b).fields;
    assert x[Key.LowerConfidence] == y[Key.LowerConfidence] && x[Key.UpperConfidence] == y[Key.UpperConfidence];
    assert x[Key.MeanConfidence] == y[Key.MeanConfidence];
    assert x[Key.Samples] == y[Key.Samples] && x[Key.Successes] == y[Key.Successes];
    PrintIsInjective(a.samples, b.samples);
    PrintIsInjective(a.successes, b.successes);
  }

  lemma {:induction false} ScopeIsDetermined(a: ProfileInput, b: ProfileInput)
    requires ProfileTree(a) == ProfileTree(b)
    ensures a.scope == b.scope
  {
    var x, y := ProfileTree(a).fields, ProfileTree(b).fields;
    assert x[Key.PolicyId] == y[Key.PolicyId] && x[Key.PolicyModelDigest] == y[Key.PolicyModelDigest];
    assert x[Key.ScopeId] == y[Key.ScopeId] && x[Key.TaskId] == y[Key.TaskId];
    assert x[Key.DatasetDigest] == y[Key.DatasetDigest] && x[Key.Method] == y[Key.Method];
    assert x[Key.MethodVersion] == y[Key.MethodVersion] && x[Key.OutcomeDefinition] == y[Key.OutcomeDefinition];
    assert x[Key.StateUncertaintyUnit] == y[Key.StateUncertaintyUnit];
    assert x[Key.ActionUncertaintyUnit] == y[Key.ActionUncertaintyUnit];
  }

  lemma {:induction false} BinsAreDetermined(a: ProfileInput, b: ProfileInput)
    requires ProfileTree(a) == ProfileTree(b)
    ensures a.bins == b.bins
  {
    var x, y := ProfileTree(a).fields[Key.Bins].items, ProfileTree(b).fields[Key.Bins].items;
    assert x == y && |x| == |a.bins| && |y| == |b.bins|;
    forall i | 0 <= i < |a.bins| ensures a.bins[i] == b.bins[i] {
      assert x[i] == BinTree(a.bins[i]) && y[i] == BinTree(b.bins[i]);
      BinTreeDetermines(a.bins[i], b.bins[i]);
    }
  }

  /** Unless the two inputs collide, created profiles with one identity are the same profile. */
  lemma {:induction false} ProfileIdCommits(hash: Hash, bound: LowerBound, a: ProfileInput, b: ProfileInput)
    requires CreateProfile(hash, bound, a).Ok? && CreateProfile(hash, bound, b).Ok?
    requires CreateProfile(hash, bound, a).value.id == CreateProfile(hash, bound, b).value.id
    requires hash(ProfileTree(a)) == hash(ProfileTree(b)) ==> ProfileTree(a) == ProfileTree(b)
    ensures a == b && CreateProfile(hash, bound, a) == CreateProfile(hash, bound, b)
  {
    AcceptedIsPartition(a);
    AcceptedIsPartition(b);
    ScopeIsDetermined(a, b);
    BinsAreDetermined(a, b);
  }

  // ----- validity

  /** What a profile declares, and the figures derived from that. */
  predicate SameDeclared(a: CalibrationProfile, b: CalibrationProfile) {
    && a.id == b.id && a.scope == b.scope && a.sampleCount == b.sampleCount && |a.bins| == |b.bins|
    && forall i :: 0 <= i < |a.bins| ==> a.bins[i].source == b.bins[i].source
  }

  predicate NearBin(a: Bin, b: Bin) {
    && Near(a.observedSuccessRate, b.observedSuccessRate) && Near(a.lowerConfidenceBound, b.lowerConfidenceBound)
    && Near(a.absoluteError, b.absoluteError)
  }

  predicate NearFigures(a: CalibrationProfile, b: CalibrationProfile) {
    && Near(a.expectedError, b.expectedError) && Near(a.maximumError, b.maximumError) && |a.bins| == |b.bins|
    && forall i :: 0 <= i < |a.bins| ==> NearBin(a.bins[i], b.bins[i])
  }

  lemma {:induction false} SameDerivedMeans(a: Bin, b: Bin)
    ensures SameDerived(a, b) <==> NearBin(a, b)
  {
    ApproximatelyIsNear(a.observedSuccessRate, b.observedSuccessRate);
    ApproximatelyIsNear(a.lowerConfidenceBound, b.lowerConfidenceBound);
    ApproximatelyIsNear(a.absoluteError, b.absoluteError);
  }

  lemma {:induction false} RebuiltDeclares(hash: Hash, bound: LowerBound, profile: CalibrationProfile)
    requires CreateProfile(hash, bound, InputOf(profile)).Ok?
    ensures var made := CreateProfile(hash, bound, InputOf(profile)).value;
            && made.scope == profile.scope && |made.bins| == |profile.bins|
            && forall i :: 0 <= i < |made.bins| ==> made.bins[i].source == profile.bins[i].source
  {
    AcceptedIsPartition(InputOf(profile));
  }

  /** A profile is valid exactly when some created profile declares the same and
      has figures within rounding of its own. */
  lemma {:induction false} ValidIff(hash: Hash, bound: LowerBound, profile: CalibrationProfile)
    ensures ValidProfile(hash, bound, profile) <==>
              exists made :: IsCreated(hash, bound, made) && SameDeclared(made, profile) && NearFigures(made, profile)
  {
    if CreateProfile(hash, bound, InputOf(profile)).Ok? {
      var made := CreateProfile(hash, bound, InputOf(profile)).value;
      RebuiltDeclares(hash, bound, profile);
      CreatedIsValid(hash, bound, InputOf(profile));
      CompareFigures(made, profile);
      if ValidProfile(hash, bound, profile) {
        assert IsCreated(hash, bound, made) && SameDeclared(made, profile) && NearFigures(made, profile);
      }
    }
    forall made | IsCreated(hash, bound, made) && SameDeclared(made, profile) && NearFigures(made, profile)
      ensures ValidProfile(hash, bound, profile)
    {
      assert InputOf(made).bins == InputOf(profile).bins;
      CompareFigures(made, profile);
    }
  }

  lemma {:induction false} CompareFigures(a: CalibrationProfile, b: CalibrationProfile)
    ensures NearFigures(a, b) <==>
              && ApproximatelyEqual(a.expectedError, b.expectedError)
              && ApproximatelyEqual(a.maximumError, b.maximumError) && |a.bins| == |b.bins|
              && forall i :: 0 <= i < |b.bins| ==> SameDerived(a.bins[i], b.bins[i])
  {
    ApproximatelyIsNear(a.expectedError, b.expectedError);
    ApproximatelyIsNear(a.maximumError, b.maximumError);
    forall i | 0 <= i < |a.bins| && i < |b.bins| ensures SameDerived(a.bins[i], b.bins[i]) <==>
                                                           NearBin(a.bins[i], b.bins[i]) {
      SameDerivedMeans(a.bins[i], b.bins[i]);
    }
  }

  // ----- loading

  lemma {:induction false} ReadHeading(profile: CalibrationProfile, version: string)
    requires DecodeProfileHeading(ProfileJson(profile, version)).Ok?
    ensures profile.sampleCount < TWO_TO_THE_64
    ensures DecodeProfileHeading(ProfileJson(profile, version)) == Ok(HeadingOf(profile))
  {
    HeadingTexts(profile, version);
    HeadingNumbers(profile, version);
    PrintedValue(profile.sampleCount);
  }

  lemma {:induction false} ReadScope(profile: CalibrationProfile, version: string)
    requires DecodeScope(ProfileJson(profile, version)).Ok?
    ensures DecodeScope(ProfileJson(profile, version)) == Ok(profile.scope)
  {
    ScopeNames(profile, version);
    ScopeTerms(profile, version);
  }

  /** A stored profile, whatever it holds, loads exactly when it is valid. */
  lemma {:induction false} LoadsIffValid(hash: Hash, bound: LowerBound, profile: CalibrationProfile, version: string,
                                         maximumBins: nat)
    requires IsSha256(hash) && ValidText(version, MAXIMUM_LABEL) && |profile.bins| <= maximumBins <= MAXIMUM_BINS
    ensures LoadedProfile(hash, bound, ProfileJson(profile, version), maximumBins).Ok? <==>
              ValidProfile(hash, bound, profile)
  {
    if ValidProfile(hash, bound, profile) {
      LoadRederives(hash, bound, profile, version, maximumBins);
    }
    if LoadedProfile(hash, bound, ProfileJson(profile, version), maximumBins).Ok? {
      LoadedWasValid(hash, bound, profile, version, maximumBins);
    }
  }

  lemma {:induction false} LoadedWasValid(hash: Hash, bound: LowerBound, profile: CalibrationProfile, version: string,
                                          maximumBins: nat)
    requires LoadedProfile(hash, bound, ProfileJson(profile, version), maximumBins).Ok?
    ensures ValidProfile(hash, bound, profile)
  {
    var document := ProfileJson(profile, version);
    ReadHeading(profile, version);
    ReadScope(profile, version);
    BinsField(profile, version);
    StoredBinsRoundTrip(profile.bins);
    LoadDecodes(hash, bound, document, maximumBins, HeadingOf(profile), profile.scope,
                EncodeAll(profile.bins, StoredBinJson), profile.bins);
    assert Sources(profile.bins) == InputOf(profile).bins;
  }
}
