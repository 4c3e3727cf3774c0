/** Calibration profiles: admission of the reported bins, the statistics derived
    from them, validity by re-derivation, and lookup of a confidence. */
module Profile {
  import opened Support
  import opened Sequences
  import opened Sums
  import opened Wilson
  import opened Decimal

  const MAXIMUM_TEXT: nat := 256
  const MAXIMUM_OUTCOME: nat := 1024
  const MAXIMUM_BINS: nat := 4096
  const MAXIMUM_SAMPLES: nat := 1_000_000_000_000

  datatype BinInput = BinInput(lower: real, upper: real, mean: real, samples: U64, successes: U64)

  /** The declarations a profile is bound to. */
  datatype Scope = Scope(
    policyId: string,
    policyModelDigest: string,
    scopeId: string,
    taskId: string,
    datasetDigest: string,
    methodName: string,
    methodVersion: string,
    outcomeDefinition: string,
    stateUncertaintyUnit: string,
    actionUncertaintyUnit: string)

  datatype ProfileInput = ProfileInput(scope: Scope, bins: seq<BinInput>)

  datatype Bin = Bin(source: BinInput, observedSuccessRate: real, lowerConfidenceBound: real, absoluteError: real)

  datatype CalibrationProfile = CalibrationProfile(
    id: string,
    scope: Scope,
    bins: seq<Bin>,
    sampleCount: nat,
    expectedError: real,
    maximumError: real)

  datatype CalibrationLookup = CalibrationLookup(
    profileId: string,
    binIndex: nat,
    rawConfidence: real,
    calibratedConfidence: real,
    conservativeConfidence: real,
    samples: U64)

  // ----- admission

  predicate ValidScope(scope: Scope) {
    && ValidText(scope.policyId, MAXIMUM_TEXT) && ValidSha256(scope.policyModelDigest)
    && ValidText(scope.scopeId, MAXIMUM_TEXT) && ValidText(scope.taskId, MAXIMUM_TEXT)
    && ValidSha256(scope.datasetDigest) && ValidText(scope.methodName, MAXIMUM_TEXT)
    && ValidText(scope.methodVersion, MAXIMUM_TEXT) && ValidText(scope.outcomeDefinition, MAXIMUM_OUTCOME)
    && ValidText(scope.stateUncertaintyUnit, MAXIMUM_TEXT) && ValidText(scope.actionUncertaintyUnit, MAXIMUM_TEXT)
  }

  /** The bin continues the partition, holds its mean, and has sound counts. */
  predicate ValidBin(bins: seq<BinInput>, index: nat)
    requires index < |bins|
  {
    var bin := bins[index];
    var final := index + 1 == |bins|;
    && 0.0 <= bin.lower
    && bin.lower == (if index == 0 then 0.0 else bins[index - 1].upper)
    && (if final then bin.upper == 1.0 else bin.upper < 1.0)
    && bin.lower < bin.upper
    && bin.lower <= bin.mean
    && (if final then bin.mean <= bin.upper else bin.mean < bin.upper)
    && 0 < bin.samples && bin.successes <= bin.samples
  }

  function TotalSamples(bins: seq<BinInput>): nat {
    if bins == [] then 0 else TotalSamples(bins[..|bins| - 1]) + Last(bins).samples
  }

  /** The failure of the first inadmissible bin among the first `n`. */
  function BinFailure(bins: seq<BinInput>, n: nat): Option<StatusCode>
    requires n <= |bins|
  {
    if n == 0 then None else
      var before := BinFailure(bins, n - 1);
      if before.Some? then before
      else if bins[n - 1].samples > MAXIMUM_SAMPLES
          || TotalSamples(bins[..n - 1]) > MAXIMUM_SAMPLES - bins[n - 1].samples then Some(ResourceLimit)
      else if !ValidBin(bins, n - 1) then Some(InvalidArgument)
      else None
  }

  lemma {:induction false} BinFailurePersists(bins: seq<BinInput>, m: nat, n: nat)
    requires m <= n <= |bins| && BinFailure(bins, m).Some?
    ensures BinFailure(bins, n) == BinFailure(bins, m)
  {
    if m < n {
      BinFailurePersists(bins, m, n - 1);
    }
  }

  ghost predicate Partition(bins: seq<BinInput>) {
    bins != [] && forall i :: 0 <= i < |bins| ==> ValidBin(bins, i)
  }

  lemma {:induction false} NoBinFailure(bins: seq<BinInput>, n: nat)
    requires n <= |bins| && BinFailure(bins, n).None?
    ensures forall i :: 0 <= i < n ==> ValidBin(bins, i)
    ensures TotalSamples(bins[..n]) <= MAXIMUM_SAMPLES
  {
    if n > 0 {
      NoBinFailure(bins, n - 1);
      assert bins[..n][..n - 1] == bins[..n - 1];
    }
  }

  /** Why an input is refused, if it is. */
  function Refusal(input: ProfileInput): Option<StatusCode> {
    if !ValidScope(input.scope) || input.bins == [] then Some(InvalidArgument)
    else if |input.bins| > MAXIMUM_BINS then Some(ResourceLimit)
    else BinFailure(input.bins, |input.bins|)
  }

  /** Accepted bins continue one another from 0 to 1, and their counts stay within the limit. */
  lemma {:induction false} AcceptedIsPartition(input: ProfileInput)
    requires Refusal(input).None?
    ensures Partition(input.bins) && |input.bins| <= MAXIMUM_BINS
    ensures 0 < TotalSamples(input.bins) <= MAXIMUM_SAMPLES
  {
    NoBinFailure(input.bins, |input.bins|);
    assert input.bins[..|input.bins|] == input.bins;
    assert ValidBin(input.bins, |input.bins| - 1);
  }

  // ----- derivation

  function ObservedRate(bin: BinInput): real {
    if bin.samples == 0 then 0.0 else Rate(bin.successes, bin.samples)
  }

  function AbsoluteError(bin: BinInput): real {
    Abs(bin.mean - ObservedRate(bin))
  }

  function Weight(bin: BinInput): real {
    bin.samples as real
  }

  function WeightedError(bin: BinInput): real {
    Weight(bin) * AbsoluteError(bin)
  }

  function Derive(bound: LowerBound, bin: BinInput): Bin {
    Bin(bin, ObservedRate(bin), bound(bin.successes, bin.samples), AbsoluteError(bin))
  }

  function DeriveAll(bound: LowerBound, bins: seq<BinInput>): (derived: seq<Bin>)
    ensures |derived| == |bins| && forall i :: 0 <= i < |bins| ==> derived[i] == Derive(bound, bins[i])
  {
    seq(|bins|, i requires 0 <= i < |bins| => Derive(bound, bins[i]))
  }

  function BinTree(bin: BinInput): Json {
    JObject(map[
      Key.LowerConfidence := JNumber(bin.lower),
      Key.MeanConfidence := JNumber(bin.mean),
      Key.Samples := JString(Print(bin.samples)),
      Key.Successes := JString(Print(bin.successes)),
      Key.UpperConfidence := JNumber(bin.upper)])
  }

  function ProfileTree(input: ProfileInput): Json {
    JObject(map[
      Key.ActionUncertaintyUnit := JString(input.scope.actionUncertaintyUnit),
      Key.Bins := JArray(seq(|input.bins|, i requires 0 <= i < |input.bins| => BinTree(input.bins[i]))),
      Key.DatasetDigest := JString(input.scope.datasetDigest),
      Key.Method := JString(input.scope.methodName),
      Key.MethodVersion := JString(input.scope.methodVersion),
      Key.OutcomeDefinition := JString(input.scope.outcomeDefinition),
      Key.PolicyId := JString(input.scope.policyId),
      Key.PolicyModelDigest := JString(input.scope.policyModelDigest),
      Key.ScopeId := JString(input.scope.scopeId),
      Key.StateUncertaintyUnit := JString(input.scope.stateUncertaintyUnit),
      Key.TaskId := JString(input.scope.taskId)])
  }

  function DeriveProfile(hash: Hash, bound: LowerBound, input: ProfileInput): CalibrationProfile
    requires TotalSamples(input.bins) > 0
  {
    CalibrationProfile(hash(ProfileTree(input)), input.scope, DeriveAll(bound, input.bins), TotalSamples(input.bins),
                       Sum(input.bins, WeightedError) / TotalSamples(input.bins) as real,
                           Largest(input.bins, AbsoluteError))
  }

  function CreateProfile(hash: Hash, bound: LowerBound, input: ProfileInput): Result<CalibrationProfile> {
    if Refusal(input).Some? then Err(Refusal(input).value)
    else
      AcceptedIsPartition(input);
      Ok(DeriveProfile(hash, bound, input))
  }

  /** The derived bins, totals and errors of the bins so far. */
  ghost predicate Totalled(bound: LowerBound, source: seq<BinInput>, bins: seq<Bin>, samples: nat, weightedError: real,
                           maximumError: real) {
    && bins == DeriveAll(bound, source) && samples == TotalSamples(source) <= MAXIMUM_SAMPLES
    && weightedError == Sum(source, WeightedError) && maximumError == Largest(source, AbsoluteError)
  }

  lemma {:induction false} TotalledNext(bound: LowerBound, source: seq<BinInput>, bin: BinInput, bins: seq<Bin>,
                                        samples: nat, weightedError: real, maximumError: real)
    requires Totalled(bound, source, bins, samples, weightedError, maximumError)
    requires samples + bin.samples <= MAXIMUM_SAMPLES
    ensures Totalled(bound, source + [bin], bins + [Derive(bound, bin)], samples + bin.samples,
                     weightedError + WeightedError(bin), Max(maximumError, Derive(bound, bin).absoluteError))
  {
    OneMoreBin(bound, source, bin);
    OneMore(source, bin, WeightedError);
    OneMore(source, bin, AbsoluteError);
  }

  method DeriveBins(bound: LowerBound, source: seq<BinInput>)
    returns (failure: Option<StatusCode>, bins: seq<Bin>, totalSamples: nat, weightedError: real, maximumError: real)
    ensures failure == BinFailure(source, |source|)
    ensures failure.None? ==> bins == DeriveAll(bound, source) && totalSamples == TotalSamples(source)
    ensures failure.None? ==>
              weightedError == Sum(source, WeightedError) && maximumError == Largest(source, AbsoluteError)
  {
    bins, totalSamples, weightedError, maximumError := [], 0, 0.0, 0.0;
    for index := 0 to |source|
      invariant BinFailure(source, index).None?
      invariant Totalled(bound, source[..index], bins, totalSamples, weightedError, maximumError)
    {
      var bin := source[index];
      if bin.samples > MAXIMUM_SAMPLES || totalSamples > MAXIMUM_SAMPLES - bin.samples {
        BinFailurePersists(source, index + 1, |source|);
        return Some(ResourceLimit), bins, totalSamples, weightedError, maximumError;
      }
      if !ValidBin(source, index) {
        BinFailurePersists(source, index + 1, |source|);
        return Some(InvalidArgument), bins, totalSamples, weightedError, maximumError;
      }
      assert source[..index + 1] == source[..index] + [bin];
      TotalledNext(bound, source[..index], bin, bins, totalSamples, weightedError, maximumError);
      var derived := Derive(bound, bin);
      bins := bins + [derived];
      totalSamples := totalSamples + bin.samples;
      weightedError := weightedError + WeightedError(bin);
      maximumError := Max(maximumError, derived.absoluteError);
    }
    assert source[..|source|] == source;
    failure := None;
  }

  lemma {:induction false} OneMoreBin(bound: LowerBound, bins: seq<BinInput>, bin: BinInput)
    ensures DeriveAll(bound, bins + [bin]) == DeriveAll(bound, bins) + [Derive(bound, bin)]
    ensures TotalSamples(bins + [bin]) == TotalSamples(bins) + bin.samples
  {
    var more := bins + [bin];
    assert more[..|more| - 1] == bins && Last(more) == bin;
  }

  method Create(hash: Hash, bound: LowerBound, input: ProfileInput) returns (profile: Result<CalibrationProfile>)
    ensures profile == CreateProfile(hash, bound, input)
  {
    if !ValidScope(input.scope) || input.bins == [] {
      return Err(InvalidArgument);
    }
    if |input.bins| > MAXIMUM_BINS {
      return Err(ResourceLimit);
    }
    var failure, bins, totalSamples, weightedError, maximumError := DeriveBins(bound, input.bins);
    if failure.Some? {
      return Err(failure.value);
    }
    AcceptedIsPartition(input);
    profile := Ok(CalibrationProfile(hash(ProfileTree(input)), input.scope, bins, totalSamples,
                                     weightedError / totalSamples as real, maximumError));
  }

  // ----- validity

  function InputOf(profile: CalibrationProfile): ProfileInput {
    ProfileInput(profile.scope, seq(|profile.bins|, i requires 0 <= i < |profile.bins| => profile.bins[i].source))
  }

  predicate SameDerived(a: Bin, b: Bin) {
    && ApproximatelyEqual(a.observedSuccessRate, b.observedSuccessRate)
    && ApproximatelyEqual(a.lowerConfidenceBound, b.lowerConfidenceBound)
    && ApproximatelyEqual(a.absoluteError, b.absoluteError)
  }

  /** The stored profile agrees with the one derived again from its own counts. */
  predicate ValidProfile(hash: Hash, bound: LowerBound, profile: CalibrationProfile) {
    var rebuilt := CreateProfile(hash, bound, InputOf(profile));
    && rebuilt.Ok? && rebuilt.value.id == profile.id && rebuilt.value.sampleCount == profile.sampleCount
    && ApproximatelyEqual(rebuilt.value.expectedError, profile.expectedError)
    && ApproximatelyEqual(rebuilt.value.maximumError, profile.maximumError)
    && |rebuilt.value.bins| == |profile.bins|
    && forall i :: 0 <= i < |profile.bins| ==> SameDerived(rebuilt.value.bins[i], profile.bins[i])
  }

  lemma {:induction false} ApproximatelyReflexive(x: real)
    ensures ApproximatelyEqual(x, x)
  {
  }

  lemma {:induction false} DerivedInput(hash: Hash, bound: LowerBound, input: ProfileInput)
    requires TotalSamples(input.bins) > 0
    ensures InputOf(DeriveProfile(hash, bound, input)) == input
  {
    assert InputOf(DeriveProfile(hash, bound, input)).bins == input.bins;
  }

  lemma {:induction false} SameDerivedReflexive(bin: Bin)
    ensures SameDerived(bin, bin)
  {
    ApproximatelyReflexive(bin.observedSuccessRate);
    ApproximatelyReflexive(bin.lowerConfidenceBound);
    ApproximatelyReflexive(bin.absoluteError);
  }

  /** The profile is exactly what `create` derives from its own counts, as every
      profile returned by `create` or `load` is. */
  ghost predicate IsCreated(hash: Hash, bound: LowerBound, profile: CalibrationProfile) {
    CreateProfile(hash, bound, InputOf(profile)) == Ok(profile)
  }

  /** Created profiles are valid, and remember their input. */
  lemma {:induction false} CreatedIsValid(hash: Hash, bound: LowerBound, input: ProfileInput)
    requires CreateProfile(hash, bound, input).Ok?
    ensures var profile := CreateProfile(hash, bound, input).value;
            InputOf(profile) == input && IsCreated(hash, bound, profile) && ValidProfile(hash, bound, profile)
  {
    AcceptedIsPartition(input);
    DerivedInput(hash, bound, input);
    var profile := DeriveProfile(hash, bound, input);
    ApproximatelyReflexive(profile.expectedError);
    ApproximatelyReflexive(profile.maximumError);
    forall i | 0 <= i < |profile.bins| ensures SameDerived(profile.bins[i], profile.bins[i]) {
      SameDerivedReflexive(profile.bins[i]);
    }
  }

  /** Validity is about the declared counts: they form an acceptable input. */
  lemma {:induction false} ValidIsPartition(hash: Hash, bound: LowerBound, profile: CalibrationProfile)
    requires ValidProfile(hash, bound, profile)
    ensures Refusal(InputOf(profile)).None? && Partition(InputOf(profile).bins)
    ensures profile.sampleCount == TotalSamples(InputOf(profile).bins) > 0 && |profile.bins| <= MAXIMUM_BINS
    ensures profile.id == hash(ProfileTree(InputOf(profile)))
  {
    AcceptedIsPartition(InputOf(profile));
  }

  // ----- the partition of [0, 1]

  /** The confidence belongs to the bin: left-closed, and right-open except for the last bin. */
  predicate Matches(bins: seq<BinInput>, index: nat, confidence: real)
    requires index < |bins|
  {
    && bins[index].lower <= confidence
    && (confidence < bins[index].upper || (index + 1 == |bins| && confidence == bins[index].upper))
  }

  lemma {:induction false} UppersIncrease(bins: seq<BinInput>, i: nat, j: nat)
    requires Partition(bins) && i < j < |bins|
    ensures bins[i].upper <= bins[j].lower
  {
    assert ValidBin(bins, j);
    if i + 1 < j {
      UppersIncrease(bins, i, j - 1);
      assert ValidBin(bins, j - 1);
    }
  }

  /** The first bin, from `i` on, that holds a confidence at or above `bins[i].lower`. */
  lemma {:induction false} SomeBinMatches(bins: seq<BinInput>, i: nat, confidence: real) returns (index: nat)
    requires Partition(bins) && i < |bins| && bins[i].lower <= confidence <= 1.0
    ensures i <= index < |bins| && Matches(bins, index, confidence)
    decreases |bins| - i
  {
    assert ValidBin(bins, i);
    if confidence < bins[i].upper || i + 1 == |bins| {
      index := i;
    } else {
      assert ValidBin(bins, i + 1);
      index := SomeBinMatches(bins, i + 1, confidence);
    }
  }

  lemma {:induction false} AtMostOneBinMatches(bins: seq<BinInput>, i: nat, j: nat, confidence: real)
    requires Partition(bins) && i < |bins| && j < |bins|
    requires Matches(bins, i, confidence) && Matches(bins, j, confidence)
    ensures i == j
  {
    if i < j {
      UppersIncrease(bins, i, j);
    } else if j < i {
      UppersIncrease(bins, j, i);
    }
  }

  // ----- lookup

  /** The index of the first matching bin at or after `i`, if any. */
  function FirstMatch(bins: seq<BinInput>, i: nat, confidence: real): (found: Option<nat>)
    requires i <= |bins|
    ensures found.Some? ==> i <= found.value < |bins| && Matches(bins, found.value, confidence)
    decreases |bins| - i
  {
    if i == |bins| then None
    else if Matches(bins, i, confidence) then Some(i)
    else FirstMatch(bins, i + 1, confidence)
  }

  function LookupAt(profile: CalibrationProfile, index: nat, confidence: real): CalibrationLookup
    requires index < |profile.bins|
  {
    var bin := profile.bins[index];
    CalibrationLookup(profile.id, index, confidence, bin.observedSuccessRate,
                      Min(confidence, bin.lowerConfidenceBound), bin.source.samples)
  }

  function LookupOf(profile: CalibrationProfile, confidence: real): Result<CalibrationLookup> {
    if profile.id == "" || profile.bins == [] || confidence < 0.0 || confidence > 1.0 then Err(InvalidArgument)
    else match FirstMatch(InputOf(profile).bins, 0, confidence)
         case None => Err(InternalError)
         case Some(index) => Ok(LookupAt(profile, index, confidence))
  }

  method Lookup(profile: CalibrationProfile, confidence: real) returns (result: Result<CalibrationLookup>)
    ensures result == LookupOf(profile, confidence)
  {
    if profile.id == "" || profile.bins == [] || confidence < 0.0 || confidence > 1.0 {
      return Err(InvalidArgument);
    }
    ghost var bins := InputOf(profile).bins;
    for index := 0 to |profile.bins|
      invariant FirstMatch(bins, 0, confidence) == FirstMatch(bins, index, confidence)
    {
      var bin := profile.bins[index].source;
      if confidence >= bin.lower
          && (confidence < bin.upper || (index + 1 == |profile.bins| && confidence == bin.upper)) {
        return Ok(LookupAt(profile, index, confidence));
      }
    }
    result := Err(InternalError);
  }

  lemma {:induction false} FirstMatchFound(bins: seq<BinInput>, i: nat, index: nat, confidence: real)
    requires Partition(bins) && i <= index < |bins| && Matches(bins, index, confidence)
    ensures FirstMatch(bins, i, confidence) == Some(index)
    decreases index - i
  {
    if Matches(bins, i, confidence) {
      AtMostOneBinMatches(bins, i, index, confidence);
    } else {
      FirstMatchFound(bins, i + 1, index, confidence);
    }
  }

  /** The bins of a valid profile partition [0, 1]: every confidence belongs to
      exactly one, and that is the one looked up. */
  lemma {:induction false} LookupIsTotal(hash: Hash, bound: LowerBound, profile: CalibrationProfile, confidence: real)
    returns (index: nat)
    requires ValidProfile(hash, bound, profile) && 0.0 <= confidence <= 1.0
    ensures profile.bins != [] && index < |profile.bins| && Matches(InputOf(profile).bins, index, confidence)
    ensures forall i :: 0 <= i < |profile.bins| && Matches(InputOf(profile).bins, i, confidence) ==> i == index
    ensures profile.id != "" ==> LookupOf(profile, confidence) == Ok(LookupAt(profile, index, confidence))
  {
    ValidIsPartition(hash, bound, profile);
    var bins := InputOf(profile).bins;
    assert ValidBin(bins, 0);
    index := SomeBinMatches(bins, 0, confidence);
    FirstMatchFound(bins, 0, index, confidence);
    forall i | 0 <= i < |profile.bins| && Matches(bins, i, confidence) ensures i == index {
      AtMostOneBinMatches(bins, i, index, confidence);
    }
  }

  /** The conservative confidence raises neither the reported confidence nor the
      observed success rate of the bin. */
  lemma {:induction false} LookupIsConservative(hash: Hash, bound: LowerBound, profile: CalibrationProfile, index: nat,
                                                confidence: real)
    requires IsConservative(bound) && IsCreated(hash, bound, profile) && index < |profile.bins| && confidence >= 0.0
    ensures var found := LookupAt(profile, index, confidence);
            && 0.0 <= found.conservativeConfidence <= confidence
            && found.conservativeConfidence <= found.calibratedConfidence
                == ObservedRate(profile.bins[index].source) <= 1.0
  {
    var input := InputOf(profile);
    AcceptedIsPartition(input);
    assert ValidBin(input.bins, index);
    assert profile.bins[index] == Derive(bound, input.bins[index]);
    RateIsUnit(input.bins[index].successes, input.bins[index].samples);
  }

  // ----- calibration error

  lemma {:induction false} AbsoluteErrorIsUnit(bins: seq<BinInput>, i: nat)
    requires Partition(bins) && i < |bins|
    ensures 0.0 <= AbsoluteError(bins[i]) <= 1.0
  {
    assert ValidBin(bins, i);
    RateIsUnit(bins[i].successes, bins[i].samples);
    if i + 1 < |bins| {
      assert bins[i].upper < 1.0;
    }
  }

  lemma {:induction false} TotalIsSum(bins: seq<BinInput>)
    ensures Sum(bins, Weight) == TotalSamples(bins) as real
  {
    if bins != [] {
      TotalIsSum(bins[..|bins| - 1]);
    }
  }

  lemma {:induction false} WeightedTerm(bin: BinInput, limit: real)
    requires 0.0 <= AbsoluteError(bin) <= limit
    ensures 0.0 <= WeightedError(bin) <= limit * Weight(bin)
  {
    NonNegative(Weight(bin), AbsoluteError(bin));
    NonNegative(Weight(bin), limit - AbsoluteError(bin));
    Distributes(Weight(bin), limit, -AbsoluteError(bin));
  }

  lemma {:induction false} WeightedTerms(bins: seq<BinInput>, limit: real)
    requires forall i :: 0 <= i < |bins| ==> 0.0 <= AbsoluteError(bins[i]) <= limit
    ensures forall i :: 0 <= i < |bins| ==> 0.0 <= WeightedError(bins[i]) <= limit * Weight(bins[i])
  {
    forall i | 0 <= i < |bins| ensures 0.0 <= WeightedError(bins[i]) <= limit * Weight(bins[i]) {
      WeightedTerm(bins[i], limit);
    }
  }

  lemma {:induction false} WeightedBelowMaximum(bins: seq<BinInput>, limit: real)
    requires forall i :: 0 <= i < |bins| ==> 0.0 <= AbsoluteError(bins[i]) <= limit
    ensures 0.0 <= Sum(bins, WeightedError) <= limit * Sum(bins, Weight)
  {
    WeightedTerms(bins, limit);
    SumWithin(bins, WeightedError, limit, Weight);
  }

  lemma {:induction false} QuotientBounds(a: real, n: real, limit: real)
    requires n > 0.0 && 0.0 <= a <= limit * n
    ensures 0.0 <= a / n <= limit
  {
    ShareSign(a, n);
    assert (a / n) * n == a;
    assert n * (limit - a / n) == n * limit - a;
    SignOfFactor(n, limit - a / n);
  }

  lemma {:induction false} LargestErrorIsUnit(bins: seq<BinInput>)
    requires Partition(bins)
    ensures 0.0 <= Largest(bins, AbsoluteError) <= 1.0
    ensures forall i :: 0 <= i < |bins| ==> 0.0 <= AbsoluteError(bins[i]) <= Largest(bins, AbsoluteError)
  {
    forall i | 0 <= i < |bins| ensures 0.0 <= AbsoluteError(bins[i]) <= 1.0 {
      AbsoluteErrorIsUnit(bins, i);
    }
    LargestBounds(bins, AbsoluteError);
    LargestAtMost(bins, AbsoluteError, 1.0);
  }

  lemma {:induction false} MeanErrorBelow(bins: seq<BinInput>, errors: real, samples: real, limit: real)
    requires forall i :: 0 <= i < |bins| ==> 0.0 <= AbsoluteError(bins[i]) <= limit
    requires errors == Sum(bins, WeightedError) && samples == Sum(bins, Weight) && samples > 0.0
    ensures 0.0 <= errors / samples <= limit
  {
    assert 0.0 <= errors <= limit * samples by {
      WeightedBelowMaximum(bins, limit);
    }
    QuotientBounds(errors, samples, limit);
  }

  lemma {:induction false} DerivedErrorsAreOrdered(bins: seq<BinInput>)
    requires Partition(bins) && TotalSamples(bins) > 0
    ensures 0.0 <= Sum(bins, WeightedError) / TotalSamples(bins) as real <= Largest(bins, AbsoluteError) <= 1.0
  {
    LargestErrorIsUnit(bins);
    TotalIsSum(bins);
    MeanErrorBelow(bins, Sum(bins, WeightedError), TotalSamples(bins) as real, Largest(bins, AbsoluteError));
  }

  /** Expected error is at most maximum error, which is at most one. */
  lemma {:induction false} ErrorsAreOrdered(hash: Hash, bound: LowerBound, profile: CalibrationProfile)
    requires IsCreated(hash, bound, profile)
    ensures 0.0 <= profile.expectedError <= profile.maximumError <= 1.0
  {
    AcceptedIsPartition(InputOf(profile));
    DerivedErrorsAreOrdered(InputOf(profile).bins);
  }
}
