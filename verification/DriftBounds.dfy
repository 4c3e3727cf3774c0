/** Inequalities that hold between the drift statistics of every admitted window. */
module DriftBounds {
  import opened Support
  import opened Sums
  import opened Wilson
  import opened Profile
  import opened Drift

  function BaselineFraction(bin: WindowBin): real {
    bin.baselineFraction
  }

  function ObservedFraction(bin: WindowBin): real {
    bin.observedFraction
  }

  function BaselineMass(bin: WindowBin): real {
    bin.baselineFraction * bin.baselineSuccessRate
  }

  function ObservedMass(bin: WindowBin): real {
    bin.observedFraction * bin.observedSuccessRate
  }

  function TotalFraction(bin: WindowBin): real {
    bin.baselineFraction + bin.observedFraction
  }

  // ----- shares

  lemma {:induction false} RatesAdd(a: nat, b: nat, whole: nat)
    requires whole > 0
    ensures Rate(a + b, whole) == Rate(a, whole) + Rate(b, whole)
  {
  }

  lemma {:induction false} SharesAdd(a: nat, b: nat, whole: nat)
    ensures Share(a + b, whole) == Share(a, whole) + Share(b, whole)
  {
    if whole > 0 {
      RatesAdd(a, b, whole);
    }
  }

  lemma {:induction false} ShareIsUnit(part: nat, whole: nat)
    requires part <= whole
    ensures Unit(Share(part, whole))
  {
    if whole > 0 {
      RateIsUnit(part, whole);
    }
  }

  lemma {:induction false} WholeShare(whole: nat)
    requires whole > 0
    ensures Share(whole, whole) == 1.0
  {
  }

  lemma {:induction false} Cancel(a: real, b: real, c: real)
    requires b > 0.0 && c > 0.0
    ensures (b / c) * (a / b) == a / c
  {
    assert (b / c) * (a / b) == (a / b) * b / c;
  }

  /** The share of a part in its bin, times the share of the bin in the whole, is the share of the part in the whole. */
  lemma {:induction false} SharesMultiply(part: nat, bin: nat, whole: nat)
    requires part <= bin && whole > 0
    ensures Share(bin, whole) * Share(part, bin) == Share(part, whole)
  {
    if bin > 0 {
      Cancel(part as real, bin as real, whole as real);
    }
  }

  // ----- the masses of a comparison add up

  lemma {:induction false} ComparedPrefix(baseline: seq<Bin>, profileSamples: nat, observed: seq<WindowBinInput>,
                                          total: nat, n: nat)
    requires |observed| == |baseline| && 0 < n <= |observed|
    ensures var bins := CompareAll(baseline, profileSamples, observed, total);
            bins[..n] == bins[..n - 1] + [Compare(baseline[n - 1], profileSamples, observed[n - 1], total)]
  {
  }

  lemma {:induction false} SourcePrefix(bins: seq<BinInput>, n: nat)
    requires 0 < n <= |bins|
    ensures TotalSamples(bins[..n]) == TotalSamples(bins[..n - 1]) + bins[n - 1].samples
  {
    assert bins[..n][..n - 1] == bins[..n - 1];
  }

  lemma {:induction false} WindowPrefix(bins: seq<WindowBinInput>, n: nat)
    requires 0 < n <= |bins|
    ensures WindowSamples(bins[..n]) == WindowSamples(bins[..n - 1]) + bins[n - 1].samples
    ensures WindowSuccesses(bins[..n]) == WindowSuccesses(bins[..n - 1]) + bins[n - 1].successes
  {
    assert bins[..n][..n - 1] == bins[..n - 1];
  }

  lemma {:induction false} RatePrefix(bins: seq<Bin>, total: nat, n: nat)
    requires 0 < n <= |bins|
    ensures BaselineRate(bins[..n], total)
            == BaselineRate(bins[..n - 1], total) + Share(bins[n - 1].source.successes, total)
  {
    assert bins[..n][..n - 1] == bins[..n - 1];
  }

  lemma {:induction false} BaselineFractions(profile: CalibrationProfile, observed: seq<WindowBinInput>, total: nat,
                                             n: nat)
    requires n <= |observed| == |profile.bins|
    ensures Sum(CompareAll(profile.bins, profile.sampleCount, observed, total)[..n], BaselineFraction)
         == Share(TotalSamples(InputOf(profile).bins[..n]), profile.sampleCount)
  {
    var bins := CompareAll(profile.bins, profile.sampleCount, observed, total);
    if n > 0 {
      var bin := Compare(profile.bins[n - 1], profile.sampleCount, observed[n - 1], total);
      BaselineFractions(profile, observed, total, n - 1);
      ComparedPrefix(profile.bins, profile.sampleCount, observed, total, n);
      OneMore(bins[..n - 1], bin, BaselineFraction);
      SourcePrefix(InputOf(profile).bins, n);
      SharesAdd(TotalSamples(InputOf(profile).bins[..n - 1]), profile.bins[n - 1].source.samples, profile.sampleCount);
    }
  }

  lemma {:induction false} ObservedFractions(profile: CalibrationProfile, observed: seq<WindowBinInput>, total: nat,
                                             n: nat)
    requires n <= |observed| == |profile.bins|
    ensures Sum(CompareAll(profile.bins, profile.sampleCount, observed, total)[..n], ObservedFraction)
         == Share(WindowSamples(observed[..n]), total)
  {
    var bins := CompareAll(profile.bins, profile.sampleCount, observed, total);
    if n > 0 {
      var bin := Compare(profile.bins[n - 1], profile.sampleCount, observed[n - 1], total);
      ObservedFractions(profile, observed, total, n - 1);
      ComparedPrefix(profile.bins, profile.sampleCount, observed, total, n);
      OneMore(bins[..n - 1], bin, ObservedFraction);
      WindowPrefix(observed, n);
      SharesAdd(WindowSamples(observed[..n - 1]), observed[n - 1].samples, total);
    }
  }

  lemma {:induction false} ComparedMass(baseline: Bin, profileSamples: nat, observed: WindowBinInput, total: nat)
    requires total > 0 && observed.successes <= observed.samples
    ensures ObservedMass(Compare(baseline, profileSamples, observed, total)) == Share(observed.successes, total)
  {
    SharesMultiply(observed.successes, observed.samples, total);
  }

  lemma {:induction false} ObservedMasses(profile: CalibrationProfile, observed: seq<WindowBinInput>, total: nat,
                                          n: nat)
    requires n <= |observed| == |profile.bins| && total > 0
    requires forall i :: 0 <= i < |observed| ==> observed[i].successes <= observed[i].samples
    ensures Sum(CompareAll(profile.bins, profile.sampleCount, observed, total)[..n], ObservedMass)
         == Share(WindowSuccesses(observed[..n]), total)
  {
    var bins := CompareAll(profile.bins, profile.sampleCount, observed, total);
    if n > 0 {
      ObservedMasses(profile, observed, total, n - 1);
      assert Sum(bins[..n], ObservedMass)
             == Sum(bins[..n - 1], ObservedMass) + Share(observed[n - 1].successes, total) by {
        var bin := Compare(profile.bins[n - 1], profile.sampleCount, observed[n - 1], total);
        ComparedPrefix(profile.bins, profile.sampleCount, observed, total, n);
        OneMore(bins[..n - 1], bin, ObservedMass);
        ComparedMass(profile.bins[n - 1], profile.sampleCount, observed[n - 1], total);
      }
      WindowPrefix(observed, n);
      SharesAdd(WindowSuccesses(observed[..n - 1]), observed[n - 1].successes, total);
    }
  }

  lemma {:induction false} ComparedBaselineMass(baseline: Bin, profileSamples: nat, observed: WindowBinInput,
                                                total: nat)
    requires profileSamples > 0 && RateIsExact(baseline)
    ensures BaselineMass(Compare(baseline, profileSamples, observed, total))
            == Share(baseline.source.successes, profileSamples)
  {
    SharesMultiply(baseline.source.successes, baseline.source.samples, profileSamples);
  }

  lemma {:induction false} BaselineMasses(profile: CalibrationProfile, observed: seq<WindowBinInput>, total: nat,
                                          n: nat)
    requires n <= |observed| == |profile.bins| && profile.sampleCount > 0
    requires forall i :: 0 <= i < |profile.bins| ==> RateIsExact(profile.bins[i])
    ensures Sum(CompareAll(profile.bins, profile.sampleCount, observed, total)[..n], BaselineMass)
         == BaselineRate(profile.bins[..n], profile.sampleCount)
  {
    var bins := CompareAll(profile.bins, profile.sampleCount, observed, total);
    if n > 0 {
      BaselineMasses(profile, observed, total, n - 1);
      assert Sum(bins[..n], BaselineMass)
          == Sum(bins[..n - 1], BaselineMass) + Share(profile.bins[n - 1].source.successes, profile.sampleCount) by {
        var bin := Compare(profile.bins[n - 1], profile.sampleCount, observed[n - 1], total);
        ComparedPrefix(profile.bins, profile.sampleCount, observed, total, n);
        OneMore(bins[..n - 1], bin, BaselineMass);
        ComparedBaselineMass(profile.bins[n - 1], profile.sampleCount, observed[n - 1], total);
      }
      RatePrefix(profile.bins, profile.sampleCount, n);
    }
  }

  /** The stored rate is the one its counts give. */
  predicate RateIsExact(bin: Bin) {
    bin.source.successes <= bin.source.samples
        && bin.observedSuccessRate == Share(bin.source.successes, bin.source.samples)
  }

  lemma {:induction false} CreatedRatesAreExact(hash: Hash, bound: LowerBound, profile: CalibrationProfile, i: nat)
    requires IsCreated(hash, bound, profile) && i < |profile.bins|
    ensures RateIsExact(profile.bins[i]) && Unit(profile.bins[i].source.mean)
            && Unit(profile.bins[i].observedSuccessRate)
  {
    var input := InputOf(profile);
    AcceptedIsPartition(input);
    assert ValidBin(input.bins, i);
    assert profile.bins[i] == Derive(bound, input.bins[i]);
    ShareIsUnit(input.bins[i].successes, input.bins[i].samples);
  }

  // ----- total variation

  lemma {:induction false} VariationIsBounded(bin: WindowBin)
    requires bin.baselineFraction >= 0.0 && bin.observedFraction >= 0.0
    ensures 0.0 <= Variation(bin) <= TotalFraction(bin)
  {
  }

  lemma {:induction false} ShareIsNonNegative(part: nat, whole: nat)
    ensures Share(part, whole) >= 0.0
  {
    if whole > 0 {
      ShareSign(part as real, whole as real);
    }
  }

  lemma {:induction false} FractionsAreNonNegative(profile: CalibrationProfile, observed: seq<WindowBinInput>,
                                                   total: nat, i: nat)
    requires i < |observed| == |profile.bins|
    ensures var bin := CompareAll(profile.bins, profile.sampleCount, observed, total)[i];
            bin.baselineFraction >= 0.0 && bin.observedFraction >= 0.0
  {
    ShareIsNonNegative(profile.bins[i].source.samples, profile.sampleCount);
    ShareIsNonNegative(observed[i].samples, total);
  }

  /** Baseline and observed fractions each add up to one. */
  lemma {:induction false} WholeFractions(profile: CalibrationProfile, observed: seq<WindowBinInput>, total: nat)
    requires |observed| == |profile.bins| && WindowSamples(observed) == total > 0
    requires TotalSamples(InputOf(profile).bins) == profile.sampleCount > 0
    ensures var bins := CompareAll(profile.bins, profile.sampleCount, observed, total);
            Sum(bins, BaselineFraction) == 1.0 && Sum(bins, ObservedFraction) == 1.0
  {
    var bins := CompareAll(profile.bins, profile.sampleCount, observed, total);
    BaselineFractions(profile, observed, total, |observed|);
    ObservedFractions(profile, observed, total, |observed|);
    assert bins[..|observed|] == bins && observed[..|observed|] == observed;
    assert InputOf(profile).bins[..|observed|] == InputOf(profile).bins;
    WholeShare(profile.sampleCount);
    WholeShare(total);
  }

  lemma {:induction false} FractionsAddUp(hash: Hash, bound: LowerBound, profile: CalibrationProfile,
                                          observed: seq<WindowBinInput>)
    requires ValidProfile(hash, bound, profile) && |observed| == |profile.bins| && WindowSamples(observed) > 0
    ensures var bins := StatisticsOf(profile, observed).bins;
            Sum(bins, BaselineFraction) == 1.0 && Sum(bins, ObservedFraction) == 1.0
  {
    ValidIsPartition(hash, bound, profile);
    WholeFractions(profile, observed, WindowSamples(observed));
  }

  /** Total variation distance lies in [0, 1]. */
  lemma {:induction false} TotalVariationIsUnit(hash: Hash, bound: LowerBound, profile: CalibrationProfile,
                                                observed: seq<WindowBinInput>)
    requires ValidProfile(hash, bound, profile) && |observed| == |profile.bins|
    ensures Unit(StatisticsOf(profile, observed).totalVariation)
  {
    var total := WindowSamples(observed);
    if total > 0 {
      var bins := StatisticsOf(profile, observed).bins;
      FractionsAddUp(hash, bound, profile, observed);
      forall i | 0 <= i < |bins| ensures 0.0 <= Variation(bins[i]) <= TotalFraction(bins[i]) {
        FractionsAreNonNegative(profile, observed, total, i);
        VariationIsBounded(bins[i]);
      }
      SumIsNonNegative(bins, Variation);
      SumAtMost(bins, Variation, TotalFraction);
      SumAdds(bins, BaselineFraction, ObservedFraction, TotalFraction);
    }
  }

  // ----- calibration error

  lemma {:induction false} BinErrorIsUnit(baseline: Bin, profileSamples: nat, observed: WindowBinInput, total: nat)
    requires Unit(baseline.source.mean) && observed.successes <= observed.samples
    ensures Unit(Compare(baseline, profileSamples, observed, total).absoluteError)
  {
    ShareIsUnit(observed.successes, observed.samples);
  }

  lemma {:induction false} SampledErrorWithin(bin: WindowBin, limit: real)
    requires 0.0 <= bin.absoluteError <= limit
    ensures 0.0 <= SampledError(bin) <= limit * SampleWeight(bin)
  {
    NonNegative(bin.samples as real, bin.absoluteError);
    NonNegative(bin.samples as real, limit - bin.absoluteError);
    Distributes(bin.samples as real, limit, -bin.absoluteError);
  }

  function SampleWeight(bin: WindowBin): real {
    bin.samples as real
  }

  lemma {:induction false} WeightsAddUp(profile: CalibrationProfile, observed: seq<WindowBinInput>, total: nat, n: nat)
    requires n <= |observed| == |profile.bins|
    ensures Sum(CompareAll(profile.bins, profile.sampleCount, observed, total)[..n], SampleWeight)
            == WindowSamples(observed[..n]) as real
  {
    var bins := CompareAll(profile.bins, profile.sampleCount, observed, total);
    if n > 0 {
      var bin := Compare(profile.bins[n - 1], profile.sampleCount, observed[n - 1], total);
      WeightsAddUp(profile, observed, total, n - 1);
      ComparedPrefix(profile.bins, profile.sampleCount, observed, total, n);
      OneMore(bins[..n - 1], bin, SampleWeight);
      WindowPrefix(observed, n);
    }
  }

  lemma {:induction false} SampledErrorsWithin(bins: seq<WindowBin>, limit: real)
    requires forall i :: 0 <= i < |bins| ==> 0.0 <= bins[i].absoluteError <= limit
    ensures forall i :: 0 <= i < |bins| ==> 0.0 <= SampledError(bins[i]) <= limit * SampleWeight(bins[i])
  {
    forall i | 0 <= i < |bins| ensures 0.0 <= SampledError(bins[i]) <= limit * SampleWeight(bins[i]) {
      SampledErrorWithin(bins[i], limit);
    }
  }

  lemma {:induction false} SummedErrorWithin(bins: seq<WindowBin>, limit: real)
    requires forall i :: 0 <= i < |bins| ==> 0.0 <= bins[i].absoluteError <= limit
    ensures 0.0 <= Sum(bins, SampledError) <= limit * Sum(bins, SampleWeight)
  {
    var errors, samples := Sum(bins, SampledError), Sum(bins, SampleWeight);
    assert 0.0 <= errors <= limit * samples by {
      SampledErrorsWithin(bins, limit);
      SumWithin(bins, SampledError, limit, SampleWeight);
    }
  }

  lemma {:induction false} MeanErrorAtMost(bins: seq<WindowBin>, total: nat, limit: real)
    requires total > 0 && Sum(bins, SampleWeight) == total as real
    requires forall i :: 0 <= i < |bins| ==> 0.0 <= bins[i].absoluteError <= limit
    ensures 0.0 <= Sum(bins, SampledError) / total as real <= limit
  {
    var errors, samples := Sum(bins, SampledError), total as real;
    assert 0.0 <= errors <= limit * samples by {
      SummedErrorWithin(bins, limit);
    }
    QuotientBounds(errors, samples, limit);
  }

  lemma {:induction false} BinErrorsAreUnit(profile: CalibrationProfile, observed: seq<WindowBinInput>, total: nat)
    requires Partition(InputOf(profile).bins) && |observed| == |profile.bins| && WindowFailure(observed).None?
    ensures var bins := CompareAll(profile.bins, profile.sampleCount, observed, total);
            forall i :: 0 <= i < |bins| ==> Unit(BinError(bins[i]))
  {
    AdmittedWindow(observed);
    forall i | 0 <= i < |observed|
      ensures Unit(BinError(CompareAll(profile.bins, profile.sampleCount, observed, total)[i]))
    {
      MeansAreUnit(InputOf(profile).bins, i);
      BinErrorIsUnit(profile.bins[i], profile.sampleCount, observed[i], total);
    }
  }

  lemma {:induction false} WindowMeanBelow(profile: CalibrationProfile, observed: seq<WindowBinInput>, limit: real)
    requires |observed| == |profile.bins| && WindowSamples(observed) > 0
    requires var bins := CompareAll(profile.bins, profile.sampleCount, observed, WindowSamples(observed));
             forall i :: 0 <= i < |bins| ==> 0.0 <= BinError(bins[i]) <= limit
    ensures var bins := CompareAll(profile.bins, profile.sampleCount, observed, WindowSamples(observed));
            0.0 <= Sum(bins, SampledError) / WindowSamples(observed) as real <= limit
  {
    var total := WindowSamples(observed);
    var bins := CompareAll(profile.bins, profile.sampleCount, observed, total);
    WeightsAddUp(profile, observed, total, |observed|);
    assert bins[..|observed|] == bins && observed[..|observed|] == observed;
    forall i | 0 <= i < |bins| ensures 0.0 <= bins[i].absoluteError <= limit {
      assert bins[i].absoluteError == BinError(bins[i]);
    }
    MeanErrorAtMost(bins, total, limit);
  }

  /** Expected calibration error is at most maximum calibration error, which is at most one. */
  lemma {:induction false} WindowErrorsAreOrdered(hash: Hash, bound: LowerBound, profile: CalibrationProfile,
                                                  observed: seq<WindowBinInput>)
    requires ValidProfile(hash, bound, profile) && |observed| == |profile.bins| && WindowFailure(observed).None?
    ensures var s := StatisticsOf(profile, observed); 0.0 <= s.expectedError <= s.maximumError <= 1.0
  {
    var total := WindowSamples(observed);
    var bins := CompareAll(profile.bins, profile.sampleCount, observed, total);
    ValidIsPartition(hash, bound, profile);
    BinErrorsAreUnit(profile, observed, total);
    LargestBounds(bins, BinError);
    LargestAtMost(bins, BinError, 1.0);
    if total > 0 {
      WindowMeanBelow(profile, observed, Largest(bins, BinError));
    }
  }

  lemma {:induction false} MeansAreUnit(bins: seq<BinInput>, i: nat)
    requires Partition(bins) && i < |bins|
    ensures Unit(bins[i].mean)
  {
    assert ValidBin(bins, i);
  }

  // ----- the success-rate drop

  function Excess(bin: WindowBin): real {
    0.5 * (Variation(bin) + bin.baselineFraction - bin.observedFraction)
  }

  /** Mass lost in a bin is explained by mass moved out of it and by the drop of its rate. */
  lemma {:induction false} LostMass(f: real, g: real, r: real, s: real, drop: real)
    requires 0.0 <= f && 0.0 <= g && Unit(r) && (g == 0.0 || r - s <= drop)
    ensures f * r - g * s <= 0.5 * (Abs(f - g) + f - g) + drop * g
  {
    if g > 0.0 {
      NonNegative(g, drop - (r - s));
      Distributes(g, drop, -(r - s));
      Distributes(g, r, -s);
    }
    if f >= g {
      NonNegative(f - g, 1.0 - r);
      Distributes(f - g, 1.0, -r);
    } else {
      NonNegative(g - f, r);
    }
    Distributes(r, f, -g);
  }

  function ExcessPlus(drop: real): WindowBin -> real {
    (bin: WindowBin) => Excess(bin) + drop * bin.observedFraction
  }

  function Explained(drop: real): WindowBin -> real {
    (bin: WindowBin) => Excess(bin) + drop * bin.observedFraction + ObservedMass(bin)
  }

  lemma {:induction false} BinLoss(profile: CalibrationProfile, observed: seq<WindowBinInput>, total: nat, i: nat,
                                   drop: real)
    requires i < |observed| == |profile.bins| && total > 0 && Unit(profile.bins[i].observedSuccessRate)
    requires observed[i].samples > 0 ==>
               Compare(profile.bins[i], profile.sampleCount, observed[i], total).successRateDrop <= drop
    ensures BaselineMass(CompareAll(profile.bins, profile.sampleCount, observed, total)[i])
         <= Explained(drop)(CompareAll(profile.bins, profile.sampleCount, observed, total)[i])
  {
    var bin := Compare(profile.bins[i], profile.sampleCount, observed[i], total);
    FractionsAreNonNegative(profile, observed, total, i);
    LostMass(bin.baselineFraction, bin.observedFraction, bin.baselineSuccessRate, bin.observedSuccessRate, drop);
  }

  lemma {:induction false} ExcessIsVariation(bins: seq<WindowBin>)
    requires Sum(bins, BaselineFraction) == Sum(bins, ObservedFraction)
    ensures Sum(bins, Excess) == 0.5 * Sum(bins, Variation)
  {
    ExcessSum(bins);
  }

  lemma {:induction false} ExcessSum(bins: seq<WindowBin>)
    ensures Sum(bins, Excess)
            == 0.5 * (Sum(bins, Variation) + Sum(bins, BaselineFraction) - Sum(bins, ObservedFraction))
  {
    if bins != [] {
      ExcessSum(bins[..|bins| - 1]);
    }
  }

  function Scaled(drop: real): WindowBin -> real {
    (bin: WindowBin) => drop * bin.observedFraction
  }

  lemma {:induction false} ScaledSum(bins: seq<WindowBin>, drop: real)
    ensures Sum(bins, Scaled(drop)) == drop * Sum(bins, ObservedFraction)
  {
    SumScales(bins, ObservedFraction, drop, Scaled(drop));
  }

  lemma {:induction false} ExcessPlusSum(bins: seq<WindowBin>, drop: real)
    ensures Sum(bins, ExcessPlus(drop)) == Sum(bins, Excess) + Sum(bins, Scaled(drop))
  {
    SumAdds(bins, Excess, Scaled(drop), ExcessPlus(drop));
  }

  lemma {:induction false} ExplainedSum(bins: seq<WindowBin>, drop: real)
    ensures Sum(bins, Explained(drop))
            == Sum(bins, Excess) + drop * Sum(bins, ObservedFraction) + Sum(bins, ObservedMass)
  {
    SumAdds(bins, ExcessPlus(drop), ObservedMass, Explained(drop));
    ExcessPlusSum(bins, drop);
    ScaledSum(bins, drop);
  }

  lemma {:induction false} LossIsExplained(hash: Hash, bound: LowerBound, profile: CalibrationProfile,
                                           observed: seq<WindowBinInput>)
    requires IsCreated(hash, bound, profile) && |observed| == |profile.bins| && WindowSamples(observed) > 0
    ensures var s := StatisticsOf(profile, observed);
            Sum(s.bins, BaselineMass) <= Sum(s.bins, Explained(s.maximumBinDrop))
  {
    var total := WindowSamples(observed);
    var bins := CompareAll(profile.bins, profile.sampleCount, observed, total);
    var drop := Largest(bins, BinDrop);
    LargestBounds(bins, BinDrop);
    forall i | 0 <= i < |bins| ensures BaselineMass(bins[i]) <= Explained(drop)(bins[i]) {
      CreatedRatesAreExact(hash, bound, profile, i);
      assert BinDrop(bins[i]) <= drop;
      BinLoss(profile, observed, total, i, drop);
    }
    SumAtMost(bins, BaselineMass, Explained(drop));
  }

  lemma {:induction false} SampledDrop(hash: Hash, bound: LowerBound, profile: CalibrationProfile,
                                       observed: seq<WindowBinInput>)
    requires IsCreated(hash, bound, profile) && ValidProfile(hash, bound, profile)
    requires |observed| == |profile.bins| && WindowFailure(observed).None? && WindowSamples(observed) > 0
    ensures var s := StatisticsOf(profile, observed);
            s.baselineRate - s.observedRate <= s.maximumBinDrop + s.totalVariation
  {
    var bins := StatisticsOf(profile, observed).bins;
    ValidIsPartition(hash, bound, profile);
    FractionsAddUp(hash, bound, profile, observed);
    LossIsExplained(hash, bound, profile, observed);
    ExplainedSum(bins, Largest(bins, BinDrop));
    ExcessIsVariation(bins);
    MassesAreRates(hash, bound, profile, observed);
  }

  lemma {:induction false} MassesAreRates(hash: Hash, bound: LowerBound, profile: CalibrationProfile,
                                          observed: seq<WindowBinInput>)
    requires IsCreated(hash, bound, profile) && profile.sampleCount > 0
    requires |observed| == |profile.bins| && WindowFailure(observed).None? && WindowSamples(observed) > 0
    ensures var s := StatisticsOf(profile, observed);
            Sum(s.bins, BaselineMass) == s.baselineRate && Sum(s.bins, ObservedMass) == s.observedRate
  {
    var total := WindowSamples(observed);
    var bins := CompareAll(profile.bins, profile.sampleCount, observed, total);
    AdmittedWindow(observed);
    forall i | 0 <= i < |profile.bins| ensures RateIsExact(profile.bins[i]) {
      CreatedRatesAreExact(hash, bound, profile, i);
    }
    BaselineMasses(profile, observed, total, |observed|);
    ObservedMasses(profile, observed, total, |observed|);
    assert bins[..|observed|] == bins && observed[..|observed|] == observed
           && profile.bins[..|observed|] == profile.bins;
  }

  lemma {:induction false} SharesOrder(a: nat, b: nat, whole: nat)
    requires a <= b
    ensures Share(a, whole) <= Share(b, whole)
  {
    SharesAdd(a, b - a, whole);
    ShareIsNonNegative(b - a, whole);
  }

  lemma {:induction false} BaselineBelowFractions(profile: CalibrationProfile, n: nat)
    requires n <= |profile.bins|
    requires forall i :: 0 <= i < |profile.bins| ==> RateIsExact(profile.bins[i])
    ensures BaselineRate(profile.bins[..n], profile.sampleCount) <= Share(TotalSamples(InputOf(profile).bins[..n]),
            profile.sampleCount)
  {
    if n > 0 {
      var last := profile.bins[n - 1];
      BaselineBelowFractions(profile, n - 1);
      RatePrefix(profile.bins, profile.sampleCount, n);
      SourcePrefix(InputOf(profile).bins, n);
      assert RateIsExact(last);
      SharesOrder(last.source.successes, last.source.samples, profile.sampleCount);
      SharesAdd(TotalSamples(InputOf(profile).bins[..n - 1]), last.source.samples, profile.sampleCount);
    }
  }

  lemma {:induction false} BaselineRateAtMostOne(hash: Hash, bound: LowerBound, profile: CalibrationProfile)
    requires IsCreated(hash, bound, profile) && ValidProfile(hash, bound, profile)
    ensures BaselineRate(profile.bins, profile.sampleCount) <= 1.0
  {
    ValidIsPartition(hash, bound, profile);
    forall i | 0 <= i < |profile.bins| ensures RateIsExact(profile.bins[i]) {
      CreatedRatesAreExact(hash, bound, profile, i);
    }
    BaselineBelowFractions(profile, |profile.bins|);
    assert profile.bins[..|profile.bins|] == profile.bins
           && InputOf(profile).bins[..|profile.bins|] == InputOf(profile).bins;
    WholeShare(profile.sampleCount);
  }

  /** For every admitted window: the overall drop of the success rate is at most
      the largest drop of a bin plus the total variation distance. */
  lemma {:induction false} OverallDropIsBounded(hash: Hash, bound: LowerBound, profile: CalibrationProfile,
                                                observed: seq<WindowBinInput>)
    requires IsCreated(hash, bound, profile) && |observed| == |profile.bins| && WindowFailure(observed).None?
    ensures var s := StatisticsOf(profile, observed); 0.0 <= s.overallDrop <= s.maximumBinDrop + s.totalVariation
  {
    CreatedIsValid(hash, bound, InputOf(profile));
    var s := StatisticsOf(profile, observed);
    LargestBounds(s.bins, BinDrop);
    TotalVariationIsUnit(hash, bound, profile, observed);
    if WindowSamples(observed) > 0 {
      SampledDrop(hash, bound, profile, observed);
    } else {
      BaselineRateAtMostOne(hash, bound, profile);
    }
  }

  lemma {:induction false} ReasonsExplainThemselves(s: Statistics, tooSmall: bool, options: DriftOptions)
    requires OverallSuccessRateDropExceeded in ReasonsOf(s, tooSmall, options)
    ensures s.overallDrop > options.maximumOverallDrop
    ensures s.totalVariation > options.maximumTotalVariation ==>
              ConfidenceDistributionShift in ReasonsOf(s, tooSmall, options)
    ensures s.maximumBinDrop > options.maximumBinDrop ==> BinSuccessRateDropExceeded in ReasonsOf(s, tooSmall, options)
  {
  }

  /** When the overall threshold leaves room for the other two, an overall drop is never reported alone. */
  lemma {:induction false} OverallDropIsNeverAlone(hash: Hash, bound: LowerBound, profile: CalibrationProfile,
                                                   window: WindowInput, options: DriftOptions, report: DriftReport)
    requires IsCreated(hash, bound, profile) && Assess(hash, bound, profile, window, options) == Ok(report)
    requires options.maximumTotalVariation + options.maximumBinDrop <= options.maximumOverallDrop
    requires OverallSuccessRateDropExceeded in report.reasons
    ensures ConfidenceDistributionShift in report.reasons || BinSuccessRateDropExceeded in report.reasons
  {
    OverallDropIsBounded(hash, bound, profile, window.bins);
    ReasonsExplainThemselves(StatisticsOf(profile, window.bins),
                             SomeBinTooSmall(window.bins, options.minimumBinSamples), options);
  }

  // ----- a window that repeats the calibration

  ghost predicate Repeats(profile: CalibrationProfile, observed: seq<WindowBinInput>) {
    && |observed| == |profile.bins|
    && forall i :: 0 <= i < |observed| ==>
         observed[i].samples == profile.bins[i].source.samples
             && observed[i].successes == profile.bins[i].source.successes
  }

  lemma {:induction false} RepeatedSamples(profile: CalibrationProfile, observed: seq<WindowBinInput>, n: nat)
    requires Repeats(profile, observed) && n <= |observed|
    ensures WindowSamples(observed[..n]) == TotalSamples(InputOf(profile).bins[..n])
  {
    if n > 0 {
      RepeatedSamples(profile, observed, n - 1);
      WindowPrefix(observed, n);
      SourcePrefix(InputOf(profile).bins, n);
    }
  }

  lemma {:induction false} RepeatedCounts(baseline: Bin, observed: WindowBinInput, total: nat)
    requires RateIsExact(baseline) && baseline.source.samples > 0
    requires observed == WindowBinInput(baseline.source.samples, baseline.source.successes)
    ensures var bin := Compare(baseline, total, observed, total);
            && Variation(bin) == 0.0 && bin.successRateDrop == 0.0
            && bin.absoluteError == AbsoluteError(baseline.source)
            && SampledError(bin) == WeightedError(baseline.source)
  {
  }

  lemma {:induction false} RepeatedBin(hash: Hash, bound: LowerBound, profile: CalibrationProfile,
                                       observed: seq<WindowBinInput>, i: nat)
    requires IsCreated(hash, bound, profile) && Repeats(profile, observed) && i < |observed|
    ensures var bin, source := Compare(profile.bins[i], profile.sampleCount, observed[i], profile.sampleCount),
                               profile.bins[i].source;
            && Variation(bin) == 0.0 && bin.successRateDrop == 0.0
            && bin.absoluteError == AbsoluteError(source) && SampledError(bin) == WeightedError(source)
  {
    CreatedRatesAreExact(hash, bound, profile, i);
    AcceptedIsPartition(InputOf(profile));
    assert ValidBin(InputOf(profile).bins, i);
    RepeatedCounts(profile.bins[i], observed[i], profile.sampleCount);
  }

  lemma {:induction false} RepeatedStep(hash: Hash, bound: LowerBound, profile: CalibrationProfile,
                                        observed: seq<WindowBinInput>, n: nat)
    requires IsCreated(hash, bound, profile) && Repeats(profile, observed) && n < |observed|
    ensures var all := CompareAll(profile.bins, profile.sampleCount, observed, profile.sampleCount);
            var source := profile.bins[n].source;
            && Sum(all[..n + 1], Variation) == Sum(all[..n], Variation)
            && Largest(all[..n + 1], BinDrop) == Max(Largest(all[..n], BinDrop), 0.0)
            && Sum(all[..n + 1], SampledError) == Sum(all[..n], SampledError) + WeightedError(source)
            && Largest(all[..n + 1], BinError) == Max(Largest(all[..n], BinError), AbsoluteError(source))
  {
    var all := CompareAll(profile.bins, profile.sampleCount, observed, profile.sampleCount);
    RepeatedBin(hash, bound, profile, observed, n);
    ComparedPrefix(profile.bins, profile.sampleCount, observed, profile.sampleCount, n + 1);
    OneMoreWindowBin(all[..n], all[n]);
  }

  lemma {:induction false} OneMoreSource(sources: seq<BinInput>, n: nat)
    requires n < |sources|
    ensures Sum(sources[..n + 1], WeightedError) == Sum(sources[..n], WeightedError) + WeightedError(sources[n])
    ensures Largest(sources[..n + 1], AbsoluteError)
            == Max(Largest(sources[..n], AbsoluteError), AbsoluteError(sources[n]))
  {
    assert sources[..n + 1] == sources[..n] + [sources[n]];
    OneMore(sources[..n], sources[n], WeightedError);
    OneMore(sources[..n], sources[n], AbsoluteError);
  }

  lemma {:induction false} RepeatedSums(hash: Hash, bound: LowerBound, profile: CalibrationProfile,
                                        observed: seq<WindowBinInput>, n: nat)
    requires IsCreated(hash, bound, profile) && Repeats(profile, observed) && n <= |observed|
    ensures var bins := CompareAll(profile.bins, profile.sampleCount, observed, profile.sampleCount)[..n];
            && Sum(bins, Variation) == 0.0 && Largest(bins, BinDrop) == 0.0
            && Sum(bins, SampledError) == Sum(InputOf(profile).bins[..n], WeightedError)
            && Largest(bins, BinError) == Largest(InputOf(profile).bins[..n], AbsoluteError)
  {
    if n > 0 {
      RepeatedSums(hash, bound, profile, observed, n - 1);
      RepeatedStep(hash, bound, profile, observed, n - 1);
      OneMoreSource(InputOf(profile).bins, n - 1);
    }
  }

  /** Repeating the calibration counts shows no drift at all, and exactly the
      calibration errors recorded in the profile. */
  lemma {:induction false} RepeatedCalibrationHasNoDrift(hash: Hash, bound: LowerBound, profile: CalibrationProfile,
                                                         observed: seq<WindowBinInput>)
    requires IsCreated(hash, bound, profile) && Repeats(profile, observed) && WindowFailure(observed).None?
    ensures var s := StatisticsOf(profile, observed);
            && s.samples == profile.sampleCount && s.totalVariation == 0.0 && s.overallDrop == 0.0
            && s.maximumBinDrop == 0.0
            && s.expectedError == profile.expectedError && s.maximumError == profile.maximumError
  {
    var sources := InputOf(profile).bins;
    CreatedIsValid(hash, bound, InputOf(profile));
    ValidIsPartition(hash, bound, profile);
    assert observed[..|observed|] == observed && sources[..|observed|] == sources;
    RepeatedSamples(profile, observed, |observed|);
    RepeatedSums(hash, bound, profile, observed, |observed|);
    var bins := CompareAll(profile.bins, profile.sampleCount, observed, profile.sampleCount);
    assert bins[..|observed|] == bins;
    OverallDropIsBounded(hash, bound, profile, observed);
  }
}
