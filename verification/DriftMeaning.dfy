/** What the statistics and the verdict of a drift report mean, in terms of the
    counts of the window and of the profile. */
module DriftMeaning {
  import opened Support
  import opened Sequences
  import opened Sums
  import opened Wilson
  import opened Profile
  import opened Drift
  import opened DriftBounds

  // ----- which windows are assessed

  lemma {:induction false} FewerWindowSamples(bins: seq<WindowBinInput>, n: nat)
    requires n <= |bins|
    ensures WindowSamples(bins[..n]) <= WindowSamples(bins)
    decreases |bins| - n
  {
    if n == |bins| {
      assert bins[..n] == bins;
    } else {
      FewerWindowSamples(bins, n + 1);
      assert bins[..n + 1][..n] == bins[..n];
    }
  }

  lemma {:induction false} NoWindowFailure(bins: seq<WindowBinInput>)
    requires WindowSamples(bins) <= MAXIMUM_SAMPLES
    requires forall i :: 0 <= i < |bins| ==> bins[i].successes <= bins[i].samples
    ensures WindowFailure(bins).None?
  {
    if bins != [] {
      FewerWindowSamples(bins, |bins| - 1);
      NoWindowFailure(bins[..|bins| - 1]);
    }
  }

  lemma {:induction false} CountsAdmittedIff(bins: seq<WindowBinInput>)
    ensures WindowFailure(bins).None? <==>
              && WindowSamples(bins) <= 1_000_000_000_000
              && forall i :: 0 <= i < |bins| ==> bins[i].successes <= bins[i].samples
  {
    if WindowFailure(bins).None? {
      AdmittedWindow(bins);
    } else if WindowSamples(bins) <= MAXIMUM_SAMPLES {
      if forall i :: 0 <= i < |bins| ==> bins[i].successes <= bins[i].samples {
        NoWindowFailure(bins);
      }
    }
  }

  /** A window is assessed exactly when the profile is valid, the declarations and
      options are in range, there is one count pair for every bin of the profile,
      no bin succeeds more often than it was observed, and the total is in range. */
  lemma {:induction false} AssessedIff(hash: Hash, bound: LowerBound, profile: CalibrationProfile, window: WindowInput,
                                       options: DriftOptions)
    ensures Assess(hash, bound, profile, window, options).Ok? <==>
              && ValidProfile(hash, bound, profile) && OptionsInRange(options)
              && ValidText(window.windowId, 256) && ValidSha256(window.sourceDigest)
              && |window.bins| == |profile.bins| && WindowSamples(window.bins) <= 1_000_000_000_000
              && forall i :: 0 <= i < |window.bins| ==> window.bins[i].successes <= window.bins[i].samples
  {
    CountsAdmittedIff(window.bins);
    assert ValidOptions(options) <==> OptionsInRange(options);
    AssessedIffAdmitted(hash, bound, profile, window, options);
  }

  lemma {:induction false} AssessedIffAdmitted(hash: Hash, bound: LowerBound, profile: CalibrationProfile,
                                               window: WindowInput, options: DriftOptions)
    ensures Assess(hash, bound, profile, window, options).Ok? <==>
              AdmissibleInput(hash, bound, profile, window, options) && WindowFailure(window.bins).None?
  {
  }

  ghost predicate OptionsInRange(options: DriftOptions) {
    && 0 < options.minimumTotalSamples <= 1_000_000_000_000 && 0 < options.minimumBinSamples <= 1_000_000_000_000
    && 0.0 <= options.maximumTotalVariation <= 1.0 && 0.0 <= options.maximumExpectedError <= 1.0
    && 0.0 <= options.maximumOverallDrop <= 1.0 && 0.0 <= options.maximumBinDrop <= 1.0
  }

  // ----- the verdict

  /** The order in which reasons are listed. */
  function Rank(reason: DriftReason): nat {
    match reason
    case InsufficientTotalSamples => 0
    case InsufficientBinSamples => 1
    case ConfidenceDistributionShift => 2
    case ExpectedCalibrationErrorExceeded => 3
    case OverallSuccessRateDropExceeded => 4
    case BinSuccessRateDropExceeded => 5
  }

  /** There are too few outcomes, in total or in some bin that has any. */
  predicate TooFewOutcomes(window: WindowInput, options: DriftOptions, total: nat) {
    || total < options.minimumTotalSamples
    || exists i :: 0 <= i < |window.bins| && 0 < window.bins[i].samples < options.minimumBinSamples
  }

  /** Each reason is listed exactly when what it names is so: the two about data
      whenever they hold, the four about drift when there is data enough and
      their own statistic exceeds their own limit. */
  lemma {:induction false} ReasonsAreExact(hash: Hash, bound: LowerBound, profile: CalibrationProfile,
                                           window: WindowInput, options: DriftOptions, report: DriftReport)
    requires Assess(hash, bound, profile, window, options) == Ok(report)
    ensures report.sampleCount == WindowSamples(window.bins)
    ensures InsufficientTotalSamples in report.reasons <==> report.sampleCount < options.minimumTotalSamples
    ensures InsufficientBinSamples in report.reasons <==>
              exists i :: 0 <= i < |window.bins| && 0 < window.bins[i].samples < options.minimumBinSamples
    ensures var enough := !TooFewOutcomes(window, options, report.sampleCount);
            && (ConfidenceDistributionShift in report.reasons <==>
                enough && report.totalVariation > options.maximumTotalVariation)
            && (ExpectedCalibrationErrorExceeded in report.reasons <==>
                enough && report.expectedError > options.maximumExpectedError)
            && (OverallSuccessRateDropExceeded in report.reasons <==>
                enough && report.overallDrop > options.maximumOverallDrop)
            && (BinSuccessRateDropExceeded in report.reasons <==>
                enough && report.maximumBinDrop > options.maximumBinDrop)
    ensures Ranked(report.reasons)
  {
    var s := StatisticsOf(profile, window.bins);
    var tooSmall := SomeBinTooSmall(window.bins, options.minimumBinSamples);
    TooSmallMeans(window, options);
    ReasonsListed(s, tooSmall, options);
    assert report.reasons == ReasonsOf(s, tooSmall, options);
  }

  lemma {:induction false} TooSmallMeans(window: WindowInput, options: DriftOptions)
    ensures var tooSmall := SomeBinTooSmall(window.bins, options.minimumBinSamples);
            && (tooSmall <==> exists i :: 0 <= i < |window.bins|
                                          && 0 < window.bins[i].samples < options.minimumBinSamples)
            && forall total: nat {:trigger TooFewOutcomes(window, options, total)} ::
                 TooFewOutcomes(window, options, total) <==> total < options.minimumTotalSamples || tooSmall
  {
    if i :| 0 <= i < |window.bins| && 0 < window.bins[i].samples < options.minimumBinSamples {
      assert BinTooSmall(window.bins[i], options.minimumBinSamples);
    }
  }

  lemma {:induction false} ReasonsListed(s: Statistics, tooSmall: bool, options: DriftOptions)
    ensures var reasons := ReasonsOf(s, tooSmall, options);
            var enough := !(s.samples < options.minimumTotalSamples || tooSmall);
            && (InsufficientTotalSamples in reasons <==> s.samples < options.minimumTotalSamples)
            && (InsufficientBinSamples in reasons <==> tooSmall)
            && (ConfidenceDistributionShift in reasons <==> enough && s.totalVariation > options.maximumTotalVariation)
            && (ExpectedCalibrationErrorExceeded in reasons <==>
                enough && s.expectedError > options.maximumExpectedError)
            && (OverallSuccessRateDropExceeded in reasons <==> enough && s.overallDrop > options.maximumOverallDrop)
            && (BinSuccessRateDropExceeded in reasons <==> enough && s.maximumBinDrop > options.maximumBinDrop)
            && Ranked(reasons)
  {
    DataReasonsListed(s.samples, tooSmall, options);
    DriftReasonsListed(s, options);
    assert DataReasons(s.samples, tooSmall, options) == [] ==>
        ReasonsOf(s, tooSmall, options) == DriftReasons(s, options);
  }

  /** In their fixed order, none twice. */
  ghost predicate Ranked(reasons: seq<DriftReason>) {
    forall i, j :: 0 <= i < j < |reasons| ==> Rank(reasons[i]) < Rank(reasons[j])
  }

  lemma {:induction false} DataReasonsListed(samples: nat, tooSmall: bool, options: DriftOptions)
    ensures var reasons := DataReasons(samples, tooSmall, options);
            && (InsufficientTotalSamples in reasons <==> samples < options.minimumTotalSamples)
            && (InsufficientBinSamples in reasons <==> tooSmall)
            && (forall reason :: reason in reasons ==> Rank(reason) < 2)
            && (reasons == [] <==> !(samples < options.minimumTotalSamples || tooSmall))
            && Ranked(reasons)
  {
  }

  lemma {:induction false} DriftReasonsListed(s: Statistics, options: DriftOptions)
    ensures var reasons := DriftReasons(s, options);
            && (ConfidenceDistributionShift in reasons <==> s.totalVariation > options.maximumTotalVariation)
            && (ExpectedCalibrationErrorExceeded in reasons <==> s.expectedError > options.maximumExpectedError)
            && (OverallSuccessRateDropExceeded in reasons <==> s.overallDrop > options.maximumOverallDrop)
            && (BinSuccessRateDropExceeded in reasons <==> s.maximumBinDrop > options.maximumBinDrop)
            && (forall reason :: reason in reasons ==> Rank(reason) >= 2)
            && Ranked(reasons)
  {
  }

  /** The status follows from the reasons: too little data, nothing listed, or drift. */
  lemma {:induction false} StatusFollowsReasons(hash: Hash, bound: LowerBound, profile: CalibrationProfile,
                                                window: WindowInput, options: DriftOptions, report: DriftReport)
    requires Assess(hash, bound, profile, window, options) == Ok(report)
    ensures report.status == InsufficientData <==>
              InsufficientTotalSamples in report.reasons || InsufficientBinSamples in report.reasons
    ensures report.status == Stable <==> report.reasons == []
  {
    var s := StatisticsOf(profile, window.bins);
    var tooSmall := SomeBinTooSmall(window.bins, options.minimumBinSamples);
    ReasonsListed(s, tooSmall, options);
    DataReasonsListed(s.samples, tooSmall, options);
    DriftReasonsListed(s, options);
  }

  // ----- one bin

  lemma {:induction false} ShareTimesWhole(part: nat, whole: nat)
    requires whole > 0
    ensures Share(part, whole) * whole as real == part as real
  {
  }

  lemma {:induction false} ScaledDistance(n: real, x: real, y: real)
    requires n >= 0.0
    ensures n * Abs(x - y) == Abs(x * n - y * n)
  {
    if x < y {
      NonNegative(n, y - x);
    } else {
      NonNegative(n, x - y);
    }
    assert n * (x - y) == x * n - y * n;
  }

  /** The figures of a bin, with their denominators cleared. */
  lemma {:induction false} BinMeans(baseline: Bin, profileSamples: nat, observed: WindowBinInput, total: nat)
    requires profileSamples > 0
    ensures var bin := Compare(baseline, profileSamples, observed, total);
            && bin.samples == observed.samples && bin.successes == observed.successes
            && bin.baselineSuccessRate == baseline.observedSuccessRate
            && bin.baselineFraction * profileSamples as real == baseline.source.samples as real
            && (total > 0 ==> bin.observedFraction * total as real == observed.samples as real)
            && (bin.outcomeRateAvailable <==> observed.samples > 0)
            && (observed.samples > 0 ==>
                bin.observedSuccessRate * observed.samples as real == observed.successes as real)
            && (observed.samples == 0 ==> bin.successRateDrop == bin.absoluteError == 0.0)
            && (observed.samples > 0 ==>
                  && bin.successRateDrop == Max(0.0, bin.baselineSuccessRate - bin.observedSuccessRate)
                  && bin.absoluteError == Abs(baseline.source.mean - bin.observedSuccessRate))
  {
    ShareTimesWhole(baseline.source.samples, profileSamples);
    if total > 0 {
      ShareTimesWhole(observed.samples, total);
    }
    if observed.samples > 0 {
      ShareTimesWhole(observed.successes, observed.samples);
    }
  }

  // ----- calibration error

  function Total(values: seq<real>): real {
    if values == [] then 0.0 else Total(values[..|values| - 1]) + Last(values)
  }

  lemma {:induction false} SumIsTotal<T>(items: seq<T>, measure: T -> real, values: seq<real>)
    requires |values| == |items| && forall i :: 0 <= i < |items| ==> measure(items[i]) == values[i]
    ensures Sum(items, measure) == Total(values)
  {
    if items != [] {
      SumIsTotal(items[..|items| - 1], measure, values[..|values| - 1]);
    }
  }

  /** How far the successes are from what the mean confidence promised for the samples. */
  function Miss(mean: real, samples: nat, successes: nat): real {
    Abs(mean * samples as real - successes as real)
  }

  /** The misses of a window, bin by bin. */
  function Misses(baseline: seq<Bin>, observed: seq<WindowBinInput>): (misses: seq<real>)
    requires |baseline| == |observed|
    ensures |misses| == |observed|
  {
    seq(|observed|, i requires 0 <= i < |observed| =>
      Miss(baseline[i].source.mean, observed[i].samples, observed[i].successes))
  }

  lemma {:induction false} SampledErrorMeans(baseline: Bin, profileSamples: nat, observed: WindowBinInput, total: nat)
    requires observed.successes <= observed.samples
    ensures SampledError(Compare(baseline, profileSamples, observed, total))
         == Miss(baseline.source.mean, observed.samples, observed.successes)
  {
    if observed.samples > 0 {
      var n := observed.samples as real;
      ShareTimesWhole(observed.successes, observed.samples);
      ScaledDistance(n, baseline.source.mean, Share(observed.successes, observed.samples));
    }
  }

  lemma {:induction false} ErrorsAreMisses(baseline: seq<Bin>, profileSamples: nat, observed: seq<WindowBinInput>,
                                           total: nat)
    requires |baseline| == |observed|
             && forall i :: 0 <= i < |observed| ==> observed[i].successes <= observed[i].samples
    ensures Sum(CompareAll(baseline, profileSamples, observed, total), SampledError)
            == Total(Misses(baseline, observed))
  {
    var bins, misses := CompareAll(baseline, profileSamples, observed, total), Misses(baseline, observed);
    forall i | 0 <= i < |bins| ensures SampledError(bins[i]) == misses[i] {
      SampledErrorMeans(baseline[i], profileSamples, observed[i], total);
    }
    SumIsTotal(bins, SampledError, misses);
  }

  /** The expected calibration error of a window is the mean, over its outcomes,
      of how far the successes of each bin are from what was promised. */
  lemma {:induction false} ExpectedErrorMeans(profile: CalibrationProfile, window: seq<WindowBinInput>)
    requires |window| == |profile.bins| && WindowFailure(window).None? && WindowSamples(window) > 0
    ensures StatisticsOf(profile, window).expectedError
         == Total(Misses(profile.bins, window)) / WindowSamples(window) as real
  {
    AdmittedWindow(window);
    ErrorsAreMisses(profile.bins, profile.sampleCount, window, WindowSamples(window));
  }

  // ----- total variation

  /** The part of a measure that falls on the picked bins. */
  function Picked(bins: seq<WindowBin>, pick: WindowBin -> bool, measure: WindowBin -> real): real {
    if bins == [] then 0.0
    else Picked(bins[..|bins| - 1], pick, measure) + if pick(Last(bins)) then measure(Last(bins)) else 0.0
  }

  /** The bins that hold less of the window than of the calibration. */
  function Shrunk(): WindowBin -> bool {
    (bin: WindowBin) => bin.observedFraction < bin.baselineFraction
  }

  lemma {:induction false} PickedWithin(bins: seq<WindowBin>, pick: WindowBin -> bool)
    ensures Picked(bins, pick, DriftBounds.BaselineFraction) - Picked(bins, pick,
                                                                      DriftBounds.ObservedFraction) <= Sum(bins, Excess)
    ensures Picked(bins, Shrunk(), DriftBounds.BaselineFraction) - Picked(bins, Shrunk(), DriftBounds.ObservedFraction)
            == Sum(bins, Excess)
  {
    if bins != [] {
      PickedWithin(bins[..|bins| - 1], pick);
    }
  }

  function Unpicked(pick: WindowBin -> bool): WindowBin -> bool {
    (bin: WindowBin) => !pick(bin)
  }

  lemma {:induction false} PickedOrNot(bins: seq<WindowBin>, pick: WindowBin -> bool, measure: WindowBin -> real)
    ensures Picked(bins, pick, measure) + Picked(bins, Unpicked(pick), measure) == Sum(bins, measure)
  {
    if bins != [] {
      PickedOrNot(bins[..|bins| - 1], pick, measure);
    }
  }

  /** Total variation is the largest difference between the calibration's and the
      window's share of any set of bins. */
  lemma {:induction false} TotalVariationIsLargestDifference(hash: Hash, bound: LowerBound, profile: CalibrationProfile,
                                                             window: seq<WindowBinInput>)
    returns (bins: seq<WindowBin>, variation: real)
    requires ValidProfile(hash, bound, profile) && |window| == |profile.bins| && WindowSamples(window) > 0
    ensures bins == StatisticsOf(profile, window).bins && variation == StatisticsOf(profile, window).totalVariation
    ensures IsLargestDifference(bins, variation)
  {
    bins, variation := VariationIs(profile, window);
    assert Sum(bins, DriftBounds.BaselineFraction) == Sum(bins, DriftBounds.ObservedFraction) by {
      FractionsAddUp(hash, bound, profile, window);
    }
    VariationIsLargest(bins);
  }

  lemma {:induction false} VariationIsLargest(bins: seq<WindowBin>)
    requires Sum(bins, DriftBounds.BaselineFraction) == Sum(bins, DriftBounds.ObservedFraction)
    ensures IsLargestDifference(bins, 0.5 * Sum(bins, Variation))
  {
    LargestDifference(bins, Shrunk());
    forall pick: WindowBin -> bool
      ensures Abs(Picked(bins, pick, DriftBounds.BaselineFraction) - Picked(bins, pick, DriftBounds.ObservedFraction))
              <= 0.5 * Sum(bins, Variation)
    {
      LargestDifference(bins, pick);
    }
  }

  lemma {:induction false} VariationIs(profile: CalibrationProfile, window: seq<WindowBinInput>)
    returns (bins: seq<WindowBin>, variation: real)
    requires |window| == |profile.bins| && WindowSamples(window) > 0
    ensures bins == StatisticsOf(profile, window).bins
    ensures variation == StatisticsOf(profile, window).totalVariation == 0.5 * Sum(bins, Variation)
  {
    bins, variation := StatisticsOf(profile, window).bins, StatisticsOf(profile, window).totalVariation;
  }

  lemma {:induction false} LargestDifference(bins: seq<WindowBin>, pick: WindowBin -> bool)
    requires Sum(bins, DriftBounds.BaselineFraction) == Sum(bins, DriftBounds.ObservedFraction)
    ensures Abs(Picked(bins, pick, DriftBounds.BaselineFraction) - Picked(bins, pick, DriftBounds.ObservedFraction))
         <= 0.5 * Sum(bins, Variation)
    ensures Picked(bins, Shrunk(), DriftBounds.BaselineFraction) - Picked(bins, Shrunk(), DriftBounds.ObservedFraction)
         == 0.5 * Sum(bins, Variation)
  {
    ExcessIsVariation(bins);
    PickedWithin(bins, pick);
    PickedWithin(bins, Unpicked(pick));
    PickedOrNot(bins, pick, DriftBounds.BaselineFraction);
    PickedOrNot(bins, pick, DriftBounds.ObservedFraction);
  }

  // ----- the largest figures

  lemma {:induction false} LargestIsAttained<T>(items: seq<T>, measure: T -> real)
    ensures Largest(items, measure) == 0.0
            || exists i :: 0 <= i < |items| && measure(items[i]) == Largest(items, measure)
  {
    if items != [] {
      var before := items[..|items| - 1];
      LargestIsAttained(before, measure);
      if Largest(items, measure) == Largest(before, measure) != 0.0 {
        var i :| 0 <= i < |before| && measure(before[i]) == Largest(before, measure);
        assert items[i] == before[i];
      } else {
        assert Last(items) == items[|items| - 1];
      }
    }
  }

  /** The maximum error and the maximum drop are those of some bin, and no bin exceeds them. */
  lemma {:induction false} MaximaMean(profile: CalibrationProfile, window: seq<WindowBinInput>)
    requires |window| == |profile.bins| && window != []
    ensures var s := StatisticsOf(profile, window);
            && (forall i :: 0 <= i < |s.bins| ==>
                  s.bins[i].absoluteError <= s.maximumError && s.bins[i].successRateDrop <= s.maximumBinDrop)
            && (exists i :: 0 <= i < |s.bins| && s.bins[i].absoluteError == s.maximumError)
            && (exists i :: 0 <= i < |s.bins| && s.bins[i].successRateDrop == s.maximumBinDrop)
  {
    var bins := StatisticsOf(profile, window).bins;
    LargestBounds(bins, BinError);
    LargestBounds(bins, BinDrop);
    LargestIsAttained(bins, BinError);
    LargestIsAttained(bins, BinDrop);
    forall i | 0 <= i < |bins| ensures 0.0 <= bins[i].absoluteError <= Largest(bins, BinError)
      && 0.0 <= bins[i].successRateDrop <= Largest(bins, BinDrop) {
      assert BinError(bins[i]) == bins[i].absoluteError && BinDrop(bins[i]) == bins[i].successRateDrop;
    }
    assert 0.0 <= bins[0].absoluteError && 0.0 <= bins[0].successRateDrop;
    if i :| 0 <= i < |bins| && BinError(bins[i]) == Largest(bins, BinError) {
      assert bins[i].absoluteError == Largest(bins, BinError);
    }
    if i :| 0 <= i < |bins| && BinDrop(bins[i]) == Largest(bins, BinDrop) {
      assert bins[i].successRateDrop == Largest(bins, BinDrop);
    }
  }

  // ----- the overall rates

  function Successes(bins: seq<Bin>): nat {
    if bins == [] then 0 else Successes(bins[..|bins| - 1]) + Last(bins).source.successes
  }

  lemma {:induction false} BaselineRateMeans(bins: seq<Bin>, total: nat, t: real)
    requires total > 0 && t == total as real
    ensures BaselineRate(bins, total) * t == Successes(bins) as real
  {
    if bins != [] {
      var before, last := BaselineRate(bins[..|bins| - 1], total), Share(Last(bins).source.successes, total);
      BaselineRateMeans(bins[..|bins| - 1], total, t);
      ShareTimesWhole(Last(bins).source.successes, total);
      Distributes(t, before, last);
    }
  }

  // ----- the whole report

  /** The figures of every bin, with their denominators cleared. */
  ghost predicate BinsDescribe(profile: CalibrationProfile, window: WindowInput, report: DriftReport) {
    && |report.bins| == |window.bins| == |profile.bins|
    && forall i :: 0 <= i < |report.bins| ==>
       DescribesBin(profile.bins[i], profile.sampleCount, window.bins[i], report.sampleCount, report.bins[i])
  }

  ghost predicate DescribesBin(baseline: Bin, profileSamples: nat, observed: WindowBinInput, total: nat,
                               bin: WindowBin) {
    && bin.samples == observed.samples && bin.successes == observed.successes
    && bin.baselineSuccessRate == baseline.observedSuccessRate
    && bin.baselineFraction * profileSamples as real == baseline.source.samples as real
    && (if total > 0 then bin.observedFraction * total as real == observed.samples as real
        else bin.observedFraction == 0.0)
    && (bin.outcomeRateAvailable <==> observed.samples > 0)
    && (if observed.samples > 0 then
          && bin.observedSuccessRate * observed.samples as real == observed.successes as real
          && bin.successRateDrop == Max(0.0, bin.baselineSuccessRate - bin.observedSuccessRate)
          && bin.absoluteError == Abs(baseline.source.mean - bin.observedSuccessRate)
        else bin.observedSuccessRate == bin.successRateDrop == bin.absoluteError == 0.0)
  }

  /** The largest error and the largest drop are those of some bin. */
  ghost predicate MaximaDescribe(report: DriftReport) {
    && (forall i :: 0 <= i < |report.bins| ==>
          report.bins[i].absoluteError <= report.maximumError
              && report.bins[i].successRateDrop <= report.maximumBinDrop)
    && (exists i :: 0 <= i < |report.bins| && report.bins[i].absoluteError == report.maximumError)
    && (exists i :: 0 <= i < |report.bins| && report.bins[i].successRateDrop == report.maximumBinDrop)
  }

  predicate IsRatio(x: real, part: nat, whole: nat) {
    x * whole as real == part as real
  }

  /** The overall rates are successes over samples; the drop is how far the rate fell. */
  ghost predicate RatesDescribe(profile: CalibrationProfile, window: WindowInput, report: DriftReport) {
    && IsRatio(report.baselineSuccessRate, Successes(profile.bins), profile.sampleCount)
    && (if report.sampleCount > 0 then
          report.observedSuccessRate == Rate(WindowSuccesses(window.bins), report.sampleCount)
        else report.observedSuccessRate == 0.0)
    && report.overallDrop == Max(0.0, report.baselineSuccessRate - report.observedSuccessRate)
  }

  /** The mean miss, and the largest difference over sets of bins; a window
      without outcomes has no error and the greatest variation. */
  ghost predicate DistancesDescribe(profile: CalibrationProfile, window: WindowInput, report: DriftReport)
    requires |window.bins| == |profile.bins|
  {
    if report.sampleCount > 0 then
      && report.expectedError == Total(Misses(profile.bins, window.bins)) / report.sampleCount as real
      && IsLargestDifference(report.bins, report.totalVariation)
    else
      report.expectedError == 0.0 && report.totalVariation == 1.0
  }

  /** No set of bins has shares that differ by more, and some set differs by as much. */
  ghost predicate IsLargestDifference(bins: seq<WindowBin>, difference: real) {
    && (forall pick: WindowBin -> bool ::
          Abs(Picked(bins, pick, DriftBounds.BaselineFraction) - Picked(bins, pick, DriftBounds.ObservedFraction))
          <= difference)
    && exists pick: WindowBin -> bool ::
         Picked(bins, pick, DriftBounds.BaselineFraction) - Picked(bins, pick, DriftBounds.ObservedFraction)
         == difference
  }

  /** The report carries the statistics of the window. */
  ghost predicate Carries(profile: CalibrationProfile, window: WindowInput, report: DriftReport)
    requires |window.bins| == |profile.bins|
  {
    var s := StatisticsOf(profile, window.bins);
    && report.sampleCount == s.samples && report.bins == s.bins && report.totalVariation == s.totalVariation
    && report.baselineSuccessRate == s.baselineRate && report.observedSuccessRate == s.observedRate
    && report.overallDrop == s.overallDrop && report.expectedError == s.expectedError
    && report.maximumError == s.maximumError && report.maximumBinDrop == s.maximumBinDrop
  }

  lemma {:induction false} ReportCarries(hash: Hash, bound: LowerBound, profile: CalibrationProfile,
                                         window: WindowInput, options: DriftOptions, report: DriftReport)
    requires Assess(hash, bound, profile, window, options) == Ok(report)
    ensures ValidProfile(hash, bound, profile) && |window.bins| == |profile.bins| > 0 && profile.sampleCount > 0
    ensures WindowFailure(window.bins).None? && Carries(profile, window, report)
  {
    ValidIsPartition(hash, bound, profile);
  }

  lemma {:induction false} RatesAreDescribed(profile: CalibrationProfile, window: WindowInput, report: DriftReport)
    requires |window.bins| == |profile.bins| && profile.sampleCount > 0 && Carries(profile, window, report)
    ensures RatesDescribe(profile, window, report)
  {
    BaselineIsRatio(profile);
    assert WindowSamples(window.bins) == report.sampleCount;
  }

  lemma {:induction false} BaselineIsRatio(profile: CalibrationProfile)
    requires profile.sampleCount > 0
    ensures IsRatio(BaselineRate(profile.bins, profile.sampleCount), Successes(profile.bins), profile.sampleCount)
  {
    BaselineRateMeans(profile.bins, profile.sampleCount, profile.sampleCount as real);
  }

  lemma {:induction false} MaximaAreDescribed(profile: CalibrationProfile, window: WindowInput, report: DriftReport)
    requires |window.bins| == |profile.bins| > 0 && Carries(profile, window, report)
    ensures MaximaDescribe(report)
  {
    MaximaMean(profile, window.bins);
  }

  lemma {:induction false} BinIsDescribed(baseline: Bin, profileSamples: nat, observed: WindowBinInput, total: nat)
    requires profileSamples > 0
    ensures DescribesBin(baseline, profileSamples, observed, total, Compare(baseline, profileSamples, observed, total))
  {
    BinMeans(baseline, profileSamples, observed, total);
  }

  lemma {:induction false} BinsAreDescribed(profile: CalibrationProfile, window: WindowInput, report: DriftReport)
    requires |window.bins| == |profile.bins| && profile.sampleCount > 0 && Carries(profile, window, report)
    ensures BinsDescribe(profile, window, report)
  {
    forall i | 0 <= i < |report.bins|
      ensures DescribesBin(profile.bins[i], profile.sampleCount, window.bins[i], report.sampleCount, report.bins[i])
    {
      BinIsDescribed(profile.bins[i], profile.sampleCount, window.bins[i], report.sampleCount);
    }
  }

  lemma {:induction false} DistancesAreDescribed(hash: Hash, bound: LowerBound, profile: CalibrationProfile,
                                                 window: WindowInput, report: DriftReport)
    requires ValidProfile(hash, bound, profile) && |window.bins| == |profile.bins|
    requires WindowFailure(window.bins).None? && Carries(profile, window, report)
    ensures DistancesDescribe(profile, window, report)
  {
    if report.sampleCount > 0 {
      ExpectedErrorMeans(profile, window.bins);
      var bins, variation := TotalVariationIsLargestDifference(hash, bound, profile, window.bins);
    }
  }

  /** Every figure of a report is what its name says, of the counts of the window and of the profile. */
  lemma {:induction false} ReportMeans(hash: Hash, bound: LowerBound, profile: CalibrationProfile, window: WindowInput,
                                       options: DriftOptions, report: DriftReport)
    requires Assess(hash, bound, profile, window, options) == Ok(report)
    ensures |window.bins| == |profile.bins| && report.sampleCount == WindowSamples(window.bins)
    ensures BinsDescribe(profile, window, report) && MaximaDescribe(report)
    ensures RatesDescribe(profile, window, report) && DistancesDescribe(profile, window, report)
  {
    ReportCarries(hash, bound, profile, window, options, report);
    RatesAreDescribed(profile, window, report);
    MaximaAreDescribed(profile, window, report);
    BinsAreDescribed(profile, window, report);
    DistancesAreDescribed(hash, bound, profile, window, report);
  }

  // ----- the profile's own error

  /** The misses of the calibration, bin by bin. */
  function OwnMisses(bins: seq<BinInput>): (misses: seq<real>)
    ensures |misses| == |bins|
  {
    seq(|bins|, i requires 0 <= i < |bins| => Miss(bins[i].mean, bins[i].samples, bins[i].successes))
  }

  lemma {:induction false} WeightedErrorMeans(bin: BinInput)
    requires bin.samples > 0
    ensures WeightedError(bin) == Miss(bin.mean, bin.samples, bin.successes)
  {
    var n, rate := bin.samples as real, ObservedRate(bin);
    ScaledDistance(n, bin.mean, rate);
    assert rate * n == bin.successes as real;
  }

  lemma {:induction false} WeightedErrorsAreMisses(bins: seq<BinInput>)
    requires forall i :: 0 <= i < |bins| ==> bins[i].samples > 0
    ensures Sum(bins, WeightedError) == Total(OwnMisses(bins))
  {
    forall i | 0 <= i < |bins| ensures WeightedError(bins[i]) == OwnMisses(bins)[i] {
      WeightedErrorMeans(bins[i]);
    }
    SumIsTotal(bins, WeightedError, OwnMisses(bins));
  }

  lemma {:induction false} CreatedBins(hash: Hash, bound: LowerBound, profile: CalibrationProfile, i: nat)
    requires IsCreated(hash, bound, profile) && i < |profile.bins|
    ensures InputOf(profile).bins[i].samples > 0
    ensures profile.bins[i].absoluteError == AbsoluteError(InputOf(profile).bins[i]) >= 0.0
  {
    var bins := InputOf(profile).bins;
    AcceptedIsPartition(InputOf(profile));
    assert ValidBin(bins, i);
    assert profile.bins[i] == Derive(bound, bins[i]);
  }

  /** The expected error of a created profile is the mean, over its samples, of
      how far the successes of each bin are from what was promised. */
  lemma {:induction false} ProfileErrorMeans(hash: Hash, bound: LowerBound, profile: CalibrationProfile)
    requires IsCreated(hash, bound, profile)
    ensures profile.sampleCount > 0
    ensures profile.expectedError == Total(OwnMisses(InputOf(profile).bins)) / profile.sampleCount as real
  {
    var bins := InputOf(profile).bins;
    AcceptedIsPartition(InputOf(profile));
    forall i | 0 <= i < |bins| ensures bins[i].samples > 0 {
      CreatedBins(hash, bound, profile, i);
    }
    WeightedErrorsAreMisses(bins);
  }

  /** Its maximum error is that of some bin, and no bin exceeds it. */
  lemma {:induction false} ProfileMaximumMeans(hash: Hash, bound: LowerBound, profile: CalibrationProfile)
    requires IsCreated(hash, bound, profile)
    ensures forall i :: 0 <= i < |profile.bins| ==> profile.bins[i].absoluteError <= profile.maximumError
    ensures exists i :: 0 <= i < |profile.bins| && profile.bins[i].absoluteError == profile.maximumError
  {
    var bins := InputOf(profile).bins;
    AcceptedIsPartition(InputOf(profile));
    LargestBounds(bins, AbsoluteError);
    LargestIsAttained(bins, AbsoluteError);
    forall i | 0 <= i < |bins| ensures profile.bins[i].absoluteError == AbsoluteError(bins[i]) >= 0.0 {
      CreatedBins(hash, bound, profile, i);
    }
    if Largest(bins, AbsoluteError) == 0.0 {
      assert profile.bins[0].absoluteError == 0.0;
    } else {
      var i :| 0 <= i < |bins| && AbsoluteError(bins[i]) == Largest(bins, AbsoluteError);
      assert profile.bins[i].absoluteError == profile.maximumError;
    }
  }
}
