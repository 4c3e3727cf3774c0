/** Drift assessment of an operational window against a calibration profile:
    admission, the derived statistics, and the verdict with its reasons. */
module Drift {
  import opened Support
  import opened Sequences
  import opened Sums
  import opened Decimal
  import opened Wilson
  import opened Profile

  const MAXIMUM_IDENTIFIER: nat := 256

  datatype WindowBinInput = WindowBinInput(samples: U64, successes: U64)

  datatype WindowInput = WindowInput(windowId: string, sequence: U64, sourceDigest: string, bins: seq<WindowBinInput>)

  datatype DriftOptions = DriftOptions(
    minimumTotalSamples: U64,
    minimumBinSamples: U64,
    maximumTotalVariation: real,
    maximumExpectedError: real,
    maximumOverallDrop: real,
    maximumBinDrop: real)

  datatype DriftStatus = InsufficientData | Stable | DriftDetected

  datatype DriftReason =
    | InsufficientTotalSamples
    | InsufficientBinSamples
    | ConfidenceDistributionShift
    | ExpectedCalibrationErrorExceeded
    | OverallSuccessRateDropExceeded
    | BinSuccessRateDropExceeded

  datatype WindowBin = WindowBin(
    samples: U64,
    successes: U64,
    baselineFraction: real,
    observedFraction: real,
    baselineSuccessRate: real,
    outcomeRateAvailable: bool,
    observedSuccessRate: real,
    successRateDrop: real,
    absoluteError: real)

  datatype DriftReport = DriftReport(
    id: string,
    profileId: string,
    windowId: string,
    windowSequence: U64,
    sourceDigest: string,
    options: DriftOptions,
    status: DriftStatus,
    reasons: seq<DriftReason>,
    sampleCount: U64,
    totalVariation: real,
    baselineSuccessRate: real,
    observedSuccessRate: real,
    overallDrop: real,
    expectedError: real,
    maximumError: real,
    maximumBinDrop: real,
    bins: seq<WindowBin>)

  // ----- admission

  predicate Unit(x: real) {
    0.0 <= x <= 1.0
  }

  predicate ValidOptions(options: DriftOptions) {
    && 0 < options.minimumTotalSamples <= MAXIMUM_SAMPLES && 0 < options.minimumBinSamples <= MAXIMUM_SAMPLES
    && Unit(options.maximumTotalVariation) && Unit(options.maximumExpectedError)
    && Unit(options.maximumOverallDrop) && Unit(options.maximumBinDrop)
  }

  function WindowSamples(bins: seq<WindowBinInput>): nat {
    if bins == [] then 0 else WindowSamples(bins[..|bins| - 1]) + Last(bins).samples
  }

  function WindowSuccesses(bins: seq<WindowBinInput>): nat {
    if bins == [] then 0 else WindowSuccesses(bins[..|bins| - 1]) + Last(bins).successes
  }

  predicate BinTooSmall(bin: WindowBinInput, minimum: nat) {
    0 < bin.samples < minimum
  }

  predicate SomeBinTooSmall(bins: seq<WindowBinInput>, minimum: nat) {
    exists i :: 0 <= i < |bins| && BinTooSmall(bins[i], minimum)
  }

  /** The failure of the first inadmissible bin. */
  function WindowFailure(bins: seq<WindowBinInput>): Option<StatusCode> {
    if bins == [] then None else
      var before := WindowFailure(bins[..|bins| - 1]);
      var bin := Last(bins);
      if before.Some? then before
      else if bin.samples > MAXIMUM_SAMPLES || WindowSamples(bins[..|bins| - 1]) > MAXIMUM_SAMPLES - bin.samples
             then Some(ResourceLimit)
      else if bin.successes > bin.samples then Some(InvalidArgument)
      else None
  }

  lemma {:induction false} WindowFailurePersists(bins: seq<WindowBinInput>, n: nat)
    requires n <= |bins| && WindowFailure(bins[..n]).Some?
    ensures WindowFailure(bins) == WindowFailure(bins[..n])
  {
    if n == |bins| {
      assert bins[..n] == bins;
    } else {
      assert bins[..|bins| - 1][..n] == bins[..n];
      WindowFailurePersists(bins[..|bins| - 1], n);
    }
  }

  lemma {:induction false} AdmittedWindow(bins: seq<WindowBinInput>)
    requires WindowFailure(bins).None?
    ensures forall i :: 0 <= i < |bins| ==> bins[i].successes <= bins[i].samples
    ensures WindowSuccesses(bins) <= WindowSamples(bins) <= MAXIMUM_SAMPLES
  {
    if bins != [] {
      AdmittedWindow(bins[..|bins| - 1]);
    }
  }

  predicate AdmissibleInput(hash: Hash, bound: LowerBound, profile: CalibrationProfile, window: WindowInput,
                            options: DriftOptions) {
    && ValidProfile(hash, bound, profile) && ValidText(window.windowId, MAXIMUM_IDENTIFIER)
    && ValidSha256(window.sourceDigest) && |window.bins| == |profile.bins| && ValidOptions(options)
  }

  // ----- identity

  function WindowBinTree(bin: WindowBinInput): Json {
    JObject(map[Key.Samples := JString(Print(bin.samples)), Key.Successes := JString(Print(bin.successes))])
  }

  function WindowBinTrees(bins: seq<WindowBinInput>): (trees: seq<Json>)
    ensures |trees| == |bins| && forall i :: 0 <= i < |bins| ==> trees[i] == WindowBinTree(bins[i])
  {
    seq(|bins|, i requires 0 <= i < |bins| => WindowBinTree(bins[i]))
  }

  function OptionsTree(options: DriftOptions): Json {
    JObject(map[
      Key.MaximumBinSuccessRateDrop := JNumber(options.maximumBinDrop),
      Key.MaximumExpectedCalibrationError := JNumber(options.maximumExpectedError),
      Key.MaximumOverallSuccessRateDrop := JNumber(options.maximumOverallDrop),
      Key.MaximumTotalVariationDistance := JNumber(options.maximumTotalVariation),
      Key.MinimumBinSamples := JString(Print(options.minimumBinSamples)),
      Key.MinimumTotalSamples := JString(Print(options.minimumTotalSamples))])
  }

  function ReportTree(profileId: string, window: WindowInput, options: DriftOptions): Json {
    JObject(map[
      Key.Bins := JArray(WindowBinTrees(window.bins)),
      Key.Options := OptionsTree(options),
      Key.ProfileId := JString(profileId),
      Key.SourceDigest := JString(window.sourceDigest),
      Key.WindowId := JString(window.windowId),
      Key.WindowSequence := JString(Print(window.sequence))])
  }

  // ----- statistics

  function Share(part: nat, whole: nat): real {
    if whole == 0 then 0.0 else Rate(part, whole)
  }

  /** Compares one bin of the window with its baseline. */
  function Compare(baseline: Bin, profileSamples: nat, observed: WindowBinInput, windowSamples: nat): WindowBin {
    var rate := Share(observed.successes, observed.samples);
    var available := observed.samples != 0;
    WindowBin(
      observed.samples,
      observed.successes,
      Share(baseline.source.samples, profileSamples),
      Share(observed.samples, windowSamples),
      baseline.observedSuccessRate,
      available,
      rate,
      if available then Max(0.0, baseline.observedSuccessRate - rate) else 0.0,
      if available then Abs(baseline.source.mean - rate) else 0.0)
  }

  function CompareAll(baseline: seq<Bin>, profileSamples: nat, observed: seq<WindowBinInput>,
                      windowSamples: nat): (bins: seq<WindowBin>)
    requires |observed| <= |baseline|
    ensures |bins| == |observed|
    ensures forall i :: 0 <= i < |observed| ==>
            bins[i] == Compare(baseline[i], profileSamples, observed[i], windowSamples)
  {
    seq(|observed|, i requires 0 <= i < |observed| => Compare(baseline[i], profileSamples, observed[i], windowSamples))
  }

  function BaselineRate(bins: seq<Bin>, total: nat): real {
    if bins == [] then 0.0 else BaselineRate(bins[..|bins| - 1], total) + Share(Last(bins).source.successes, total)
  }

  function Variation(bin: WindowBin): real {
    Abs(bin.baselineFraction - bin.observedFraction)
  }

  function SampledError(bin: WindowBin): real {
    bin.samples as real * bin.absoluteError
  }

  function BinError(bin: WindowBin): real {
    bin.absoluteError
  }

  function BinDrop(bin: WindowBin): real {
    bin.successRateDrop
  }

  datatype Statistics = Statistics(
    bins: seq<WindowBin>,
    samples: nat,
    totalVariation: real,
    baselineRate: real,
    observedRate: real,
    overallDrop: real,
    expectedError: real,
    maximumError: real,
    maximumBinDrop: real)

  function StatisticsOf(profile: CalibrationProfile, window: seq<WindowBinInput>): Statistics
    requires |window| == |profile.bins|
  {
    var total := WindowSamples(window);
    var bins := CompareAll(profile.bins, profile.sampleCount, window, total);
    var baseline := BaselineRate(profile.bins, profile.sampleCount);
    var observed := Share(WindowSuccesses(window), total);
    Statistics(
      bins,
      total,
      if total == 0 then 1.0 else 0.5 * Sum(bins, Variation),
      baseline,
      observed,
      Max(0.0, baseline - observed),
      if total == 0 then 0.0 else Sum(bins, SampledError) / total as real,
      Largest(bins, BinError),
      Largest(bins, BinDrop))
  }

  // ----- the verdict

  function When(condition: bool, reason: DriftReason): (reasons: seq<DriftReason>) {
    if condition then [reason] else []
  }

  function DataReasons(samples: nat, tooSmall: bool, options: DriftOptions): seq<DriftReason> {
    When(samples < options.minimumTotalSamples, InsufficientTotalSamples) + When(tooSmall, InsufficientBinSamples)
  }

  function DriftReasons(s: Statistics, options: DriftOptions): seq<DriftReason> {
    When(s.totalVariation > options.maximumTotalVariation, ConfidenceDistributionShift)
    + When(s.expectedError > options.maximumExpectedError, ExpectedCalibrationErrorExceeded)
    + When(s.overallDrop > options.maximumOverallDrop, OverallSuccessRateDropExceeded)
    + When(s.maximumBinDrop > options.maximumBinDrop, BinSuccessRateDropExceeded)
  }

  function ReasonsOf(s: Statistics, tooSmall: bool, options: DriftOptions): seq<DriftReason> {
    var missing := DataReasons(s.samples, tooSmall, options);
    if missing != [] then missing else DriftReasons(s, options)
  }

  function StatusOf(s: Statistics, tooSmall: bool, options: DriftOptions): DriftStatus {
    if DataReasons(s.samples, tooSmall, options) != [] then InsufficientData
    else if DriftReasons(s, options) != [] then DriftDetected
    else Stable
  }

  function ReportOf(hash: Hash, profile: CalibrationProfile, window: WindowInput, options: DriftOptions): DriftReport
    requires |window.bins| == |profile.bins| && WindowFailure(window.bins).None?
  {
    AdmittedWindow(window.bins);
    var s := StatisticsOf(profile, window.bins);
    var tooSmall := SomeBinTooSmall(window.bins, options.minimumBinSamples);
    DriftReport(
      hash(ReportTree(profile.id, window, options)), profile.id, window.windowId, window.sequence, window.sourceDigest,
      options, StatusOf(s, tooSmall, options), ReasonsOf(s, tooSmall, options), s.samples, s.totalVariation,
      s.baselineRate, s.observedRate, s.overallDrop, s.expectedError, s.maximumError, s.maximumBinDrop, s.bins)
  }

  function Assess(hash: Hash, bound: LowerBound, profile: CalibrationProfile, window: WindowInput,
                  options: DriftOptions): Result<DriftReport> {
    if !AdmissibleInput(hash, bound, profile, window, options) then Err(InvalidArgument)
    else match WindowFailure(window.bins)
         case Some(code) => Err(code)
         case None => Ok(ReportOf(hash, profile, window, options))
  }

  // ----- the procedure

  method AdmitWindow(bins: seq<WindowBinInput>, minimum: U64)
    returns (failure: Option<StatusCode>, samples: nat, successes: nat, tooSmall: bool)
    ensures failure == WindowFailure(bins)
    ensures failure.None? ==>
              samples == WindowSamples(bins) && successes == WindowSuccesses(bins)
                  && tooSmall == SomeBinTooSmall(bins, minimum)
  {
    samples, successes, tooSmall := 0, 0, false;
    for i := 0 to |bins|
      invariant WindowFailure(bins[..i]).None?
      invariant samples == WindowSamples(bins[..i]) && successes == WindowSuccesses(bins[..i])
      invariant tooSmall <==> exists k :: 0 <= k < i && BinTooSmall(bins[k], minimum)
    {
      var bin := bins[i];
      assert bins[..i + 1][..i] == bins[..i] && Last(bins[..i + 1]) == bin;
      if bin.samples > MAXIMUM_SAMPLES || samples > MAXIMUM_SAMPLES - bin.samples {
        WindowFailurePersists(bins, i + 1);
        return Some(ResourceLimit), samples, successes, tooSmall;
      }
      if bin.successes > bin.samples {
        WindowFailurePersists(bins, i + 1);
        return Some(InvalidArgument), samples, successes, tooSmall;
      }
      samples := samples + bin.samples;
      successes := successes + bin.successes;
      tooSmall := tooSmall || (bin.samples > 0 && bin.samples < minimum);
    }
    assert bins[..|bins|] == bins;
    failure := None;
  }

  method SumBaseline(bins: seq<Bin>, total: nat) returns (rate: real)
    ensures rate == BaselineRate(bins, total)
  {
    rate := 0.0;
    for i := 0 to |bins|
      invariant rate == BaselineRate(bins[..i], total)
    {
      assert bins[..i + 1][..i] == bins[..i];
      rate := rate + Share(bins[i].source.successes, total);
    }
    assert bins[..|bins|] == bins;
  }

  /** The accumulating loop: bins without outcomes leave the error and the drop untouched. */
  method CompareBins(profile: CalibrationProfile, window: seq<WindowBinInput>, total: nat)
    returns (bins: seq<WindowBin>, variation: real, weightedError: real, maximumError: real, maximumBinDrop: real)
    requires |window| == |profile.bins|
    ensures bins == CompareAll(profile.bins, profile.sampleCount, window, total)
    ensures variation == Sum(bins, Variation) && weightedError == Sum(bins, SampledError)
    ensures maximumError == Largest(bins, BinError) && maximumBinDrop == Largest(bins, BinDrop)
  {
    bins, variation, weightedError, maximumError, maximumBinDrop := [], 0.0, 0.0, 0.0, 0.0;
    for i := 0 to |window|
      invariant |bins| == i
      invariant forall k :: 0 <= k < i ==> bins[k] == Compare(profile.bins[k], profile.sampleCount, window[k], total)
      invariant variation == Sum(bins, Variation) && weightedError == Sum(bins, SampledError)
      invariant maximumError == Largest(bins, BinError) && maximumBinDrop == Largest(bins, BinDrop)
    {
      var bin := Compare(profile.bins[i], profile.sampleCount, window[i], total);
      OneMoreWindowBin(bins, bin);
      if bin.outcomeRateAvailable {
        weightedError := weightedError + SampledError(bin);
        maximumError := Max(maximumError, bin.absoluteError);
        maximumBinDrop := Max(maximumBinDrop, bin.successRateDrop);
      } else {
        NoOutcomeNoChange(bins, profile.bins[i], profile.sampleCount, window[i], total);
      }
      variation := variation + Variation(bin);
      bins := bins + [bin];
    }
  }

  lemma {:induction false} OneMoreWindowBin(bins: seq<WindowBin>, bin: WindowBin)
    ensures Sum(bins + [bin], Variation) == Sum(bins, Variation) + Variation(bin)
    ensures Sum(bins + [bin], SampledError) == Sum(bins, SampledError) + SampledError(bin)
    ensures Largest(bins + [bin], BinError) == Max(Largest(bins, BinError), bin.absoluteError)
    ensures Largest(bins + [bin], BinDrop) == Max(Largest(bins, BinDrop), bin.successRateDrop)
  {
    OneMore(bins, bin, Variation);
    OneMore(bins, bin, SampledError);
    OneMore(bins, bin, BinError);
    OneMore(bins, bin, BinDrop);
  }

  lemma {:induction false} NoOutcomeNoChange(bins: seq<WindowBin>, baseline: Bin, profileSamples: nat,
                                             observed: WindowBinInput, total: nat)
    requires observed.samples == 0
    ensures var bin := Compare(baseline, profileSamples, observed, total);
            && SampledError(bin) == 0.0
            && Max(Largest(bins, BinError), bin.absoluteError) == Largest(bins, BinError)
            && Max(Largest(bins, BinDrop), bin.successRateDrop) == Largest(bins, BinDrop)
  {
    LargestBounds(bins, BinError);
    LargestBounds(bins, BinDrop);
  }

  method Measure(profile: CalibrationProfile, window: seq<WindowBinInput>, samples: nat, successes: nat)
    returns (s: Statistics)
    requires |window| == |profile.bins| && samples == WindowSamples(window) && successes == WindowSuccesses(window)
    ensures s == StatisticsOf(profile, window)
  {
    var baseline := SumBaseline(profile.bins, profile.sampleCount);
    var observed := if samples == 0 then 0.0 else Rate(successes, samples);
    var bins, variation, weightedError, maximumError, maximumBinDrop := CompareBins(profile, window, samples);
    s := Statistics(bins, samples, if samples == 0 then 1.0 else 0.5 * variation, baseline, observed,
                    Max(0.0, baseline - observed),
                    if samples == 0 then 0.0 else weightedError / samples as real, maximumError, maximumBinDrop);
  }

  method Decide(s: Statistics, tooSmall: bool, options: DriftOptions)
    returns (status: DriftStatus, reasons: seq<DriftReason>)
    ensures status == StatusOf(s, tooSmall, options) && reasons == ReasonsOf(s, tooSmall, options)
  {
    reasons := [];
    if s.samples < options.minimumTotalSamples {
      reasons := reasons + [InsufficientTotalSamples];
    }
    if tooSmall {
      reasons := reasons + [InsufficientBinSamples];
    }
    if reasons != [] {
      return InsufficientData, reasons;
    }
    if s.totalVariation > options.maximumTotalVariation {
      reasons := reasons + [ConfidenceDistributionShift];
    }
    if s.expectedError > options.maximumExpectedError {
      reasons := reasons + [ExpectedCalibrationErrorExceeded];
    }
    if s.overallDrop > options.maximumOverallDrop {
      reasons := reasons + [OverallSuccessRateDropExceeded];
    }
    if s.maximumBinDrop > options.maximumBinDrop {
      reasons := reasons + [BinSuccessRateDropExceeded];
    }
    status := if reasons == [] then Stable else DriftDetected;
  }

  method AssessDrift(hash: Hash, bound: LowerBound, profile: CalibrationProfile, window: WindowInput,
                     options: DriftOptions)
    returns (report: Result<DriftReport>)
    ensures report == Assess(hash, bound, profile, window, options)
  {
    if !AdmissibleInput(hash, bound, profile, window, options) {
      return Err(InvalidArgument);
    }
    var failure, samples, successes, tooSmall := AdmitWindow(window.bins, options.minimumBinSamples);
    if failure.Some? {
      return Err(failure.value);
    }
    AdmittedWindow(window.bins);
    var s := Measure(profile, window.bins, samples, successes);
    var status, reasons := Decide(s, tooSmall, options);
    report := Ok(DriftReport(
      hash(ReportTree(profile.id, window, options)), profile.id, window.windowId, window.sequence, window.sourceDigest,
      options, status, reasons, samples, s.totalVariation, s.baselineRate, s.observedRate, s.overallDrop,
      s.expectedError, s.maximumError, s.maximumBinDrop, s.bins));
  }
}
