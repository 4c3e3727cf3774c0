/** The stored form of a lifecycle at the level of JSON trees: the encoder, the
    field readers, and the decoder with its resource limits and final replay. */
module LifecycleCodec {
  import opened Support
  import opened Sequences
  import opened Decimal
  import opened JsonFields
  import opened Profile
  import opened Drift
  import opened Lifecycle

  const MAXIMUM_STRING: nat := 4096
  const FORMAT: string := "rbfsafe-policy-calibration-lifecycle"

  datatype LoadLimits = LoadLimits(reports: nat, events: nat, totalBins: nat)

  // ----- numbers of the enumerations

  function StatusNumber(status: DriftStatus): nat {
    match status
    case InsufficientData => 0
    case Stable => 1
    case DriftDetected => 2
  }

  function ReasonNumber(reason: DriftReason): nat {
    match reason
    case InsufficientTotalSamples => 0
    case InsufficientBinSamples => 1
    case ConfidenceDistributionShift => 2
    case ExpectedCalibrationErrorExceeded => 3
    case OverallSuccessRateDropExceeded => 4
    case BinSuccessRateDropExceeded => 5
  }

  function StateOf(n: nat): LifecycleState
    requires n <= 3
  {
    if n == 0 then PendingReview else if n == 1 then Active else if n == 2 then Quarantined else Retired
  }

  function TypeOf(n: nat): EventType
    requires n <= 2
  {
    if n == 0 then Registered else if n == 1 then DriftAssessed else StateTransition
  }

  function StatusFor(n: nat): DriftStatus
    requires n <= 2
  {
    if n == 0 then InsufficientData else if n == 1 then Stable else DriftDetected
  }

  function ReasonFor(n: nat): DriftReason
    requires n <= 5
  {
    if n == 0 then InsufficientTotalSamples
    else if n == 1 then InsufficientBinSamples
    else if n == 2 then ConfidenceDistributionShift
    else if n == 3 then ExpectedCalibrationErrorExceeded
    else if n == 4 then OverallSuccessRateDropExceeded
    else BinSuccessRateDropExceeded
  }

  // ----- encoding

  function ReasonJson(reason: DriftReason): Json {
    JNumber(ReasonNumber(reason) as real)
  }

  function BinJson(bin: WindowBin): Json {
    JObject(map[
      Key.AbsoluteCalibrationError := JNumber(bin.absoluteError),
      Key.BaselineFraction := JNumber(bin.baselineFraction),
      Key.BaselineSuccessRate := JNumber(bin.baselineSuccessRate),
      Key.ObservedFraction := JNumber(bin.observedFraction),
      Key.ObservedSuccessRate := JNumber(bin.observedSuccessRate),
      Key.OutcomeRateAvailable := JBool(bin.outcomeRateAvailable),
      Key.Samples := JString(Print(bin.samples)),
      Key.SuccessRateDrop := JNumber(bin.successRateDrop),
      Key.Successes := JString(Print(bin.successes))])
  }

  function ReportJson(report: DriftReport): Json {
    JObject(map[
      Key.BaselineSuccessRate := JNumber(report.baselineSuccessRate),
      Key.Bins := JArray(EncodeAll(report.bins, BinJson)),
      Key.ExpectedCalibrationError := JNumber(report.expectedError),
      Key.Id := JString(report.id),
      Key.MaximumBinSuccessRateDrop := JNumber(report.maximumBinDrop),
      Key.MaximumCalibrationError := JNumber(report.maximumError),
      Key.ObservedSuccessRate := JNumber(report.observedSuccessRate),
      Key.Options := OptionsTree(report.options),
      Key.OverallSuccessRateDrop := JNumber(report.overallDrop),
      Key.ProfileId := JString(report.profileId),
      Key.Reasons := JArray(EncodeAll(report.reasons, ReasonJson)),
      Key.SampleCount := JString(Print(report.sampleCount)),
      Key.SourceDigest := JString(report.sourceDigest),
      Key.Status := JNumber(StatusNumber(report.status) as real),
      Key.TotalVariationDistance := JNumber(report.totalVariation),
      Key.WindowId := JString(report.windowId),
      Key.WindowSequence := JString(Print(report.windowSequence))])
  }

  function EventJson(event: Event): Json {
    JObject(map[
      Key.CurrentState := JNumber(StateNumber(event.currentState) as real),
      Key.Detail := JString(event.detail),
      Key.Id := JString(event.id),
      Key.ParentId := JString(event.parentId),
      Key.PreviousState := JNumber(StateNumber(event.previousState) as real),
      Key.ReportId := JString(event.reportId),
      Key.Sequence := JString(Print(event.sequence)),
      Key.Type := JNumber(TypeNumber(event.eventType) as real)])
  }

  function LogJson(log: Log, version: string): Json {
    JObject(map[
      Key.CurrentEventId := JString(log.currentEventId),
      Key.Events := JArray(EncodeAll(log.events, EventJson)),
      Key.Format := JString(FORMAT),
      Key.Generation := JString(Print(log.generation)),
      Key.LatestReportId := JString(log.latestReportId),
      Key.LibraryVersion := JString(version),
      Key.ProfileId := JString(log.profileId),
      Key.Reports := JArray(EncodeAll(log.reports, ReportJson)),
      Key.Schema := JNumber(1.0),
      Key.State := JNumber(StateNumber(log.state) as real)])
  }

  // ----- fields

  function StringIn(field: Option<Json>, allowEmpty: bool): Result<string> {
    if field.Some? && field.value.JString? && |field.value.s| <= MAXIMUM_STRING && (allowEmpty || field.value.s != "")
      then Ok(field.value.s)
    else Err(CorruptData)
  }

  function DecimalIn(field: Option<Json>): Result<U64> {
    var text :- StringIn(field, false);
    match Parse(text)
    case None => Err(CorruptData)
    case Some(value) => Ok(value)
  }

  function WholeNumber(x: real, maximum: nat): (whole: Result<nat>)
    ensures whole.Ok? ==> whole.value <= maximum && whole.value as real == x
  {
    if x < 0.0 || x.Floor as real != x || x > maximum as real then Err(CorruptData) else Ok(x.Floor)
  }

  function EnumIn(field: Option<Json>, maximum: nat): (value: Result<nat>)
    ensures value.Ok? ==> value.value <= maximum
  {
    var x :- NumberIn(field);
    WholeNumber(x, maximum)
  }

  function BoolIn(field: Option<Json>): Result<bool> {
    if field.Some? && field.value.JBool? then Ok(field.value.b) else Err(CorruptData)
  }

  // ----- decoding

  function DecodeReason(item: Json): Result<DriftReason> {
    var n :- EnumIn(Some(item), 5);
    Ok(ReasonFor(n))
  }

  function DecodeOptions(node: Json): Result<DriftOptions> {
    var minimumTotal :- DecimalIn(Field(node, Key.MinimumTotalSamples));
    var minimumBin :- DecimalIn(Field(node, Key.MinimumBinSamples));
    var variation :- NumberIn(Field(node, Key.MaximumTotalVariationDistance));
    var expectedError :- NumberIn(Field(node, Key.MaximumExpectedCalibrationError));
    var overallDrop :- NumberIn(Field(node, Key.MaximumOverallSuccessRateDrop));
    var binDrop :- NumberIn(Field(node, Key.MaximumBinSuccessRateDrop));
    Ok(DriftOptions(minimumTotal, minimumBin, variation, expectedError, overallDrop, binDrop))
  }

  function DecodeBin(node: Json): Result<WindowBin> {
    var samples :- DecimalIn(Field(node, Key.Samples));
    var successes :- DecimalIn(Field(node, Key.Successes));
    var baselineFraction :- NumberIn(Field(node, Key.BaselineFraction));
    var observedFraction :- NumberIn(Field(node, Key.ObservedFraction));
    var baselineSuccess :- NumberIn(Field(node, Key.BaselineSuccessRate));
    var available :- BoolIn(Field(node, Key.OutcomeRateAvailable));
    var observedSuccess :- NumberIn(Field(node, Key.ObservedSuccessRate));
    var drop :- NumberIn(Field(node, Key.SuccessRateDrop));
    var error :- NumberIn(Field(node, Key.AbsoluteCalibrationError));
    Ok(WindowBin(samples, successes, baselineFraction, observedFraction, baselineSuccess, available, observedSuccess,
                 drop, error))
  }

  /** The declarations and verdict of a stored report. */
  datatype Heading = Heading(id: string, profileId: string, windowId: string, windowSequence: U64, sourceDigest: string,
                             status: DriftStatus, sampleCount: U64)

  function DecodeHeading(node: Json): Result<Heading> {
    var id :- StringIn(Field(node, Key.Id), false);
    var profileId :- StringIn(Field(node, Key.ProfileId), false);
    var windowId :- StringIn(Field(node, Key.WindowId), false);
    var windowSequence :- DecimalIn(Field(node, Key.WindowSequence));
    var sourceDigest :- StringIn(Field(node, Key.SourceDigest), false);
    var status :- EnumIn(Field(node, Key.Status), 2);
    var sampleCount :- DecimalIn(Field(node, Key.SampleCount));
    Ok(Heading(id, profileId, windowId, windowSequence, sourceDigest, StatusFor(status), sampleCount))
  }

  /** The statistics of a stored report. */
  datatype Figures = Figures(variation: real, baseline: real, observed: real, overallDrop: real, expectedError: real,
                             maximumError: real, maximumBinDrop: real)

  function DecodeFigures(node: Json): Result<Figures> {
    var variation :- NumberIn(Field(node, Key.TotalVariationDistance));
    var baseline :- NumberIn(Field(node, Key.BaselineSuccessRate));
    var observed :- NumberIn(Field(node, Key.ObservedSuccessRate));
    var overallDrop :- NumberIn(Field(node, Key.OverallSuccessRateDrop));
    var expectedError :- NumberIn(Field(node, Key.ExpectedCalibrationError));
    var maximumError :- NumberIn(Field(node, Key.MaximumCalibrationError));
    var maximumBinDrop :- NumberIn(Field(node, Key.MaximumBinSuccessRateDrop));
    Ok(Figures(variation, baseline, observed, overallDrop, expectedError, maximumError, maximumBinDrop))
  }

  /** The parts of a stored report that hold other records. */
  datatype Parts = Parts(options: DriftOptions, reasons: seq<DriftReason>, bins: seq<WindowBin>)

  function DecodeParts(node: Json, maximumBins: nat): Result<Parts> {
    var storedReasons :- ArrayIn(Field(node, Key.Reasons));
    var storedBins :- ArrayIn(Field(node, Key.Bins));
    if Field(node, Key.Options).None? || |storedBins| > maximumBins then Err(CorruptData)
    else
      var options :- DecodeOptions(Field(node, Key.Options).value);
      var reasons :- DecodeAll(storedReasons, DecodeReason);
      var bins :- DecodeAll(storedBins, DecodeBin);
      Ok(Parts(options, reasons, bins))
  }

  function Compose(h: Heading, f: Figures, p: Parts): DriftReport {
    DriftReport(h.id, h.profileId, h.windowId, h.windowSequence, h.sourceDigest, p.options, h.status, p.reasons,
                h.sampleCount, f.variation, f.baseline, f.observed, f.overallDrop, f.expectedError, f.maximumError,
                f.maximumBinDrop, p.bins)
  }

  function DecodeReport(node: Json, maximumBins: nat): Result<DriftReport> {
    var heading :- DecodeHeading(node);
    var figures :- DecodeFigures(node);
    var parts :- DecodeParts(node, maximumBins);
    Ok(Compose(heading, figures, parts))
  }

  function DecodeEvent(node: Json): Result<Event> {
    var id :- StringIn(Field(node, Key.Id), false);
    var parentId :- StringIn(Field(node, Key.ParentId), true);
    var sequence :- DecimalIn(Field(node, Key.Sequence));
    var eventType :- EnumIn(Field(node, Key.Type), 2);
    var previous :- EnumIn(Field(node, Key.PreviousState), 3);
    var current :- EnumIn(Field(node, Key.CurrentState), 3);
    var reportId :- StringIn(Field(node, Key.ReportId), true);
    var detail :- StringIn(Field(node, Key.Detail), false);
    Ok(Event(id, parentId, sequence, TypeOf(eventType), StateOf(previous), StateOf(current), reportId, detail))
  }

  /** The reports decoded so far and the bins they hold. */
  datatype Batch = Batch(reports: seq<DriftReport>, totalBins: nat)

  function DecodeReports(items: seq<Json>, maximumBins: nat, maximumTotal: nat): (batch: Result<Batch>)
    ensures batch.Ok? ==> batch.value.totalBins <= maximumTotal
  {
    if items == [] then Ok(Batch([], 0)) else
      var before :- DecodeReports(items[..|items| - 1], maximumBins, maximumTotal);
      DecodeNext(before, Last(items), maximumBins, maximumTotal)
  }

  function DecodeNext(before: Batch, item: Json, maximumBins: nat, maximumTotal: nat): (batch: Result<Batch>)
    requires before.totalBins <= maximumTotal
    ensures batch.Ok? ==> batch.value.totalBins <= maximumTotal
  {
    var bins := ArrayIn(Field(item, Key.Bins));
    if bins.Err? || |bins.value| > maximumTotal - before.totalBins then Err(ResourceLimit)
    else
      var report :- DecodeReport(item, maximumBins);
      Ok(Batch(before.reports + [report], before.totalBins + |bins.value|))
  }

  /** The scalar members of a stored lifecycle and its two tables. */
  datatype Envelope = Envelope(
    format: string,
    schema: real,
    profileId: string,
    state: LifecycleState,
    generation: U64,
    currentEventId: string,
    latestReportId: string,
    reports: seq<Json>,
    events: seq<Json>)

  function DecodeEnvelope(document: Json): Result<Envelope> {
    var format :- StringIn(Field(document, Key.Format), false);
    var schema :- NumberIn(Field(document, Key.Schema));
    var version :- StringIn(Field(document, Key.LibraryVersion), false);
    var profileId :- StringIn(Field(document, Key.ProfileId), false);
    var state :- EnumIn(Field(document, Key.State), 3);
    var generation :- DecimalIn(Field(document, Key.Generation));
    var currentEventId :- StringIn(Field(document, Key.CurrentEventId), false);
    var latestReportId :- StringIn(Field(document, Key.LatestReportId), true);
    var reports :- ArrayIn(Field(document, Key.Reports));
    var events :- ArrayIn(Field(document, Key.Events));
    Ok(Envelope(format, schema, profileId, StateOf(state), generation, currentEventId, latestReportId, reports, events))
  }

  function DecodeTables(envelope: Envelope, maximumBins: nat, maximumTotal: nat): Result<Log> {
    var batch :- DecodeReports(envelope.reports, maximumBins, maximumTotal);
    var events :- DecodeAll(envelope.events, DecodeEvent);
    Ok(Log(envelope.profileId, envelope.state, envelope.generation, envelope.currentEventId, envelope.latestReportId,
           batch.reports, events))
  }

  function EnvelopeRefusal(envelope: Envelope, limits: LoadLimits): Option<StatusCode> {
    if envelope.format != FORMAT || envelope.schema != 1.0 then Some(IncompatibleFormat)
    else if |envelope.reports| > limits.reports || envelope.events == [] || |envelope.events| > limits.events
           then Some(ResourceLimit)
    else None
  }

  /** Decoding under limits, and then full replay. */
  function LoadedLog(c: Calibration, binCount: nat, document: Json, limits: LoadLimits): Result<Log> {
    if !c.valid || limits.reports == 0 || limits.events == 0 || limits.totalBins == 0 then Err(InvalidArgument)
    else
      var envelope :- DecodeEnvelope(document);
      if EnvelopeRefusal(envelope, limits).Some? then Err(EnvelopeRefusal(envelope, limits).value)
      else
        var log :- DecodeTables(envelope, binCount, limits.totalBins);
        if ValidLog(c, log) then Ok(log) else Err(CorruptData)
  }

  // ----- the procedure

  method ReadParts(node: Json, maximumBins: nat) returns (parts: Result<Parts>)
    ensures parts == DecodeParts(node, maximumBins)
  {
    var storedReasons, storedBins := ArrayIn(Field(node, Key.Reasons)), ArrayIn(Field(node, Key.Bins));
    if storedReasons.Err? || storedBins.Err? || Field(node, Key.Options).None? || |storedBins.value| > maximumBins {
      return Err(CorruptData);
    }
    var options := DecodeOptions(Field(node, Key.Options).value);
    if options.Err? {
      return Err(options.code);
    }
    var reasons := DecodeItems(storedReasons.value, DecodeReason);
    if reasons.Err? {
      return Err(reasons.code);
    }
    var bins := DecodeItems(storedBins.value, DecodeBin);
    if bins.Err? {
      return Err(bins.code);
    }
    parts := Ok(Parts(options.value, reasons.value, bins.value));
  }

  method ReadReport(node: Json, maximumBins: nat) returns (report: Result<DriftReport>)
    ensures report == DecodeReport(node, maximumBins)
  {
    var heading := DecodeHeading(node);
    if heading.Err? {
      return Err(heading.code);
    }
    var figures := DecodeFigures(node);
    if figures.Err? {
      return Err(figures.code);
    }
    var parts := ReadParts(node, maximumBins);
    if parts.Err? {
      return Err(parts.code);
    }
    report := Ok(Compose(heading.value, figures.value, parts.value));
  }

  lemma {:induction false} FirstReportFailureWins(items: seq<Json>, maximumBins: nat, maximumTotal: nat, n: nat)
    requires n <= |items| && DecodeReports(items[..n], maximumBins, maximumTotal).Err?
    ensures DecodeReports(items, maximumBins, maximumTotal) == DecodeReports(items[..n], maximumBins, maximumTotal)
  {
    if n == |items| {
      assert items[..n] == items;
    } else {
      assert items[..|items| - 1][..n] == items[..n];
      FirstReportFailureWins(items[..|items| - 1], maximumBins, maximumTotal, n);
    }
  }

  lemma {:induction false} NextReport(items: seq<Json>, maximumBins: nat, maximumTotal: nat, n: nat, before: Batch)
    requires n < |items| && DecodeReports(items[..n], maximumBins, maximumTotal) == Ok(before)
    ensures var next := DecodeNext(before, items[n], maximumBins, maximumTotal);
            && DecodeReports(items[..n + 1], maximumBins, maximumTotal) == next
            && (next.Err? ==> DecodeReports(items, maximumBins, maximumTotal) == next)
  {
    assert items[..n + 1][..n] == items[..n] && Last(items[..n + 1]) == items[n];
    if DecodeReports(items[..n + 1], maximumBins, maximumTotal).Err? {
      FirstReportFailureWins(items, maximumBins, maximumTotal, n + 1);
    }
  }

  method ReadNext(before: Batch, item: Json, maximumBins: nat, maximumTotal: nat) returns (batch: Result<Batch>)
    requires before.totalBins <= maximumTotal
    ensures batch == DecodeNext(before, item, maximumBins, maximumTotal)
  {
    var bins := ArrayIn(Field(item, Key.Bins));
    if bins.Err? || |bins.value| > maximumTotal - before.totalBins {
      return Err(ResourceLimit);
    }
    var report := ReadReport(item, maximumBins);
    if report.Err? {
      return Err(report.code);
    }
    batch := Ok(Batch(before.reports + [report.value], before.totalBins + |bins.value|));
  }

  /** The report loop; the running total never passes the limit, so the budget left is never negative. */
  method ReadReports(items: seq<Json>, maximumBins: nat, maximumTotal: nat) returns (batch: Result<Batch>)
    ensures batch == DecodeReports(items, maximumBins, maximumTotal)
  {
    var done := Batch([], 0);
    for i := 0 to |items|
      invariant done.totalBins <= maximumTotal && DecodeReports(items[..i], maximumBins, maximumTotal) == Ok(done)
    {
      NextReport(items, maximumBins, maximumTotal, i, done);
      var next := ReadNext(done, items[i], maximumBins, maximumTotal);
      if next.Err? {
        return next;
      }
      done := next.value;
    }
    assert items[..|items|] == items;
    batch := Ok(done);
  }

  method ReadTables(envelope: Envelope, maximumBins: nat, maximumTotal: nat) returns (log: Result<Log>)
    ensures log == DecodeTables(envelope, maximumBins, maximumTotal)
  {
    var batch := ReadReports(envelope.reports, maximumBins, maximumTotal);
    if batch.Err? {
      return Err(batch.code);
    }
    var events := DecodeItems(envelope.events, DecodeEvent);
    if events.Err? {
      return Err(events.code);
    }
    log := Ok(Log(envelope.profileId, envelope.state, envelope.generation, envelope.currentEventId,
                  envelope.latestReportId,
                  batch.value.reports, events.value));
  }

  method Load(basis: Basis, document: Json, limits: LoadLimits) returns (lifecycle: Result<PolicyCalibrationLifecycle>)
    ensures match LoadedLog(basis.Calibrate(), |basis.profile.bins|, document, limits)
            case Err(code) => lifecycle == Err(code)
            case Ok(log) => lifecycle.Ok? && fresh(lifecycle.value) && lifecycle.value.Contents() == log
  {
    if !ValidProfile(basis.hash, basis.bound, basis.profile) || limits.reports == 0 || limits.events == 0
        || limits.totalBins == 0 {
      return Err(InvalidArgument);
    }
    var envelope := DecodeEnvelope(document);
    if envelope.Err? {
      return Err(envelope.code);
    }
    var refusal := EnvelopeRefusal(envelope.value, limits);
    if refusal.Some? {
      return Err(refusal.value);
    }
    var log := ReadTables(envelope.value, |basis.profile.bins|, limits.totalBins);
    if log.Err? {
      return Err(log.code);
    }
    var result := new PolicyCalibrationLifecycle(log.value);
    var valid := result.Valid(basis);
    if !valid {
      return Err(CorruptData);
    }
    lifecycle := Ok(result);
  }
}
