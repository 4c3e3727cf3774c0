/** Storing and loading a lifecycle: decoding undoes encoding on every valid log
    within the limits, and whatever loads is valid and within them. */
module LifecycleRoundTrip {
  import opened Support
  import opened Sequences
  import opened Decimal
  import opened JsonFields
  import opened Profile
  import opened Drift
  import opened Lifecycle
  import opened LifecycleRuns
  import opened LifecycleReplay
  import opened LifecycleHistory
  import opened LifecycleIdentity
  import opened LifecycleCodec

  // ----- fields

  lemma {:induction false} ReadDecimal(n: U64)
    ensures DecimalIn(Some(JString(Print(n)))) == Ok(n)
  {
    ParsePrint(n);
    CounterLength(n);
  }

  lemma {:induction false} ReadEnum(n: nat, maximum: nat)
    requires n <= maximum
    ensures EnumIn(Some(JNumber(n as real)), maximum) == Ok(n)
  {
    assert (n as real).Floor == n;
  }

  // ----- records

  lemma {:induction false} ReasonRoundTrip(reason: DriftReason)
    ensures DecodeReason(ReasonJson(reason)) == Ok(reason)
  {
    ReadEnum(ReasonNumber(reason), 5);
  }

  lemma {:induction false} OptionsRoundTrip(options: DriftOptions)
    ensures DecodeOptions(OptionsTree(options)) == Ok(options)
  {
    ReadDecimal(options.minimumTotalSamples);
    ReadDecimal(options.minimumBinSamples);
  }

  lemma {:induction false} BinRoundTrip(bin: WindowBin)
    ensures DecodeBin(BinJson(bin)) == Ok(bin)
  {
    ReadDecimal(bin.samples);
    ReadDecimal(bin.successes);
  }

  predicate Storable(text: string) {
    0 < |text| <= MAXIMUM_STRING
  }

  predicate StorableReport(report: DriftReport) {
    Storable(report.id) && Storable(report.profileId) && Storable(report.windowId) && Storable(report.sourceDigest)
  }

  predicate StorableEvent(event: Event) {
    Storable(event.id) && Storable(event.detail) && |event.parentId| <= MAXIMUM_STRING
        && |event.reportId| <= MAXIMUM_STRING
  }

  lemma {:induction false} HeadingRoundTrip(report: DriftReport)
    requires StorableReport(report)
    ensures DecodeHeading(ReportJson(report))
      == Ok(Heading(report.id, report.profileId, report.windowId, report.windowSequence, report.sourceDigest,
                    report.status, report.sampleCount))
  {
    ReadDecimal(report.windowSequence);
    ReadDecimal(report.sampleCount);
    ReadEnum(StatusNumber(report.status), 2);
  }

  lemma {:induction false} RateFields(report: DriftReport)
    ensures Field(ReportJson(report), Key.TotalVariationDistance) == Some(JNumber(report.totalVariation))
    ensures Field(ReportJson(report), Key.BaselineSuccessRate) == Some(JNumber(report.baselineSuccessRate))
    ensures Field(ReportJson(report), Key.ObservedSuccessRate) == Some(JNumber(report.observedSuccessRate))
  {
  }

  lemma {:induction false} ErrorFields(report: DriftReport)
    ensures Field(ReportJson(report), Key.OverallSuccessRateDrop) == Some(JNumber(report.overallDrop))
    ensures Field(ReportJson(report), Key.ExpectedCalibrationError) == Some(JNumber(report.expectedError))
    ensures Field(ReportJson(report), Key.MaximumCalibrationError) == Some(JNumber(report.maximumError))
    ensures Field(ReportJson(report), Key.MaximumBinSuccessRateDrop) == Some(JNumber(report.maximumBinDrop))
  {
  }

  lemma {:induction false} FiguresRoundTrip(report: DriftReport)
    ensures DecodeFigures(ReportJson(report))
      == Ok(Figures(report.totalVariation, report.baselineSuccessRate, report.observedSuccessRate, report.overallDrop,
                    report.expectedError,
                    report.maximumError, report.maximumBinDrop))
  {
    RateFields(report);
    ErrorFields(report);
  }

  lemma {:induction false} PartFields(report: DriftReport)
    ensures Field(ReportJson(report), Key.Reasons) == Some(JArray(EncodeAll(report.reasons, ReasonJson)))
    ensures Field(ReportJson(report), Key.Bins) == Some(JArray(EncodeAll(report.bins, BinJson)))
    ensures Field(ReportJson(report), Key.Options) == Some(OptionsTree(report.options))
  {
  }

  lemma {:induction false} ReasonsRoundTrip(reasons: seq<DriftReason>)
    ensures DecodeAll(EncodeAll(reasons, ReasonJson), DecodeReason) == Ok(reasons)
  {
    forall i | 0 <= i < |reasons| ensures DecodeReason(ReasonJson(reasons[i])) == Ok(reasons[i]) {
      ReasonRoundTrip(reasons[i]);
    }
    ReadAll(reasons, ReasonJson, DecodeReason);
  }

  lemma {:induction false} BinsRoundTrip(bins: seq<WindowBin>)
    ensures DecodeAll(EncodeAll(bins, BinJson), DecodeBin) == Ok(bins)
  {
    forall i | 0 <= i < |bins| ensures DecodeBin(BinJson(bins[i])) == Ok(bins[i]) {
      BinRoundTrip(bins[i]);
    }
    ReadAll(bins, BinJson, DecodeBin);
  }

  lemma {:induction false} PartsDecode(node: Json, maximumBins: nat, options: Json, reasons: seq<Json>, bins: seq<Json>,
                                       parts: Parts)
    requires Field(node, Key.Reasons) == Some(JArray(reasons)) && Field(node, Key.Bins) == Some(JArray(bins))
             && Field(node, Key.Options) == Some(options)
    requires |bins| <= maximumBins && DecodeOptions(options) == Ok(parts.options)
    requires DecodeAll(reasons, DecodeReason) == Ok(parts.reasons) && DecodeAll(bins, DecodeBin) == Ok(parts.bins)
    ensures DecodeParts(node, maximumBins) == Ok(parts)
  {
  }

  lemma {:induction false} PartsRoundTrip(report: DriftReport, maximumBins: nat)
    requires |report.bins| <= maximumBins
    ensures DecodeParts(ReportJson(report), maximumBins) == Ok(Parts(report.options, report.reasons, report.bins))
  {
    PartFields(report);
    OptionsRoundTrip(report.options);
    ReasonsRoundTrip(report.reasons);
    BinsRoundTrip(report.bins);
    PartsDecode(ReportJson(report), maximumBins, OptionsTree(report.options), EncodeAll(report.reasons, ReasonJson),
                EncodeAll(report.bins, BinJson), Parts(report.options, report.reasons, report.bins));
  }

  lemma {:induction false} ReportRoundTrip(report: DriftReport, maximumBins: nat)
    requires StorableReport(report) && |report.bins| <= maximumBins
    ensures DecodeReport(ReportJson(report), maximumBins) == Ok(report)
  {
    HeadingRoundTrip(report);
    FiguresRoundTrip(report);
    PartsRoundTrip(report, maximumBins);
  }

  lemma {:induction false} EventRoundTrip(event: Event)
    requires StorableEvent(event)
    ensures DecodeEvent(EventJson(event)) == Ok(event)
  {
    ReadDecimal(event.sequence);
    ReadEnum(TypeNumber(event.eventType), 2);
    ReadEnum(StateNumber(event.previousState), 3);
    ReadEnum(StateNumber(event.currentState), 3);
  }

  // ----- tables

  function TotalBins(reports: seq<DriftReport>): nat {
    if reports == [] then 0 else TotalBins(reports[..|reports| - 1]) + |Last(reports).bins|
  }

  /** The item decodes to the report, and its table of bins is as long as the report's. */
  predicate Stores(item: Json, report: DriftReport, maximumBins: nat) {
    && DecodeReport(item, maximumBins) == Ok(report)
    && ArrayIn(Field(item, Key.Bins)).Ok? && |ArrayIn(Field(item, Key.Bins)).value| == |report.bins|
  }

  lemma {:induction false} JsonStores(report: DriftReport, maximumBins: nat)
    requires StorableReport(report) && |report.bins| <= maximumBins
    ensures Stores(ReportJson(report), report, maximumBins)
  {
    ReportRoundTrip(report, maximumBins);
    PartFields(report);
  }

  predicate AllStored(items: seq<Json>, reports: seq<DriftReport>, maximumBins: nat) {
    |items| == |reports| && forall k :: 0 <= k < |items| ==> Stores(items[k], reports[k], maximumBins)
  }

  lemma {:induction false} StoredPrefix(items: seq<Json>, reports: seq<DriftReport>, maximumBins: nat)
    requires AllStored(items, reports, maximumBins) && items != []
    ensures AllStored(items[..|items| - 1], reports[..|reports| - 1], maximumBins)
    ensures Stores(Last(items), Last(reports), maximumBins)
  {
  }

  lemma {:induction false} StoredNext(before: Batch, item: Json, report: DriftReport, maximumBins: nat,
                                      maximumTotal: nat)
    requires Stores(item, report, maximumBins) && before.totalBins + |report.bins| <= maximumTotal
    ensures DecodeNext(before, item, maximumBins, maximumTotal)
            == Ok(Batch(before.reports + [report], before.totalBins + |report.bins|))
  {
  }

  lemma {:induction false} DecodesLast(items: seq<Json>, prior: Batch, maximumBins: nat, maximumTotal: nat)
    requires items != [] && DecodeReports(items[..|items| - 1], maximumBins, maximumTotal) == Ok(prior)
    ensures DecodeReports(items, maximumBins, maximumTotal) == DecodeNext(prior, Last(items), maximumBins, maximumTotal)
  {
  }

  /** What decoding the encoded reports yields. */
  function BatchOf(reports: seq<DriftReport>): Batch {
    Batch(reports, TotalBins(reports))
  }

  lemma {:induction false} BatchGrows(reports: seq<DriftReport>)
    requires reports != []
    ensures var before := BatchOf(reports[..|reports| - 1]);
            BatchOf(reports) == Batch(before.reports + [Last(reports)], before.totalBins + |Last(reports).bins|)
  {
    assert reports == reports[..|reports| - 1] + [Last(reports)];
  }

  lemma {:induction false} StoredLast(item: Json, reports: seq<DriftReport>, maximumBins: nat, maximumTotal: nat)
    requires reports != [] && TotalBins(reports) <= maximumTotal && Stores(item, Last(reports), maximumBins)
    ensures TotalBins(reports[..|reports| - 1]) <= maximumTotal
    ensures DecodeNext(BatchOf(reports[..|reports| - 1]), item, maximumBins, maximumTotal) == Ok(BatchOf(reports))
  {
    BatchGrows(reports);
    StoredNext(BatchOf(reports[..|reports| - 1]), item, Last(reports), maximumBins, maximumTotal);
  }

  lemma {:induction false} StoredReportsDecode(items: seq<Json>, reports: seq<DriftReport>, maximumBins: nat,
                                               maximumTotal: nat)
    requires AllStored(items, reports, maximumBins) && TotalBins(reports) <= maximumTotal
    ensures DecodeReports(items, maximumBins, maximumTotal) == Ok(BatchOf(reports))
  {
    if reports != [] {
      StoredPrefix(items, reports, maximumBins);
      StoredLast(Last(items), reports, maximumBins, maximumTotal);
      StoredReportsDecode(items[..|items| - 1], reports[..|reports| - 1], maximumBins, maximumTotal);
      DecodesLast(items, BatchOf(reports[..|reports| - 1]), maximumBins, maximumTotal);
    }
  }

  lemma {:induction false} ReportsRoundTrip(reports: seq<DriftReport>, maximumBins: nat, maximumTotal: nat)
    requires forall k :: 0 <= k < |reports| ==> StorableReport(reports[k]) && |reports[k].bins| <= maximumBins
    requires TotalBins(reports) <= maximumTotal
    ensures DecodeReports(EncodeAll(reports, ReportJson), maximumBins, maximumTotal)
            == Ok(Batch(reports, TotalBins(reports)))
  {
    var items := EncodeAll(reports, ReportJson);
    forall k | 0 <= k < |items| ensures Stores(items[k], reports[k], maximumBins) {
      JsonStores(reports[k], maximumBins);
    }
    StoredReportsDecode(items, reports, maximumBins, maximumTotal);
  }

  predicate StorableLog(log: Log, version: string, maximumBins: nat) {
    && Storable(version) && Storable(log.profileId) && Storable(log.currentEventId)
    && |log.latestReportId| <= MAXIMUM_STRING
    && (forall k :: 0 <= k < |log.reports| ==> StorableReport(log.reports[k]) && |log.reports[k].bins| <= maximumBins)
    && (forall i :: 0 <= i < |log.events| ==> StorableEvent(log.events[i]))
  }

  function EnvelopeOf(log: Log): Envelope {
    Envelope(FORMAT, 1.0, log.profileId, log.state, log.generation, log.currentEventId, log.latestReportId,
             EncodeAll(log.reports, ReportJson), EncodeAll(log.events, EventJson))
  }

  lemma {:induction false} EnvelopeTexts(log: Log, version: string)
    ensures var document := LogJson(log, version);
            && Field(document, Key.Format) == Some(JString(FORMAT))
            && Field(document, Key.LibraryVersion) == Some(JString(version))
            && Field(document, Key.ProfileId) == Some(JString(log.profileId))
            && Field(document, Key.CurrentEventId) == Some(JString(log.currentEventId))
            && Field(document, Key.LatestReportId) == Some(JString(log.latestReportId))
  {
  }

  lemma {:induction false} EnvelopeRest(log: Log, version: string)
    ensures var document := LogJson(log, version);
            && Field(document, Key.Schema) == Some(JNumber(1.0))
            && Field(document, Key.State) == Some(JNumber(StateNumber(log.state) as real))
            && Field(document, Key.Generation) == Some(JString(Print(log.generation)))
            && Field(document, Key.Reports) == Some(JArray(EncodeAll(log.reports, ReportJson)))
            && Field(document, Key.Events) == Some(JArray(EncodeAll(log.events, EventJson)))
  {
  }

  lemma {:induction false} EnvelopeRoundTrip(log: Log, version: string)
    requires Storable(version) && Storable(log.profileId) && Storable(log.currentEventId)
             && |log.latestReportId| <= MAXIMUM_STRING
    ensures DecodeEnvelope(LogJson(log, version)) == Ok(EnvelopeOf(log))
  {
    EnvelopeTexts(log, version);
    EnvelopeRest(log, version);
    EnvelopeDecodes(LogJson(log, version), version, EnvelopeOf(log));
  }

  lemma {:induction false} EnvelopeDecodes(document: Json, version: string, e: Envelope)
    requires Field(document, Key.Format) == Some(JString(FORMAT))
             && Field(document, Key.LibraryVersion) == Some(JString(version))
    requires Field(document, Key.ProfileId) == Some(JString(e.profileId))
             && Field(document, Key.CurrentEventId) == Some(JString(e.currentEventId))
    requires Field(document, Key.LatestReportId) == Some(JString(e.latestReportId))
             && Field(document, Key.Schema) == Some(JNumber(1.0))
    requires Field(document, Key.State) == Some(JNumber(StateNumber(e.state) as real))
             && Field(document, Key.Generation) == Some(JString(Print(e.generation)))
    requires Field(document, Key.Reports) == Some(JArray(e.reports))
             && Field(document, Key.Events) == Some(JArray(e.events))
    requires e.format == FORMAT && e.schema == 1.0
    requires Storable(version) && Storable(e.profileId) && Storable(e.currentEventId)
             && |e.latestReportId| <= MAXIMUM_STRING
    ensures DecodeEnvelope(document) == Ok(e)
  {
    assert |FORMAT| == 36;
    ReadDecimal(e.generation);
    ReadEnum(StateNumber(e.state), 3);
  }

  lemma {:induction false} TablesRoundTrip(log: Log, version: string, maximumBins: nat, maximumTotal: nat)
    requires StorableLog(log, version, maximumBins) && TotalBins(log.reports) <= maximumTotal
    ensures DecodeTables(EnvelopeOf(log), maximumBins, maximumTotal) == Ok(log)
  {
    ReportsRoundTrip(log.reports, maximumBins, maximumTotal);
    forall i | 0 <= i < |log.events| ensures DecodeEvent(EventJson(log.events[i])) == Ok(log.events[i]) {
      EventRoundTrip(log.events[i]);
    }
    ReadAll(log.events, EventJson, DecodeEvent);
  }

  /** The limits leave room for the log. */
  predicate Fits(log: Log, limits: LoadLimits) {
    && 0 < limits.reports && 0 < limits.totalBins && |log.reports| <= limits.reports && |log.events| <= limits.events
    && TotalBins(log.reports) <= limits.totalBins
  }

  lemma {:induction false} StorableRoundTrip(c: Calibration, log: Log, version: string, maximumBins: nat,
                                             limits: LoadLimits)
    requires ValidLog(c, log) && StorableLog(log, version, maximumBins) && Fits(log, limits)
    ensures LoadedLog(c, maximumBins, LogJson(log, version), limits) == Ok(log)
  {
    EnvelopeRoundTrip(log, version);
    TablesRoundTrip(log, version, maximumBins, limits.totalBins);
  }

  // ----- valid logs are storable

  /** Assessed windows have one bin for each bin of the profile, and bounded texts. */
  ghost predicate Bounded(c: Calibration, binCount: nat) {
    forall window, options :: c.assess(window, options).Ok? ==>
      |window.bins| == binCount && ValidText(window.windowId, MAXIMUM_IDENTIFIER) && ValidSha256(window.sourceDigest)
  }

  lemma {:induction false} BasisIsBounded(basis: Basis)
    ensures Bounded(basis.Calibrate(), |basis.profile.bins|)
  {
  }

  lemma {:induction false} ReportIsStorable(c: Calibration, binCount: nat, log: Log, k: nat)
    requires IsSha256(c.hash) && Faithful(c) && Bounded(c, binCount) && ValidLog(c, log) && k < |log.reports|
             && Storable(log.profileId)
    ensures StorableReport(log.reports[k]) && |log.reports[k].bins| == binCount && ValidSha256(log.reports[k].id)
  {
    ReportIsSound(c, log, k);
    ReportIsDigest(c, log, k);
    var stored := log.reports[k];
    assert Remembers(c, WindowOf(stored), stored.options, c.assess(WindowOf(stored), stored.options).value);
    assert ValidSha256(c.hash(InputTree(log.profileId, stored)));
  }

  lemma {:induction false} DetailIsStorable(c: Calibration, log: Log, n: nat)
    requires ValidLog(c, log) && n < |log.events|
    ensures Storable(log.events[n].detail)
    ensures log.events[n].reportId == ""
            || exists k :: 0 <= k < |log.reports| && log.events[n].reportId == log.reports[k].id
  {
    if n > 0 {
      Follows(c, log, n - 1);
      PrefixReplays(c, log, n);
    }
  }

  lemma {:induction false} EventIsStorable(c: Calibration, binCount: nat, log: Log, n: nat)
    requires IsSha256(c.hash) && Faithful(c) && Bounded(c, binCount) && ValidLog(c, log) && n < |log.events|
             && Storable(log.profileId)
    ensures StorableEvent(log.events[n])
  {
    EventIsChained(c, log, n);
    assert ValidSha256(c.hash(EventTree(log.profileId, log.events[n])));
    if n > 0 {
      EventIsChained(c, log, n - 1);
      assert ValidSha256(c.hash(EventTree(log.profileId, log.events[n - 1])));
    }
    DetailIsStorable(c, log, n);
    if log.events[n].reportId != "" {
      var k :| 0 <= k < |log.reports| && log.events[n].reportId == log.reports[k].id;
      ReportIsStorable(c, binCount, log, k);
    }
  }

  lemma {:induction false} ValidIsStorable(c: Calibration, binCount: nat, log: Log, version: string)
    requires IsSha256(c.hash) && Faithful(c) && Bounded(c, binCount) && ValidLog(c, log) && Storable(log.profileId)
             && Storable(version)
    ensures StorableLog(log, version, binCount)
  {
    forall k | 0 <= k < |log.reports|
      ensures StorableReport(log.reports[k]) && |log.reports[k].bins| <= binCount && ValidSha256(log.reports[k].id) {
      ReportIsStorable(c, binCount, log, k);
    }
    forall i | 0 <= i < |log.events| ensures StorableEvent(log.events[i]) {
      EventIsStorable(c, binCount, log, i);
    }
  }

  /** Loading what was stored gives back the same lifecycle, whenever the limits
      leave room for it. */
  lemma {:induction false} LoadUndoesStore(basis: Basis, log: Log, version: string, limits: LoadLimits)
    requires IsSha256(basis.hash) && ValidLog(basis.Calibrate(), log) && Fits(log, limits) && Storable(version)
    ensures LoadedLog(basis.Calibrate(), |basis.profile.bins|, LogJson(log, version), limits) == Ok(log)
  {
    var c := basis.Calibrate();
    BasisIsFaithful(basis);
    BasisIsBounded(basis);
    ValidIsPartition(basis.hash, basis.bound, basis.profile);
    assert ValidSha256(basis.hash(ProfileTree(InputOf(basis.profile))));
    ValidIsStorable(c, |basis.profile.bins|, log, version);
    StorableRoundTrip(c, log, version, |basis.profile.bins|, limits);
  }

  /** No two valid lifecycles are stored alike. */
  lemma {:induction false} StoringIsInjective(basis: Basis, a: Log, b: Log, version: string)
    requires IsSha256(basis.hash) && ValidLog(basis.Calibrate(), a) && ValidLog(basis.Calibrate(), b)
             && Storable(version)
    requires LogJson(a, version) == LogJson(b, version)
    ensures a == b
  {
    var reports, events, bins := |a.reports| + |b.reports| + 1, |a.events| + |b.events|,
        TotalBins(a.reports) + TotalBins(b.reports) + 1;
    LoadUndoesStore(basis, a, version, LoadLimits(reports, events, bins));
    LoadUndoesStore(basis, b, version, LoadLimits(reports, events, bins));
  }

  // ----- whatever loads

  lemma {:induction false} DecodedBins(item: Json, maximumBins: nat)
    requires DecodeReport(item, maximumBins).Ok?
    ensures ArrayIn(Field(item, Key.Bins)).Ok?
    ensures |DecodeReport(item, maximumBins).value.bins| == |ArrayIn(Field(item, Key.Bins)).value| <= maximumBins
  {
    DecodedCount(ArrayIn(Field(item, Key.Bins)).value, DecodeBin);
  }

  lemma {:induction false} DecodedTotals(items: seq<Json>, maximumBins: nat, maximumTotal: nat)
    requires DecodeReports(items, maximumBins, maximumTotal).Ok?
    ensures var batch := DecodeReports(items, maximumBins, maximumTotal).value;
            |batch.reports| == |items| && TotalBins(batch.reports) == batch.totalBins <= maximumTotal
  {
    if items != [] {
      var batch, before := DecodeReports(items, maximumBins, maximumTotal).value,
          DecodeReports(items[..|items| - 1], maximumBins, maximumTotal).value;
      DecodedTotals(items[..|items| - 1], maximumBins, maximumTotal);
      DecodedBins(Last(items), maximumBins);
      assert batch.reports[..|batch.reports| - 1] == before.reports;
    }
  }

  /** Whatever loads is a valid lifecycle within every limit. */
  lemma {:induction false} LoadedIsValid(c: Calibration, binCount: nat, document: Json, limits: LoadLimits, log: Log)
    requires LoadedLog(c, binCount, document, limits) == Ok(log)
    ensures ValidLog(c, log) && Fits(log, limits)
  {
    var envelope := DecodeEnvelope(document).value;
    DecodedTotals(envelope.reports, binCount, limits.totalBins);
    DecodedCount(envelope.events, DecodeEvent);
  }

  /** A larger budget of bins changes no reading that succeeds. */
  lemma {:induction false} DecodedWithMore(items: seq<Json>, maximumBins: nat, maximumTotal: nat, more: nat)
    requires DecodeReports(items, maximumBins, maximumTotal).Ok? && maximumTotal <= more
    ensures DecodeReports(items, maximumBins, more) == DecodeReports(items, maximumBins, maximumTotal)
  {
    if items != [] {
      var before := items[..|items| - 1];
      DecodedWithMore(before, maximumBins, maximumTotal, more);
      NextWithMore(DecodeReports(before, maximumBins, maximumTotal).value, Last(items), maximumBins, maximumTotal,
                   more);
      DecodesLast(items, DecodeReports(before, maximumBins, maximumTotal).value, maximumBins, more);
    }
  }

  lemma {:induction false} NextWithMore(before: Batch, item: Json, maximumBins: nat, maximumTotal: nat, more: nat)
    requires before.totalBins <= maximumTotal <= more && DecodeNext(before, item, maximumBins, maximumTotal).Ok?
    ensures DecodeNext(before, item, maximumBins, more) == DecodeNext(before, item, maximumBins, maximumTotal)
  {
  }

  /** What is stored loads as itself or not at all. */
  lemma {:induction false} LoadedIsStored(c: Calibration, log: Log, version: string, maximumBins: nat,
                                          limits: LoadLimits)
    requires StorableLog(log, version, maximumBins)
    requires LoadedLog(c, maximumBins, LogJson(log, version), limits).Ok?
    ensures LoadedLog(c, maximumBins, LogJson(log, version), limits) == Ok(log)
  {
    var more := limits.totalBins + TotalBins(log.reports);
    EnvelopeRoundTrip(log, version);
    DecodedWithMore(EnvelopeOf(log).reports, maximumBins, limits.totalBins, more);
    TablesRoundTrip(log, version, maximumBins, more);
  }

  /** A stored lifecycle loads exactly when it is valid and within the limits. */
  lemma {:induction false} LoadsIffValid(c: Calibration, log: Log, version: string, maximumBins: nat,
                                         limits: LoadLimits)
    requires StorableLog(log, version, maximumBins)
    ensures LoadedLog(c, maximumBins, LogJson(log, version), limits).Ok? <==> ValidLog(c, log) && Fits(log, limits)
  {
    if ValidLog(c, log) && Fits(log, limits) {
      StorableRoundTrip(c, log, version, maximumBins, limits);
    }
    if LoadedLog(c, maximumBins, LogJson(log, version), limits).Ok? {
      LoadedIsStored(c, log, version, maximumBins, limits);
      LoadedIsValid(c, maximumBins, LogJson(log, version), limits, log);
    }
  }
}
