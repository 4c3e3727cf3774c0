/** What the operations of a lifecycle do, said without the functions that do it:
    the moves there are, what is recorded, which commands are refused and why,
    when a lifecycle can become active again, how close a stored report is to the
    rebuilt one, and what the counters count. */
module LifecycleMeaning {
  import opened Support
  import opened Sequences
  import opened Drift
  import opened Lifecycle
  import opened LifecycleRuns
  import LifecycleHistory

  // ----- the moves

  /** Every reviewed transition there is. */
  const MOVES: set<(LifecycleState, LifecycleState)> := {
    (PendingReview, Active), (PendingReview, Quarantined), (PendingReview, Retired),
    (Active, PendingReview), (Active, Quarantined), (Active, Retired),
    (Quarantined, PendingReview), (Quarantined, Retired)}

  predicate LatestStable(reports: seq<DriftReport>) {
    reports != [] && Last(reports).status == Stable
  }

  /** Exactly these moves are allowed, and activation only on a stable latest report. */
  lemma {:induction false} AllowedIffMove(source: LifecycleState, target: LifecycleState, reports: seq<DriftReport>)
    ensures TransitionAllowed(source, target, Latest(reports)) <==>
              (source, target) in MOVES && (target == Active ==> LatestStable(reports))
  {
  }

  /** Detected drift quarantines whatever the state, even a retired lifecycle under
      replay; missing data ends activity; nothing else changes the state. */
  ghost predicate Follows(state: LifecycleState, status: DriftStatus, after: LifecycleState) {
    && (after == Quarantined <==> status == DriftDetected || state == Quarantined)
    && (after == Active <==> status == Stable && state == Active)
    && (after == Retired <==> status != DriftDetected && state == Retired)
    && (after == PendingReview <==>
        status != DriftDetected && (state == PendingReview || (state == Active && status == InsufficientData)))
  }

  lemma {:induction false} StateAssessed(state: LifecycleState, status: DriftStatus, after: LifecycleState)
    ensures Follows(state, status, after) <==> after == StateAfterAssessment(state, status)
  {
  }

  // ----- what is recorded

  /** The log with one more event, which is chained to the last one and becomes the head. */
  ghost predicate Grown(c: Calibration, log: Log, next: Log) {
    && log.events != [] && |next.events| == |log.events| + 1 && next.events[..|log.events|] == log.events
    && next.profileId == log.profileId
    && var event := Last(next.events);
       && event.sequence == |log.events| == next.generation && event.parentId == Last(log.events).id
       && event.previousState == log.state && event.currentState == next.state
       && event.id == c.hash(EventTree(log.profileId, event)) == next.currentEventId
  }

  ghost predicate Moved(c: Calibration, log: Log, target: LifecycleState, detail: string, next: Log) {
    && Grown(c, log, next) && next.state == target
    && next.reports == log.reports && next.latestReportId == log.latestReportId
    && var event := Last(next.events);
       event.eventType == StateTransition && event.reportId == "" && event.detail == detail
  }

  ghost predicate Recorded(c: Calibration, log: Log, report: DriftReport, next: Log) {
    && Grown(c, log, next) && Follows(log.state, report.status, next.state)
    && next.reports == log.reports + [report] && next.latestReportId == report.id
    && var event := Last(next.events);
       event.eventType == DriftAssessed && event.reportId == report.id && event.detail == StatusName(report.status)
  }

  /** An event is determined by its content: its identity does not enter its tree. */
  lemma {:induction false} IdentifiedIs(hash: Hash, profileId: string, event: Event)
    requires event.id == hash(EventTree(profileId, event))
    ensures event == Identified(hash, profileId, event.(id := ""))
  {
    assert EventTree(profileId, event) == EventTree(profileId, event.(id := ""));
  }

  lemma {:induction false} IdentifiesItself(hash: Hash, profileId: string, event: Event)
    requires event.id == ""
    ensures var made := Identified(hash, profileId, event); made.id == hash(EventTree(profileId, made))
  {
    var made := Identified(hash, profileId, event);
    assert EventTree(profileId, made) == EventTree(profileId, event);
  }

  lemma {:induction false} AppendIsGrown(c: Calibration, log: Log, event: Event)
    requires ValidLog(c, log) && event.id == c.hash(EventTree(log.profileId, event))
    requires event.sequence == |log.events| && event.parentId == Last(log.events).id && event.previousState == log.state
    ensures Grown(c, log, Append(log, event))
  {
    assert (log.events + [event])[..|log.events|] == log.events;
  }

  /** A log that has grown is the old one with its last event appended. */
  lemma {:induction false} GrownIsAppend(c: Calibration, log: Log, next: Log)
    requires Grown(c, log, next)
    ensures var made := Append(log, Last(next.events));
            next == made.(reports := next.reports, latestReportId := next.latestReportId)
  {
    assert next.events == log.events + [Last(next.events)];
  }

  lemma {:induction false} MovedIffAppended(c: Calibration, log: Log, target: LifecycleState, detail: string, next: Log)
    requires ValidLog(c, log) && log.generation < TWO_TO_THE_64 - 1
    ensures Moved(c, log, target, detail, next) <==> next == Append(log, TransitionEvent(c, log, target, detail))
  {
    var event := Event("", log.currentEventId, log.generation + 1, StateTransition, log.state, target, "", detail);
    IdentifiesItself(c.hash, log.profileId, event);
    AppendIsGrown(c, log, TransitionEvent(c, log, target, detail));
    if Moved(c, log, target, detail, next) {
      GrownIsAppend(c, log, next);
      IdentifiedIs(c.hash, log.profileId, Last(next.events));
      assert Last(next.events).(id := "") == event;
    }
  }

  lemma {:induction false} RecordedIffAppended(c: Calibration, log: Log, report: DriftReport, next: Log)
    requires ValidLog(c, log) && log.generation < TWO_TO_THE_64 - 1
    ensures Recorded(c, log, report, next) <==>
              next == AddReport(Append(log, AssessmentEvent(c, log, report)), report)
  {
    var event := Event("", log.currentEventId, log.generation + 1, DriftAssessed, log.state,
                       StateAfterAssessment(log.state, report.status), report.id, StatusName(report.status));
    IdentifiesItself(c.hash, log.profileId, event);
    AppendIsGrown(c, log, AssessmentEvent(c, log, report));
    StateAssessed(log.state, report.status, next.state);
    if Recorded(c, log, report, next) {
      GrownIsAppend(c, log, next);
      IdentifiedIs(c.hash, log.profileId, Last(next.events));
      assert Last(next.events).(id := "") == event;
    }
  }

  // ----- which commands are accepted

  /** A lifecycle comes into being, pending and with its registration as only
      event, exactly for a valid profile. */
  lemma {:induction false} CreatedIff(c: Calibration, log: Log)
    ensures CreatedLog(c) == Ok(log) <==>
              && c.valid && log.profileId == c.profileId && log.state == PendingReview && log.generation == 0
              && log.reports == [] && log.latestReportId == "" && |log.events| == 1
              && var event := log.events[0];
                 && event.eventType == Registered && event.sequence == 0 && event.parentId == "" == event.reportId
                 && event.previousState == PendingReview == event.currentState
                 && event.detail == "calibration profile registered"
                 && event.id == c.hash(EventTree(c.profileId, event)) == log.currentEventId
  {
    var made := Event("", "", 0, Registered, PendingReview, PendingReview, "", "calibration profile registered");
    IdentifiesItself(c.hash, c.profileId, made);
    if |log.events| == 1 && log.events[0].id == c.hash(EventTree(c.profileId, log.events[0])) {
      IdentifiedIs(c.hash, c.profileId, log.events[0]);
      if log.events[0].(id := "") == made {
        assert log.events == [RegisteredEvent(c.hash, c.profileId)];
      }
    }
  }

  /** There is room for one more event. */
  predicate HasRoom(log: Log, maximumEvents: nat) {
    |log.events| < maximumEvents && log.generation < TWO_TO_THE_64 - 1
  }

  /** A transition succeeds exactly on a valid log, against its own head, with an
      acceptable detail and room left, along one of the moves, activation needing
      a stable latest report; it records the move and nothing else. */
  lemma {:induction false} TransitionedIff(c: Calibration, log: Log, expectedId: string, target: LifecycleState,
                                           detail: string, maximumEvents: nat, next: Log)
    ensures TransitionedLog(c, log, expectedId, target, detail, maximumEvents) == Ok(next) <==>
              && ValidLog(c, log) && ValidText(detail, 1024) && expectedId == log.currentEventId
              && HasRoom(log, maximumEvents)
              && (log.state, target) in MOVES && (target == Active ==> LatestStable(log.reports))
              && Moved(c, log, target, detail, next)
  {
    AllowedIffMove(log.state, target, log.reports);
    if ValidLog(c, log) && log.generation < TWO_TO_THE_64 - 1 {
      MovedIffAppended(c, log, target, detail, next);
    }
  }

  /** Its refusals: a wrong head is reported before missing room, and both only
      for requests that are otherwise in order. */
  lemma {:induction false} TransitionRefusedAs(c: Calibration, log: Log, expectedId: string, target: LifecycleState,
                                               detail: string, maximumEvents: nat)
    ensures var refusal := TransitionRefusal(c, log, expectedId, target, detail, maximumEvents);
            var sound := ValidLog(c, log) && ValidText(detail, 1024) && maximumEvents > 0;
            && (refusal == Some(IdentityMismatch) <==> sound && expectedId != log.currentEventId)
            && (refusal == Some(ResourceLimit) <==>
                sound && expectedId == log.currentEventId && !HasRoom(log, maximumEvents))
            && (refusal.Some? ==> refusal.value in {InvalidArgument, IdentityMismatch, ResourceLimit})
  {
  }

  /** An assessment succeeds exactly on a valid log that is not retired, against
      its own head, with room for a report and an event, for a newer window that
      the profile assesses; it records the report and nothing else. */
  lemma {:induction false} AssessedIff(c: Calibration, log: Log, window: WindowInput, expectedId: string,
                                       options: DriftOptions, limits: Limits, next: Log)
    ensures AssessedLog(c, log, window, expectedId, options, limits) == Ok(next) <==>
              && ValidLog(c, log) && expectedId == log.currentEventId && log.state != Retired
              && |log.reports| < limits.reports && HasRoom(log, limits.events)
              && (log.reports != [] ==> Last(log.reports).windowSequence < window.sequence)
              && c.assess(window, options).Ok? && Recorded(c, log, c.assess(window, options).value, next)
  {
    var report := c.assess(window, options);
    if ValidLog(c, log) && log.generation < TWO_TO_THE_64 - 1 && report.Ok? {
      RecordedIffAppended(c, log, report.value, next);
    }
  }

  lemma {:induction false} AssessmentRefusedAs(c: Calibration, log: Log, window: WindowInput, expectedId: string,
                                               limits: Limits)
    ensures var refusal := AssessmentRefusal(c, log, window, expectedId, limits);
            var sound := ValidLog(c, log) && limits.reports > 0 && limits.events > 0;
            && (refusal == Some(IdentityMismatch) <==> sound && expectedId != log.currentEventId)
            && (refusal == Some(ResourceLimit) <==>
                  && sound && expectedId == log.currentEventId && log.state != Retired
                  && !(|log.reports| < limits.reports && HasRoom(log, limits.events)))
            && (refusal.Some? ==> refusal.value in {InvalidArgument, IdentityMismatch, ResourceLimit})
  {
  }

  // ----- becoming active again

  predicate MovesOnly(commands: seq<Command>) {
    forall i :: 0 <= i < |commands| ==> commands[i].MoveTo?
  }

  lemma {:induction false} MovesKeepReports(c: Calibration, log: Log, commands: seq<Command>)
    requires MovesOnly(commands)
    ensures Run(c, log, commands).reports == log.reports
  {
    if commands != [] {
      MovesKeepReports(c, log, commands[..|commands| - 1]);
      assert commands[|commands| - 1].MoveTo?;
    }
  }

  lemma {:induction false} RunOfOne(c: Calibration, log: Log, command: Command)
    ensures Run(c, log, [command]) == Step(c, log, command)
  {
    assert [command][..0] == [];
  }

  lemma {:induction false} MoveSucceeds(c: Calibration, log: Log, target: LifecycleState) returns (command: Command)
    requires ValidLog(c, log) && log.generation < TWO_TO_THE_64 - 1
    requires (log.state, target) in MOVES && (target == Active ==> LatestStable(log.reports))
    ensures command.MoveTo? && ValidLog(c, Step(c, log, command)) && Step(c, log, command).state == target
    ensures Step(c, log, command).reports == log.reports
    ensures Step(c, log, command).generation == log.generation + 1
  {
    command := MoveTo(log.currentEventId, target, "reviewed", |log.events| + 1);
    AllowedIffMove(log.state, target, log.reports);
    assert Outcome(c, log, command) == Ok(Append(log, TransitionEvent(c, log, target, "reviewed")));
    TransitionExtends(c, log, target, "reviewed");
  }

  lemma {:induction false} Activates(c: Calibration, log: Log) returns (commands: seq<Command>)
    requires ValidLog(c, log) && log.generation < TWO_TO_THE_64 - 2
    requires log.state != Retired && LatestStable(log.reports)
    ensures MovesOnly(commands) && |commands| <= 2 && Run(c, log, commands).state == Active
  {
    if log.state == Active {
      commands := [];
    } else if log.state == PendingReview {
      var activate := MoveSucceeds(c, log, Active);
      RunOfOne(c, log, activate);
      commands := [activate];
    } else {
      var release := MoveSucceeds(c, log, PendingReview);
      var activate := MoveSucceeds(c, Step(c, log, release), Active);
      commands := [release, activate];
      assert commands[..1] == [release];
      RunOfOne(c, log, release);
    }
  }

  /** Review alone makes a lifecycle active exactly when it is not retired and its
      latest report is stable; two transitions are enough. */
  lemma {:induction false} ActivatedByReviewIff(c: Calibration, log: Log)
    requires Faithful(c) && ValidLog(c, log) && log.generation < TWO_TO_THE_64 - 2
    ensures log.state != Retired && LatestStable(log.reports) <==>
              exists commands :: MovesOnly(commands) && Run(c, log, commands).state == Active
    ensures log.state != Retired && LatestStable(log.reports) ==>
              exists commands :: MovesOnly(commands) && |commands| <= 2 && Run(c, log, commands).state == Active
  {
    if log.state != Retired && LatestStable(log.reports) {
      var commands := Activates(c, log);
      assert MovesOnly(commands) && Run(c, log, commands).state == Active;
    }
    forall commands | MovesOnly(commands) && Run(c, log, commands).state == Active
      ensures log.state != Retired && LatestStable(log.reports)
    {
      RunKeepsValid(c, log, commands);
      LifecycleHistory.ActiveIffReady(c, Run(c, log, commands));
      MovesKeepReports(c, log, commands);
      if log.state == Retired {
        RetiredIsFinal(c, log, commands);
      }
    }
  }

  // ----- how close a stored report is to the rebuilt one

  predicate AllNear(a: seq<real>, b: seq<real>) {
    |a| == |b| && forall i :: 0 <= i < |a| ==> Near(a[i], b[i])
  }

  /** The figures of a bin, and those of a report besides its bins. */
  function BinFigures(bin: WindowBin): seq<real> {
    [bin.baselineFraction, bin.observedFraction, bin.baselineSuccessRate, bin.observedSuccessRate,
     bin.successRateDrop, bin.absoluteError]
  }

  function Figures(report: DriftReport): seq<real> {
    [report.totalVariation, report.baselineSuccessRate, report.observedSuccessRate, report.overallDrop,
     report.expectedError, report.maximumError, report.maximumBinDrop,
     report.options.maximumTotalVariation, report.options.maximumExpectedError, report.options.maximumOverallDrop,
     report.options.maximumBinDrop]
  }

  /** Everything but the figures. */
  function BareBin(bin: WindowBin): WindowBin {
    bin.(baselineFraction := 0.0, observedFraction := 0.0, baselineSuccessRate := 0.0, observedSuccessRate := 0.0,
         successRateDrop := 0.0, absoluteError := 0.0)
  }

  function BareOptions(options: DriftOptions): DriftOptions {
    options.(maximumTotalVariation := 0.0, maximumExpectedError := 0.0, maximumOverallDrop := 0.0,
             maximumBinDrop := 0.0)
  }

  function Bare(report: DriftReport): DriftReport {
    report.(options := BareOptions(report.options), totalVariation := 0.0, baselineSuccessRate := 0.0,
            observedSuccessRate := 0.0, overallDrop := 0.0, expectedError := 0.0, maximumError := 0.0,
            maximumBinDrop := 0.0, bins := BareBins(report.bins))
  }

  function BareBins(bins: seq<WindowBin>): (bare: seq<WindowBin>)
    ensures |bare| == |bins|
  {
    seq(|bins|, i requires 0 <= i < |bins| => BareBin(bins[i]))
  }

  lemma {:induction false} SixNear(a: seq<real>, b: seq<real>)
    requires |a| == |b| == 6
    ensures AllNear(a, b) <==>
              Near(a[0], b[0]) && Near(a[1], b[1]) && Near(a[2], b[2]) && Near(a[3], b[3]) && Near(a[4], b[4])
                  && Near(a[5], b[5])
  {
  }

  lemma {:induction false} EqualBinMeans(a: WindowBin, b: WindowBin)
    ensures EqualBin(a, b) <==> BareBin(a) == BareBin(b) && AllNear(BinFigures(a), BinFigures(b))
  {
    SixNear(BinFigures(a), BinFigures(b));
    ApproximatelyIsNear(a.baselineFraction, b.baselineFraction);
    ApproximatelyIsNear(a.observedFraction, b.observedFraction);
    ApproximatelyIsNear(a.baselineSuccessRate, b.baselineSuccessRate);
    ApproximatelyIsNear(a.observedSuccessRate, b.observedSuccessRate);
    ApproximatelyIsNear(a.successRateDrop, b.successRateDrop);
    ApproximatelyIsNear(a.absoluteError, b.absoluteError);
  }

  lemma {:induction false} ElevenNear(a: seq<real>, b: seq<real>)
    requires |a| == |b| == 11
    ensures AllNear(a, b) <==>
              Near(a[0], b[0]) && Near(a[1], b[1]) && Near(a[2], b[2]) && Near(a[3], b[3]) && Near(a[4], b[4])
                  && Near(a[5], b[5]) && Near(a[6], b[6]) && Near(a[7], b[7]) && Near(a[8], b[8]) && Near(a[9], b[9])
                  && Near(a[10], b[10])
  {
  }

  lemma {:induction false} EqualFiguresMean(a: DriftReport, b: DriftReport)
    ensures EqualStatistics(a, b) && EqualOptions(a.options, b.options) <==>
              BareOptions(a.options) == BareOptions(b.options) && AllNear(Figures(a), Figures(b))
  {
    ElevenNear(Figures(a), Figures(b));
    ApproximatelyIsNear(a.totalVariation, b.totalVariation);
    ApproximatelyIsNear(a.baselineSuccessRate, b.baselineSuccessRate);
    ApproximatelyIsNear(a.observedSuccessRate, b.observedSuccessRate);
    ApproximatelyIsNear(a.overallDrop, b.overallDrop);
    ApproximatelyIsNear(a.expectedError, b.expectedError);
    ApproximatelyIsNear(a.maximumError, b.maximumError);
    ApproximatelyIsNear(a.maximumBinDrop, b.maximumBinDrop);
    ApproximatelyIsNear(a.options.maximumTotalVariation, b.options.maximumTotalVariation);
    ApproximatelyIsNear(a.options.maximumExpectedError, b.options.maximumExpectedError);
    ApproximatelyIsNear(a.options.maximumOverallDrop, b.options.maximumOverallDrop);
    ApproximatelyIsNear(a.options.maximumBinDrop, b.options.maximumBinDrop);
  }

  /** Two reports are taken for equal exactly when they agree in everything but
      their figures, and in each of their figures up to 1e-12. */
  lemma {:induction false} EqualReportMeans(a: DriftReport, b: DriftReport)
    ensures EqualReport(a, b) <==>
              && Bare(a) == Bare(b) && AllNear(Figures(a), Figures(b))
              && forall i :: 0 <= i < |a.bins| && i < |b.bins| ==> AllNear(BinFigures(a.bins[i]), BinFigures(b.bins[i]))
  {
    EqualFiguresMean(a, b);
    forall i | 0 <= i < |a.bins| && i < |b.bins|
      ensures EqualBin(a.bins[i], b.bins[i]) <==>
                BareBin(a.bins[i]) == BareBin(b.bins[i]) && AllNear(BinFigures(a.bins[i]), BinFigures(b.bins[i]))
    {
      EqualBinMeans(a.bins[i], b.bins[i]);
    }
    BareBinsAgree(a.bins, b.bins);
  }

  lemma {:induction false} BareBinsAgree(a: seq<WindowBin>, b: seq<WindowBin>)
    ensures BareBins(a) == BareBins(b) <==> |a| == |b| && forall i :: 0 <= i < |a| ==> BareBin(a[i]) == BareBin(b[i])
  {
    if BareBins(a) == BareBins(b) {
      assert |a| == |b|;
      forall i | 0 <= i < |a| ensures BareBin(a[i]) == BareBin(b[i]) {
        assert BareBins(a)[i] == BareBins(b)[i];
      }
    }
  }

  // ----- the counters

  /** Where the reports with a status, and the events of a type, are. */
  function Having(reports: seq<DriftReport>, status: DriftStatus): set<nat> {
    set i: nat | i < |reports| && reports[i].status == status
  }

  function OfType(events: seq<Event>, eventType: EventType): set<nat> {
    set i: nat | i < |events| && events[i].eventType == eventType
  }

  lemma {:induction false} CountHaving(reports: seq<DriftReport>, status: DriftStatus)
    ensures CountStatus(reports, status) == |Having(reports, status)|
  {
    if reports != [] {
      var n := |reports| - 1;
      CountHaving(reports[..n], status);
      assert Having(reports, status)
          == Having(reports[..n], status) + if Last(reports).status == status then {n} else {};
    }
  }

  lemma {:induction false} CountOfType(events: seq<Event>, eventType: EventType)
    ensures CountEvents(events, eventType) == |OfType(events, eventType)|
  {
    if events != [] {
      var n := |events| - 1;
      CountOfType(events[..n], eventType);
      assert OfType(events, eventType)
          == OfType(events[..n], eventType) + if Last(events).eventType == eventType then {n} else {};
    }
  }

  /** Each counter is the number of the reports, or events, it is named after. */
  lemma {:induction false} SummaryCounts(log: Log)
    ensures var s := SummaryOf(log);
            && s.assessments == |log.reports| && s.stable == |Having(log.reports, Stable)|
            && s.insufficientData == |Having(log.reports, InsufficientData)|
            && s.driftDetected == |Having(log.reports, DriftDetected)|
            && s.transitions == |OfType(log.events, StateTransition)|
  {
    CountHaving(log.reports, Stable);
    CountHaving(log.reports, InsufficientData);
    CountHaving(log.reports, DriftDetected);
    CountOfType(log.events, StateTransition);
  }
}
