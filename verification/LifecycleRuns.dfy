/** Runs of a lifecycle: every run is valid, only appends, and ends when the
    lifecycle is retired. */
module LifecycleRuns {
  import opened Support
  import opened Sequences
  import opened Profile
  import opened Drift
  import opened Lifecycle

  datatype Command =
    | AssessWindow(window: WindowInput, expectedId: string, options: DriftOptions, limits: Limits)
    | MoveTo(expectedId: string, target: LifecycleState, detail: string, maximumEvents: nat)

  function Outcome(c: Calibration, log: Log, command: Command): Result<Log> {
    match command
    case AssessWindow(window, expectedId, options, limits) => AssessedLog(c, log, window, expectedId, options, limits)
    case MoveTo(expectedId, target, detail, maximumEvents) => TransitionedLog(c, log, expectedId, target, detail,
        maximumEvents)
  }

  /** A refused command leaves the log as it is. */
  function Step(c: Calibration, log: Log, command: Command): Log {
    match Outcome(c, log, command)
    case Ok(next) => next
    case Err(_) => log
  }

  function Run(c: Calibration, log: Log, commands: seq<Command>): Log {
    if commands == [] then log else Step(c, Run(c, log, commands[..|commands| - 1]), Last(commands))
  }

  ghost predicate Reachable(c: Calibration, log: Log) {
    CreatedLog(c).Ok? && exists commands: seq<Command> :: Run(c, CreatedLog(c).value, commands) == log
  }

  lemma {:induction false} ReachableStep(c: Calibration, log: Log, command: Command)
    requires Reachable(c, log)
    ensures Reachable(c, Step(c, log, command))
  {
    var start := CreatedLog(c).value;
    var commands: seq<Command> :| Run(c, start, commands) == log;
    var more := commands + [command];
    assert more[..|more| - 1] == commands;
    assert Run(c, start, more) == Step(c, log, command);
  }

  // ----- reports rebuild

  lemma {:induction false} SameNumber(x: real)
    ensures ApproximatelyEqual(x, x)
  {
  }

  lemma {:induction false} EqualBinReflexive(bin: WindowBin)
    ensures EqualBin(bin, bin)
  {
    SameNumber(bin.baselineFraction);
    SameNumber(bin.observedFraction);
    SameNumber(bin.baselineSuccessRate);
    SameNumber(bin.observedSuccessRate);
    SameNumber(bin.successRateDrop);
    SameNumber(bin.absoluteError);
  }

  lemma {:induction false} EqualStatisticsReflexive(report: DriftReport)
    ensures EqualStatistics(report, report) && EqualOptions(report.options, report.options)
  {
    SameNumber(report.totalVariation);
    SameNumber(report.baselineSuccessRate);
    SameNumber(report.observedSuccessRate);
    SameNumber(report.overallDrop);
    SameNumber(report.expectedError);
    SameNumber(report.maximumError);
    SameNumber(report.maximumBinDrop);
    SameNumber(report.options.maximumTotalVariation);
    SameNumber(report.options.maximumExpectedError);
    SameNumber(report.options.maximumOverallDrop);
    SameNumber(report.options.maximumBinDrop);
  }

  lemma {:induction false} EqualReportReflexive(report: DriftReport)
    ensures EqualReport(report, report)
  {
    EqualStatisticsReflexive(report);
    forall i | 0 <= i < |report.bins| ensures EqualBin(report.bins[i], report.bins[i]) {
      EqualBinReflexive(report.bins[i]);
    }
  }

  /** A report remembers its inputs, and its identity is the digest of them. */
  predicate Remembers(c: Calibration, window: WindowInput, options: DriftOptions, report: DriftReport) {
    && WindowOf(report) == window && report.options == options && report.profileId == c.profileId
    && report.id == c.hash(ReportTree(c.profileId, window, options))
  }

  ghost predicate Faithful(c: Calibration) {
    forall window, options :: c.assess(window, options).Ok? ==>
        Remembers(c, window, options, c.assess(window, options).value)
  }

  /** The assessment of every profile is faithful. */
  lemma {:induction false} BasisIsFaithful(basis: Basis)
    ensures Faithful(basis.Calibrate())
  {
    var c := basis.Calibrate();
    forall window, options | c.assess(window, options).Ok?
      ensures Remembers(c, window, options, c.assess(window, options).value)
    {
      ReportRemembers(basis.hash, basis.profile, window, options);
    }
  }

  lemma {:induction false} ReportRemembers(hash: Hash, profile: CalibrationProfile, window: WindowInput,
                                           options: DriftOptions)
    requires |window.bins| == |profile.bins| && WindowFailure(window.bins).None?
    ensures var report := ReportOf(hash, profile, window, options);
            && WindowOf(report) == window && report.options == options && report.profileId == profile.id
            && report.id == hash(ReportTree(profile.id, window, options))
  {
    var report := ReportOf(hash, profile, window, options);
    assert WindowOf(report).bins == window.bins;
  }

  /** Assessing the inputs of a report again gives it back. */
  lemma {:induction false} ReportRebuilds(c: Calibration, window: WindowInput, options: DriftOptions,
                                          report: DriftReport)
    requires Faithful(c) && c.assess(window, options) == Ok(report)
    ensures Remembers(c, window, options, report)
    ensures c.assess(WindowOf(report), report.options) == Ok(report) && Rebuilds(c, report)
  {
    EqualReportReflexive(report);
  }

  // ----- operations keep validity

  /** Replay looks only at what came before: appending changes nothing. */
  lemma {:induction false} ReplayExtends(c: Calibration, profileId: string, reports: seq<DriftReport>,
                                         more: seq<DriftReport>, events: seq<Event>, event: Event, n: nat)
    requires n < |events| && Replay(c, profileId, reports, events, n).Some?
    ensures Replay(c, profileId, reports + more, events + [event], n) == Replay(c, profileId, reports, events, n)
  {
    if n > 0 {
      ReplayExtends(c, profileId, reports, more, events, event, n - 1);
      var cursor := Replay(c, profileId, reports, events, n - 1).value;
      assert (events + [event])[n] == events[n] && (events + [event])[n - 1] == events[n - 1];
      StepExtends(c, profileId, reports, more, events[n - 1], events[n], n, cursor);
    }
  }

  lemma {:induction false} StepExtends(c: Calibration, profileId: string, reports: seq<DriftReport>,
                                       more: seq<DriftReport>, parent: Event, event: Event, index: nat, cursor: Cursor)
    requires cursor.reports <= |reports| && ReplayEvent(c, profileId, reports, parent, event, index, cursor).Some?
    ensures ReplayEvent(c, profileId, reports + more, parent, event, index, cursor)
            == ReplayEvent(c, profileId, reports, parent, event, index, cursor)
  {
    assert (reports + more)[..cursor.reports] == reports[..cursor.reports];
    if cursor.reports < |reports| {
      assert (reports + more)[cursor.reports] == reports[cursor.reports];
    }
  }

  lemma {:induction false} CreatedIsValidLog(c: Calibration)
    requires CreatedLog(c).Ok?
    ensures ValidLog(c, CreatedLog(c).value)
  {
  }

  lemma {:induction false} AppendedHead(c: Calibration, log: Log, event: Event)
    requires ValidHead(c, log) && event.sequence == |log.events|
    ensures ValidHead(c, Append(log, event))
  {
  }

  lemma {:induction false} AddedReportHead(c: Calibration, log: Log, report: DriftReport)
    requires ValidHead(c, log)
    ensures ValidHead(c, AddReport(log, report))
  {
  }

  lemma {:induction false} ReplayAppends(c: Calibration, profileId: string, reports: seq<DriftReport>,
                                         more: seq<DriftReport>, events: seq<Event>, event: Event, cursor: Cursor,
                                         next: Cursor)
    requires events != [] && Replay(c, profileId, reports, events, |events| - 1) == Some(cursor)
    requires ReplayEvent(c, profileId, reports + more, Last(events), event, |events|, cursor) == Some(next)
    ensures Replay(c, profileId, reports + more, events + [event], |events|) == Some(next)
  {
    ReplayExtends(c, profileId, reports, more, events, event, |events| - 1);
    assert (events + [event])[|events|] == event && (events + [event])[|events| - 1] == Last(events);
  }

  lemma {:induction false} AssessmentChains(c: Calibration, log: Log, report: DriftReport)
    requires log.events != [] && log.generation == |log.events| - 1 && log.currentEventId == Last(log.events).id
    requires log.generation < TWO_TO_THE_64 - 1
    ensures Chained(c, log.profileId, Last(log.events), AssessmentEvent(c, log, report), |log.events|, log.state)
  {
  }

  lemma {:induction false} ReplayAccepts(c: Calibration, profileId: string, reports: seq<DriftReport>, parent: Event,
                                         event: Event, index: nat, cursor: Cursor)
    requires cursor.reports < |reports| && event.eventType == DriftAssessed
    requires Chained(c, profileId, parent, event, index, cursor.state)
             && ReportReplays(c, reports, cursor.reports, event)
    requires event.currentState == StateAfterAssessment(cursor.state, reports[cursor.reports].status)
    ensures ReplayEvent(c, profileId, reports, parent, event, index, cursor)
            == Some(Cursor(event.currentState, cursor.reports + 1))
  {
  }

  lemma {:induction false} NewReportReplays(c: Calibration, log: Log, report: DriftReport)
    requires Rebuilds(c, report) && log.generation < TWO_TO_THE_64 - 1
    requires log.reports == [] || Last(log.reports).windowSequence < report.windowSequence
    ensures ReportReplays(c, log.reports + [report], |log.reports|, AssessmentEvent(c, log, report))
  {
  }

  lemma {:induction false} AssessmentReplays(c: Calibration, log: Log, report: DriftReport)
    requires ValidHead(c, log) && log.generation < TWO_TO_THE_64 - 1 && Rebuilds(c, report)
    requires log.reports == [] || Last(log.reports).windowSequence < report.windowSequence
    ensures var event := AssessmentEvent(c, log, report);
            ReplayEvent(c, log.profileId, log.reports + [report], Last(log.events), event, |log.events|,
                        Cursor(log.state, |log.reports|))
              == Some(Cursor(event.currentState, |log.reports| + 1))
  {
    AssessmentChains(c, log, report);
    NewReportReplays(c, log, report);
    ReplayAccepts(c, log.profileId, log.reports + [report], Last(log.events), AssessmentEvent(c, log, report),
                  |log.events|,
                  Cursor(log.state, |log.reports|));
  }

  lemma {:induction false} RecordExtends(c: Calibration, log: Log, report: DriftReport, event: Event)
    requires ValidLog(c, log) && event.sequence == |log.events|
    requires ReplayEvent(c, log.profileId, log.reports + [report], Last(log.events), event, |log.events|,
                         Cursor(log.state, |log.reports|))
          == Some(Cursor(event.currentState, |log.reports| + 1))
    ensures ValidLog(c, AddReport(Append(log, event), report))
  {
    AppendedHead(c, log, event);
    AddedReportHead(c, Append(log, event), report);
    ReplayAppends(c, log.profileId, log.reports, [report], log.events, event, Cursor(log.state, |log.reports|),
                  Cursor(event.currentState, |log.reports| + 1));
  }

  lemma {:induction false} RebuiltExtends(c: Calibration, log: Log, report: DriftReport)
    requires ValidLog(c, log) && log.generation < TWO_TO_THE_64 - 1 && Rebuilds(c, report)
    requires log.reports == [] || Last(log.reports).windowSequence < report.windowSequence
    ensures ValidLog(c, AddReport(Append(log, AssessmentEvent(c, log, report)), report))
  {
    AssessmentReplays(c, log, report);
    RecordExtends(c, log, report, AssessmentEvent(c, log, report));
  }

  /** Replay accepts the assessment of any admitted window with a newer sequence
      number, whatever the state: it does not ask whether the log is retired. */
  lemma {:induction false} AssessmentExtends(c: Calibration, log: Log, window: WindowInput, options: DriftOptions,
                                             report: DriftReport)
    requires Faithful(c) && ValidLog(c, log) && log.generation < TWO_TO_THE_64 - 1
             && c.assess(window, options) == Ok(report)
    requires log.reports == [] || Last(log.reports).windowSequence < window.sequence
    ensures ValidLog(c, AddReport(Append(log, AssessmentEvent(c, log, report)), report))
  {
    ReportRebuilds(c, window, options, report);
    RebuiltExtends(c, log, report);
  }

  lemma {:induction false} TransitionReplays(c: Calibration, log: Log, target: LifecycleState, detail: string)
    requires ValidHead(c, log) && log.generation < TWO_TO_THE_64 - 1 && ValidText(detail, MAXIMUM_DETAIL)
    requires TransitionAllowed(log.state, target, Latest(log.reports))
    ensures ReplayEvent(c, log.profileId, log.reports, Last(log.events), TransitionEvent(c, log, target, detail),
                        |log.events|,
                        Cursor(log.state, |log.reports|))
           == Some(Cursor(target, |log.reports|))
  {
    assert log.reports[..|log.reports|] == log.reports;
  }

  lemma {:induction false} TransitionExtends(c: Calibration, log: Log, target: LifecycleState, detail: string)
    requires ValidLog(c, log) && log.generation < TWO_TO_THE_64 - 1 && ValidText(detail, MAXIMUM_DETAIL)
    requires TransitionAllowed(log.state, target, Latest(log.reports))
    ensures ValidLog(c, Append(log, TransitionEvent(c, log, target, detail)))
  {
    var event := TransitionEvent(c, log, target, detail);
    AppendedHead(c, log, event);
    TransitionReplays(c, log, target, detail);
    assert log.reports + [] == log.reports;
    ReplayAppends(c, log.profileId, log.reports, [], log.events, event, Cursor(log.state, |log.reports|),
                  Cursor(target, |log.reports|));
  }

  lemma {:induction false} StepKeepsValid(c: Calibration, log: Log, command: Command)
    requires Faithful(c) && ValidLog(c, log)
    ensures ValidLog(c, Step(c, log, command))
  {
    if Outcome(c, log, command).Ok? {
      match command
      case AssessWindow(window, expectedId, options, limits) =>
        AssessmentExtends(c, log, window, options, c.assess(window, options).value);
      case MoveTo(expectedId, target, detail, maximumEvents) =>
        TransitionExtends(c, log, target, detail);
    }
  }

  /** Every run of commands, accepted or refused, is valid at every point. */
  lemma {:induction false} RunKeepsValid(c: Calibration, log: Log, commands: seq<Command>)
    requires Faithful(c) && ValidLog(c, log)
    ensures ValidLog(c, Run(c, log, commands))
  {
    if commands != [] {
      RunKeepsValid(c, log, commands[..|commands| - 1]);
      StepKeepsValid(c, Run(c, log, commands[..|commands| - 1]), Last(commands));
    }
  }

  /** The log only grows: what was recorded stays recorded. */
  lemma {:induction false} RunAppends(c: Calibration, log: Log, commands: seq<Command>)
    ensures log.events <= Run(c, log, commands).events && log.reports <= Run(c, log, commands).reports
  {
    if commands != [] {
      RunAppends(c, log, commands[..|commands| - 1]);
    }
  }

  /** A command against any head but the current one is refused. */
  lemma {:induction false} StaleHeadIsRefused(c: Calibration, log: Log, command: Command)
    requires command.expectedId != log.currentEventId
    ensures Outcome(c, log, command).Err? && Step(c, log, command) == log
  {
  }

  /** Once retired, no run of commands ever changes the log again. */
  lemma {:induction false} RetiredIsFinal(c: Calibration, log: Log, commands: seq<Command>)
    requires log.state == Retired
    ensures Run(c, log, commands) == log
  {
    if commands != [] {
      RetiredIsFinal(c, log, commands[..|commands| - 1]);
    }
  }

  // ----- what runs never do

  ghost predicate AssessedWhileRetired(log: Log) {
    exists i :: 0 <= i < |log.events| && RetiredAssessment(log.events[i])
  }

  predicate RetiredAssessment(event: Event) {
    event.eventType == DriftAssessed && event.previousState == Retired
  }

  /** Every report is exactly what its own window and options give. */
  ghost predicate ExactReports(c: Calibration, reports: seq<DriftReport>) {
    forall k :: 0 <= k < |reports| ==> c.assess(WindowOf(reports[k]), reports[k].options) == Ok(reports[k])
  }

  lemma {:induction false} StepIsExact(c: Calibration, log: Log, command: Command)
    requires Faithful(c) && ExactReports(c, log.reports) && !AssessedWhileRetired(log)
    ensures ExactReports(c, Step(c, log, command).reports) && !AssessedWhileRetired(Step(c, log, command))
  {
    if Outcome(c, log, command).Ok? {
      var next := Step(c, log, command);
      match command {
        case AssessWindow(window, expectedId, options, limits) =>
          var report := c.assess(window, options).value;
          ReportRebuilds(c, window, options, report);
          NewEventIsFine(log, AssessmentEvent(c, log, report), next);
        case MoveTo(expectedId, target, detail, maximumEvents) =>
          NewEventIsFine(log, TransitionEvent(c, log, target, detail), next);
      }
    }
  }

  lemma {:induction false} NewEventIsFine(log: Log, event: Event, next: Log)
    requires !AssessedWhileRetired(log) && !RetiredAssessment(event) && next.events == log.events + [event]
    ensures !AssessedWhileRetired(next)
  {
    forall i | 0 <= i < |next.events| ensures !RetiredAssessment(next.events[i]) {
      if i < |log.events| {
        assert !RetiredAssessment(log.events[i]);
      }
    }
  }

  lemma {:induction false} RunIsExact(c: Calibration, commands: seq<Command>)
    requires Faithful(c) && CreatedLog(c).Ok?
    ensures var log := Run(c, CreatedLog(c).value, commands); ExactReports(c, log.reports) && !AssessedWhileRetired(log)
  {
    if commands != [] {
      RunIsExact(c, commands[..|commands| - 1]);
      StepIsExact(c, Run(c, CreatedLog(c).value, commands[..|commands| - 1]), Last(commands));
    }
  }
}
