/** The calibration lifecycle: an append-only, hash-chained log of drift
    assessments and reviewed state transitions. The functions on `Log` say what
    each operation does; the class carries it out in place. */
module Lifecycle {
  import opened Support
  import opened Sequences
  import opened Decimal
  import opened Wilson
  import opened Profile
  import opened Drift

  const MAXIMUM_DETAIL: nat := 1024

  datatype LifecycleState = PendingReview | Active | Quarantined | Retired

  datatype EventType = Registered | DriftAssessed | StateTransition

  datatype Event = Event(
    id: string,
    parentId: string,
    sequence: U64,
    eventType: EventType,
    previousState: LifecycleState,
    currentState: LifecycleState,
    reportId: string,
    detail: string)

  /** The contents of a lifecycle. */
  datatype Log = Log(
    profileId: string,
    state: LifecycleState,
    generation: U64,
    currentEventId: string,
    latestReportId: string,
    reports: seq<DriftReport>,
    events: seq<Event>)

  /** What the operations of a lifecycle need to know about their profile: its
      identity, whether it is valid, and how it assesses a window. */
  datatype Calibration = Calibration(
    hash: Hash,
    profileId: string,
    valid: bool,
    assess: (WindowInput, DriftOptions) -> Result<DriftReport>)

  /** The arguments of an operation: the digest, the confidence bound, and the profile. */
  datatype Basis = Basis(hash: Hash, bound: LowerBound, profile: CalibrationProfile) {
    function Calibrate(): Calibration {
      Calibration(hash, profile.id, ValidProfile(hash, bound, profile),
                  (window: WindowInput, options: DriftOptions) => Drift.Assess(hash, bound, profile, window, options))
    }
  }

  // ----- the state machine

  function StateAfterAssessment(state: LifecycleState, status: DriftStatus): LifecycleState {
    if status == DriftDetected then Quarantined
    else if status == InsufficientData && state == Active then PendingReview
    else state
  }

  predicate TransitionAllowed(source: LifecycleState, target: LifecycleState, latest: Option<DriftReport>) {
    if source == target || source == Retired then false
    else match source
         case PendingReview =>
           if target == Active then latest.Some? && latest.value.status == Stable
           else target == Quarantined || target == Retired
         case Active => target == PendingReview || target == Quarantined || target == Retired
         case Quarantined => target == PendingReview || target == Retired
         case Retired => false
  }

  function Latest(reports: seq<DriftReport>): Option<DriftReport> {
    if reports == [] then None else Some(Last(reports))
  }

  function StatusName(status: DriftStatus): string {
    match status
    case InsufficientData => "insufficient-data"
    case Stable => "stable"
    case DriftDetected => "drift-detected"
  }

  // ----- identity

  function StateNumber(state: LifecycleState): nat {
    match state
    case PendingReview => 0
    case Active => 1
    case Quarantined => 2
    case Retired => 3
  }

  function TypeNumber(eventType: EventType): nat {
    match eventType
    case Registered => 0
    case DriftAssessed => 1
    case StateTransition => 2
  }

  function EventTree(profileId: string, event: Event): Json {
    JObject(map[
      Key.CurrentState := JNumber(StateNumber(event.currentState) as real),
      Key.Detail := JString(event.detail),
      Key.ParentId := JString(event.parentId),
      Key.PreviousState := JNumber(StateNumber(event.previousState) as real),
      Key.ProfileId := JString(profileId),
      Key.ReportId := JString(event.reportId),
      Key.Sequence := JString(Print(event.sequence)),
      Key.Type := JNumber(TypeNumber(event.eventType) as real)])
  }

  function Identified(hash: Hash, profileId: string, event: Event): Event {
    event.(id := hash(EventTree(profileId, event)))
  }

  function RegisteredEvent(hash: Hash, profileId: string): Event {
    Identified(hash, profileId, Event("", "", 0, Registered, PendingReview, PendingReview, "",
                                      "calibration profile registered"))
  }

  // ----- comparison of reports

  predicate EqualOptions(a: DriftOptions, b: DriftOptions) {
    && a.minimumTotalSamples == b.minimumTotalSamples && a.minimumBinSamples == b.minimumBinSamples
    && ApproximatelyEqual(a.maximumTotalVariation, b.maximumTotalVariation)
    && ApproximatelyEqual(a.maximumExpectedError, b.maximumExpectedError)
    && ApproximatelyEqual(a.maximumOverallDrop, b.maximumOverallDrop)
    && ApproximatelyEqual(a.maximumBinDrop, b.maximumBinDrop)
  }

  predicate EqualBin(a: WindowBin, b: WindowBin) {
    && a.samples == b.samples && a.successes == b.successes && a.outcomeRateAvailable == b.outcomeRateAvailable
    && ApproximatelyEqual(a.baselineFraction, b.baselineFraction)
    && ApproximatelyEqual(a.observedFraction, b.observedFraction)
    && ApproximatelyEqual(a.baselineSuccessRate, b.baselineSuccessRate)
    && ApproximatelyEqual(a.observedSuccessRate, b.observedSuccessRate)
    && ApproximatelyEqual(a.successRateDrop, b.successRateDrop)
    && ApproximatelyEqual(a.absoluteError, b.absoluteError)
  }

  predicate EqualStatistics(a: DriftReport, b: DriftReport) {
    && ApproximatelyEqual(a.totalVariation, b.totalVariation)
    && ApproximatelyEqual(a.baselineSuccessRate, b.baselineSuccessRate)
    && ApproximatelyEqual(a.observedSuccessRate, b.observedSuccessRate)
    && ApproximatelyEqual(a.overallDrop, b.overallDrop)
    && ApproximatelyEqual(a.expectedError, b.expectedError)
    && ApproximatelyEqual(a.maximumError, b.maximumError)
    && ApproximatelyEqual(a.maximumBinDrop, b.maximumBinDrop)
  }

  predicate EqualBins(a: seq<WindowBin>, b: seq<WindowBin>) {
    |a| == |b| && forall i :: 0 <= i < |a| ==> EqualBin(a[i], b[i])
  }

  /** Identical declarations and verdict, derived statistics up to rounding. */
  predicate EqualReport(a: DriftReport, b: DriftReport) {
    && a.id == b.id && a.profileId == b.profileId && a.windowId == b.windowId && a.windowSequence == b.windowSequence
    && a.sourceDigest == b.sourceDigest && EqualOptions(a.options, b.options) && a.status == b.status
    && a.reasons == b.reasons && a.sampleCount == b.sampleCount
    && EqualStatistics(a, b) && EqualBins(a.bins, b.bins)
  }

  /** The window a report was made from. */
  function WindowOf(report: DriftReport): (window: WindowInput)
    ensures |window.bins| == |report.bins|
    ensures forall i :: 0 <= i < |report.bins| ==>
            window.bins[i] == WindowBinInput(report.bins[i].samples, report.bins[i].successes)
  {
    WindowInput(report.windowId, report.windowSequence, report.sourceDigest,
                seq(|report.bins|, i requires 0 <= i < |report.bins| =>
                  WindowBinInput(report.bins[i].samples, report.bins[i].successes)))
  }

  // ----- what the operations do to a log

  function CreatedLog(c: Calibration): Result<Log> {
    if !c.valid then Err(InvalidArgument)
    else
      var event := RegisteredEvent(c.hash, c.profileId);
      Ok(Log(c.profileId, PendingReview, 0, event.id, "", [], [event]))
  }

  /** Appends an event, which becomes the head. */
  function Append(log: Log, event: Event): Log {
    log.(state := event.currentState, generation := event.sequence, currentEventId := event.id,
         events := log.events + [event])
  }

  function AddReport(log: Log, report: DriftReport): Log {
    log.(reports := log.reports + [report], latestReportId := report.id)
  }

  function AssessmentEvent(c: Calibration, log: Log, report: DriftReport): Event
    requires log.generation < TWO_TO_THE_64 - 1
  {
    Identified(c.hash, log.profileId, Event("", log.currentEventId, log.generation + 1, DriftAssessed, log.state,
                                            StateAfterAssessment(log.state, report.status), report.id,
                                                StatusName(report.status)))
  }

  function TransitionEvent(c: Calibration, log: Log, target: LifecycleState, detail: string): Event
    requires log.generation < TWO_TO_THE_64 - 1
  {
    Identified(c.hash, log.profileId,
               Event("", log.currentEventId, log.generation + 1, StateTransition, log.state, target, "", detail))
  }

  datatype Limits = Limits(reports: nat, events: nat)

  /** Why an assessment is refused before the window is looked at. */
  function AssessmentRefusal(c: Calibration, log: Log, window: WindowInput, expectedId: string,
                             limits: Limits): Option<StatusCode> {
    if !ValidLog(c, log) || limits.reports == 0 || limits.events == 0 then Some(InvalidArgument)
    else if expectedId != log.currentEventId then Some(IdentityMismatch)
    else if log.state == Retired then Some(InvalidArgument)
    else if |log.reports| >= limits.reports || |log.events| >= limits.events || log.generation == TWO_TO_THE_64 - 1
           then Some(ResourceLimit)
    else if log.reports != [] && window.sequence <= Last(log.reports).windowSequence then Some(InvalidArgument)
    else None
  }

  function AssessedLog(c: Calibration, log: Log, window: WindowInput, expectedId: string, options: DriftOptions,
                       limits: Limits): Result<Log> {
    var refusal := AssessmentRefusal(c, log, window, expectedId, limits);
    if refusal.Some? then Err(refusal.value)
    else
      var report :- c.assess(window, options);
      Ok(AddReport(Append(log, AssessmentEvent(c, log, report)), report))
  }

  function TransitionRefusal(c: Calibration, log: Log, expectedId: string, target: LifecycleState, detail: string,
                             maximumEvents: nat): Option<StatusCode> {
    if !ValidLog(c, log) || maximumEvents == 0 || !ValidText(detail, MAXIMUM_DETAIL) then Some(InvalidArgument)
    else if expectedId != log.currentEventId then Some(IdentityMismatch)
    else if |log.events| >= maximumEvents || log.generation == TWO_TO_THE_64 - 1 then Some(ResourceLimit)
    else if !TransitionAllowed(log.state, target, Latest(log.reports)) then Some(InvalidArgument)
    else None
  }

  function TransitionedLog(c: Calibration, log: Log, expectedId: string, target: LifecycleState, detail: string,
                           maximumEvents: nat): Result<Log> {
    var refusal := TransitionRefusal(c, log, expectedId, target, detail, maximumEvents);
    if refusal.Some? then Err(refusal.value) else Ok(Append(log, TransitionEvent(c, log, target, detail)))
  }

  predicate DeploymentReady(log: Log) {
    log.state == Active && log.reports != [] && Last(log.reports).status == Stable
        && log.latestReportId == Last(log.reports).id
  }

  // ----- replay

  /** The replayed state and the number of reports consumed. */
  datatype Cursor = Cursor(state: LifecycleState, reports: nat)

  predicate ReportReplays(c: Calibration, reports: seq<DriftReport>, k: nat, event: Event)
    requires k < |reports|
  {
    var stored := reports[k];
    && (k > 0 ==> reports[k - 1].windowSequence < stored.windowSequence)
    && event.reportId == stored.id && event.detail == StatusName(stored.status)
    && Rebuilds(c, stored)
  }

  /** Assessing the stored window again gives the stored report. */
  predicate Rebuilds(c: Calibration, stored: DriftReport) {
    var rebuilt := c.assess(WindowOf(stored), stored.options);
    rebuilt.Ok? && EqualReport(stored, rebuilt.value)
  }

  predicate Chained(c: Calibration, profileId: string, parent: Event, event: Event, index: nat, state: LifecycleState) {
    && event.sequence == index && event.parentId == parent.id && event.previousState == state
    && event.id == c.hash(EventTree(profileId, event))
  }

  /** Replays one event. */
  function ReplayEvent(c: Calibration, profileId: string, reports: seq<DriftReport>, parent: Event, event: Event,
                       index: nat, cursor: Cursor): (next: Option<Cursor>)
    requires cursor.reports <= |reports|
    ensures next.Some? ==> next.value.reports <= |reports|
  {
    if !Chained(c, profileId, parent, event, index, cursor.state) then None
    else match event.eventType
         case DriftAssessed =>
           if cursor.reports == |reports| || !ReportReplays(c, reports, cursor.reports, event) then None
           else
             var state := StateAfterAssessment(cursor.state, reports[cursor.reports].status);
             if event.currentState != state then None else Some(Cursor(state, cursor.reports + 1))
         case StateTransition =>
           if event.reportId != "" || !ValidText(event.detail, MAXIMUM_DETAIL)
              || !TransitionAllowed(cursor.state, event.currentState, Latest(reports[..cursor.reports]))
           then None
           else Some(Cursor(event.currentState, cursor.reports))
         case Registered => None
  }

  /** Replays the first `n` events after the registration. */
  function Replay(c: Calibration, profileId: string, reports: seq<DriftReport>, events: seq<Event>,
                  n: nat): (cursor: Option<Cursor>)
    requires n < |events|
    ensures cursor.Some? ==> cursor.value.reports <= |reports|
  {
    if n == 0 then Some(Cursor(PendingReview, 0))
    else match Replay(c, profileId, reports, events, n - 1)
         case None => None
         case Some(cursor) => ReplayEvent(c, profileId, reports, events[n - 1], events[n], n, cursor)
  }

  predicate ValidHead(c: Calibration, log: Log) {
    && c.valid && log.profileId == c.profileId && log.events != []
    && log.generation == |log.events| - 1 && log.currentEventId == Last(log.events).id
    && log.latestReportId == (if log.reports == [] then "" else Last(log.reports).id)
    && log.events[0] == RegisteredEvent(c.hash, c.profileId)
  }

  /** Validity is full replay: every event follows from the ones before it. */
  predicate ValidLog(c: Calibration, log: Log) {
    && ValidHead(c, log)
    && Replay(c, log.profileId, log.reports, log.events, |log.events| - 1) == Some(Cursor(log.state, |log.reports|))
  }

  lemma {:induction false} ReplayStops(c: Calibration, profileId: string, reports: seq<DriftReport>, events: seq<Event>,
                                       m: nat, n: nat)
    requires m <= n < |events| && Replay(c, profileId, reports, events, m).None?
    ensures Replay(c, profileId, reports, events, n).None?
  {
    if m < n {
      ReplayStops(c, profileId, reports, events, m, n - 1);
    }
  }

  /** The replay loop: the cursor after the last event, or nothing when some event does not follow. */
  method ReplayEvents(c: Calibration, profileId: string, reports: seq<DriftReport>, events: seq<Event>)
    returns (cursor: Option<Cursor>)
    requires events != []
    ensures cursor == Replay(c, profileId, reports, events, |events| - 1)
  {
    var replayState := PendingReview;
    var reportIndex: nat := 0;
    for index := 1 to |events|
      invariant reportIndex <= |reports|
      invariant Replay(c, profileId, reports, events, index - 1) == Some(Cursor(replayState, reportIndex))
    {
      var next := ReplayEvent(c, profileId, reports, events[index - 1], events[index], index,
                              Cursor(replayState, reportIndex));
      if next.None? {
        ReplayStops(c, profileId, reports, events, index, |events| - 1);
        return None;
      }
      replayState, reportIndex := next.value.state, next.value.reports;
    }
    cursor := Some(Cursor(replayState, reportIndex));
  }

  // ----- counters

  datatype Summary = Summary(assessments: nat, stable: nat, insufficientData: nat, driftDetected: nat, transitions: nat)

  function CountStatus(reports: seq<DriftReport>, status: DriftStatus): nat {
    if reports == [] then 0
    else CountStatus(reports[..|reports| - 1], status) + if Last(reports).status == status then 1 else 0
  }

  function CountEvents(events: seq<Event>, eventType: EventType): nat {
    if events == [] then 0
    else CountEvents(events[..|events| - 1], eventType) + if Last(events).eventType == eventType then 1 else 0
  }

  function SummaryOf(log: Log): Summary {
    Summary(|log.reports|, CountStatus(log.reports, Stable), CountStatus(log.reports, InsufficientData),
            CountStatus(log.reports, DriftDetected), CountEvents(log.events, StateTransition))
  }

  // ----- the object

  class PolicyCalibrationLifecycle {
    var profileId: string
    var state: LifecycleState
    var generation: U64
    var currentEventId: string
    var latestReportId: string
    var reports: seq<DriftReport>
    var events: seq<Event>

    function Contents(): Log
      reads this
    {
      Log(profileId, state, generation, currentEventId, latestReportId, reports, events)
    }

    constructor (log: Log)
      ensures Contents() == log
    {
      profileId, state, generation, currentEventId := log.profileId, log.state, log.generation, log.currentEventId;
      latestReportId, reports, events := log.latestReportId, log.reports, log.events;
    }

    static method Create(basis: Basis) returns (lifecycle: Result<PolicyCalibrationLifecycle>)
      ensures lifecycle.Err? ==> CreatedLog(basis.Calibrate()) == Err(lifecycle.code)
      ensures lifecycle.Ok? ==>
                fresh(lifecycle.value) && CreatedLog(basis.Calibrate()) == Ok(lifecycle.value.Contents())
    {
      if !ValidProfile(basis.hash, basis.bound, basis.profile) {
        return Err(InvalidArgument);
      }
      var event := RegisteredEvent(basis.hash, basis.profile.id);
      var result := new PolicyCalibrationLifecycle(Log(basis.profile.id, PendingReview, 0, event.id, "", [], [event]));
      lifecycle := Ok(result);
    }

    /** Replays all events and compares the outcome with the stored state. */
    method Valid(basis: Basis) returns (valid: bool)
      ensures valid <==> ValidLog(basis.Calibrate(), Contents())
    {
      var c := basis.Calibrate();
      if !ValidHead(c, Contents()) {
        assert !ValidLog(c, Contents());
        return false;
      }
      var cursor := ReplayEvents(c, profileId, reports, events);
      valid := cursor == Some(Cursor(state, |reports|));
      assert ValidLog(c, Contents()) <==> valid;
    }

    method PushEvent(event: Event)
      modifies this
      ensures Contents() == Append(old(Contents()), event)
    {
      events := events + [event];
      state := event.currentState;
      generation := event.sequence;
      currentEventId := event.id;
    }

    method PushReport(report: DriftReport)
      modifies this
      ensures Contents() == AddReport(old(Contents()), report)
    {
      reports := reports + [report];
      latestReportId := report.id;
    }

    method RefuseAssessment(basis: Basis, window: WindowInput, expectedId: string, limits: Limits)
      returns (refusal: Option<StatusCode>)
      ensures refusal == AssessmentRefusal(basis.Calibrate(), Contents(), window, expectedId, limits)
    {
      var valid := Valid(basis);
      if !valid || limits.reports == 0 || limits.events == 0 {
        return Some(InvalidArgument);
      }
      if expectedId != currentEventId {
        return Some(IdentityMismatch);
      }
      if state == Retired {
        return Some(InvalidArgument);
      }
      if |reports| >= limits.reports || |events| >= limits.events || generation == TWO_TO_THE_64 - 1 {
        return Some(ResourceLimit);
      }
      if reports != [] && window.sequence <= Last(reports).windowSequence {
        return Some(InvalidArgument);
      }
      refusal := None;
    }

    /** Appends an assessment, or changes nothing. */
    method Assess(basis: Basis, window: WindowInput, expectedId: string, options: DriftOptions, limits: Limits)
      returns (report: Result<DriftReport>)
      modifies this
      ensures match AssessedLog(basis.Calibrate(), old(Contents()), window, expectedId, options, limits)
              case Err(code) => report == Err(code) && Contents() == old(Contents())
              case Ok(log) =>
                Contents() == log && report == Ok(Last(log.reports)) == basis.Calibrate().assess(window, options)
    {
      var refusal := RefuseAssessment(basis, window, expectedId, limits);
      if refusal.Some? {
        return Err(refusal.value);
      }
      report := AssessDrift(basis.hash, basis.bound, basis.profile, window, options);
      if report.Ok? {
        PushEvent(AssessmentEvent(basis.Calibrate(), Contents(), report.value));
        PushReport(report.value);
      }
    }

    /** Appends a reviewed transition, or changes nothing. */
    method Transition(basis: Basis, expectedId: string, target: LifecycleState, detail: string, maximumEvents: nat)
      returns (event: Result<Event>)
      modifies this
      ensures match TransitionedLog(basis.Calibrate(), old(Contents()), expectedId, target, detail, maximumEvents)
              case Err(code) => event == Err(code) && Contents() == old(Contents())
              case Ok(log) => Contents() == log && event == Ok(Last(log.events))
    {
      var valid := Valid(basis);
      if !valid || maximumEvents == 0 || !ValidText(detail, MAXIMUM_DETAIL) {
        return Err(InvalidArgument);
      }
      if expectedId != currentEventId {
        return Err(IdentityMismatch);
      }
      if |events| >= maximumEvents || generation == TWO_TO_THE_64 - 1 {
        return Err(ResourceLimit);
      }
      if !TransitionAllowed(state, target, Latest(reports)) {
        return Err(InvalidArgument);
      }
      var made := TransitionEvent(basis.Calibrate(), Contents(), target, detail);
      PushEvent(made);
      event := Ok(made);
    }

    method Summarize() returns (summary: Summary)
      ensures summary == SummaryOf(Contents())
    {
      var stable, insufficient, drift, transitions: nat := 0, 0, 0, 0;
      for i := 0 to |reports|
        invariant stable == CountStatus(reports[..i], Stable)
        invariant insufficient == CountStatus(reports[..i], InsufficientData)
        invariant drift == CountStatus(reports[..i], DriftDetected)
      {
        assert reports[..i + 1][..i] == reports[..i];
        match reports[i].status
        case InsufficientData => insufficient := insufficient + 1;
        case Stable => stable := stable + 1;
        case DriftDetected => drift := drift + 1;
      }
      for i := 0 to |events|
        invariant transitions == CountEvents(events[..i], StateTransition)
      {
        assert events[..i + 1][..i] == events[..i];
        transitions := transitions + if events[i].eventType == StateTransition then 1 else 0;
      }
      assert reports[..|reports|] == reports && events[..|events|] == events;
      summary := Summary(|reports|, stable, insufficient, drift, transitions);
    }
  }
}
