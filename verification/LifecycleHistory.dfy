/** What a valid log tells about its past: deployment readiness, the review
    after every detected drift, and counters that add up. */
module LifecycleHistory {
  import opened Sequences
  import opened Drift
  import opened Lifecycle
  import opened LifecycleReplay

  ghost function CursorAt(c: Calibration, log: Log, n: nat): (cursor: Cursor)
    requires ValidLog(c, log) && n < |log.events|
    ensures cursor.reports <= |log.reports|
  {
    PrefixReplays(c, log, n);
    Replay(c, log.profileId, log.reports, log.events, n).value
  }

  /** What replay checked about event `n + 1`. */
  ghost predicate FollowsBy(c: Calibration, log: Log, event: Event, before: Cursor, after: Cursor) {
    && event.previousState == before.state && event.currentState == after.state && after.reports <= |log.reports|
    && (event.eventType == DriftAssessed ==>
          && after.reports == before.reports + 1
          && ReportReplays(c, log.reports, before.reports, event)
          && after.state == StateAfterAssessment(before.state, log.reports[before.reports].status))
    && (event.eventType != DriftAssessed ==>
          && event.eventType == StateTransition && after.reports == before.reports
          && TransitionAllowed(before.state, after.state, Latest(log.reports[..before.reports])))
  }

  lemma {:induction false} Follows(c: Calibration, log: Log, n: nat)
    requires ValidLog(c, log) && n + 1 < |log.events|
    ensures FollowsBy(c, log, log.events[n + 1], CursorAt(c, log, n), CursorAt(c, log, n + 1))
  {
    PrefixReplays(c, log, n + 1);
    PreviousIs(c, log, n);
    var before := CursorAt(c, log, n);
    if log.events[n + 1].eventType == DriftAssessed {
      AcceptedAssessment(c, log.profileId, log.reports, log.events[n], log.events[n + 1], n + 1, before);
    }
  }

  lemma {:induction false} StateIsLastEvents(c: Calibration, log: Log)
    requires ValidLog(c, log)
    ensures Last(log.events).currentState == log.state
  {
    if |log.events| > 1 {
      Follows(c, log, |log.events| - 2);
    }
  }

  /** The cursors of a replay, with what replay checked between them. */
  ghost predicate IsTrace(c: Calibration, log: Log, trace: seq<Cursor>) {
    && |trace| == |log.events| > 0 && trace[0] == Cursor(PendingReview, 0)
    && (forall n :: 0 <= n < |trace| ==> trace[n].reports <= |log.reports|)
    && forall n :: 0 < n < |trace| ==> FollowsBy(c, log, log.events[n], trace[n - 1], trace[n])
  }

  /** Every valid log has a trace, which ends with all reports consumed. */
  lemma {:induction false} TraceOf(c: Calibration, log: Log) returns (trace: seq<Cursor>)
    requires ValidLog(c, log)
    ensures IsTrace(c, log, trace) && Last(trace) == Cursor(log.state, |log.reports|)
  {
    trace := seq(|log.events|, n requires 0 <= n < |log.events| => CursorAt(c, log, n));
    forall n | 0 < n < |trace| ensures FollowsBy(c, log, log.events[n], trace[n - 1], trace[n]) {
      Follows(c, log, n - 1);
    }
    forall n | 0 <= n < |trace| ensures trace[n].reports <= |log.reports| {
      assert trace[n] == CursorAt(c, log, n);
    }
  }

  // ----- deployment readiness

  ghost predicate StableIfActive(log: Log, cursor: Cursor) {
    cursor.state == Active ==> 0 < cursor.reports <= |log.reports| && log.reports[cursor.reports - 1].status == Stable
  }

  lemma {:induction false} StaysStable(c: Calibration, log: Log, event: Event, before: Cursor, after: Cursor)
    requires before.reports <= |log.reports| && StableIfActive(log, before) && FollowsBy(c, log, event, before, after)
    ensures StableIfActive(log, after)
  {
  }

  lemma {:induction false} ActiveMeansStable(c: Calibration, log: Log, n: nat)
    requires ValidLog(c, log) && n < |log.events|
    ensures StableIfActive(log, CursorAt(c, log, n))
  {
    if n > 0 {
      ActiveMeansStable(c, log, n - 1);
      Follows(c, log, n - 1);
      StaysStable(c, log, log.events[n], CursorAt(c, log, n - 1), CursorAt(c, log, n));
    }
  }

  /** A valid lifecycle is active exactly when it is ready for deployment. */
  lemma {:induction false} ActiveIffReady(c: Calibration, log: Log)
    requires ValidLog(c, log)
    ensures log.state == Active <==> DeploymentReady(log)
  {
    ActiveMeansStable(c, log, |log.events| - 1);
  }

  // ----- review after drift

  predicate Found(event: Event, status: DriftStatus) {
    event.eventType == DriftAssessed && event.detail == StatusName(status)
  }

  predicate Moves(event: Event, source: LifecycleState, target: LifecycleState) {
    event.eventType == StateTransition && event.previousState == source && event.currentState == target
  }

  ghost predicate FoundStable(events: seq<Event>, i: nat, j: nat) {
    exists k :: i < k <= j && k < |events| && Found(events[k], Stable)
  }

  ghost predicate Released(events: seq<Event>, i: nat, j: nat) {
    exists k :: i < k <= j && k < |events| && Moves(events[k], Quarantined, PendingReview)
  }

  /** After event `i` and up to event `j`: a stable assessment and a release from
      quarantine, and after both of them the reactivation. */
  ghost predicate Reviewed(events: seq<Event>, i: nat, j: nat) {
    exists k: nat :: i < k <= j && k < |events| && Moves(events[k], PendingReview, Active)
      && FoundStable(events, i, k - 1) && Released(events, i, k - 1)
  }

  lemma {:induction false} ReviewedLater(events: seq<Event>, i: nat, j: nat)
    ensures FoundStable(events, i, j) ==> FoundStable(events, i, j + 1)
    ensures Released(events, i, j) ==> Released(events, i, j + 1)
    ensures Reviewed(events, i, j) ==> Reviewed(events, i, j + 1)
  {
    if FoundStable(events, i, j) {
      var k :| i < k <= j && k < |events| && Found(events[k], Stable);
      assert i < k <= j + 1 && k < |events| && Found(events[k], Stable);
    }
    if Released(events, i, j) {
      var k :| i < k <= j && k < |events| && Moves(events[k], Quarantined, PendingReview);
      assert i < k <= j + 1 && k < |events| && Moves(events[k], Quarantined, PendingReview);
    }
    if Reviewed(events, i, j) {
      var k: nat :| i < k <= j && k < |events| && Moves(events[k], PendingReview, Active)
        && FoundStable(events, i, k - 1) && Released(events, i, k - 1);
      assert i < k <= j + 1 && k < |events| && Moves(events[k], PendingReview, Active);
    }
  }

  /** How far the review has come, as told by the state after event `j`. */
  ghost predicate Progress(log: Log, i: nat, j: nat, cursor: Cursor) {
    && 0 < cursor.reports <= |log.reports|
    && (log.reports[cursor.reports - 1].status == Stable ==> FoundStable(log.events, i, j))
    && (cursor.state == PendingReview || cursor.state == Active ==> Released(log.events, i, j))
    && (cursor.state == Active ==> Reviewed(log.events, i, j))
  }

  lemma {:induction false} StatusNamesDiffer(a: DriftStatus, b: DriftStatus)
    requires StatusName(a) == StatusName(b)
    ensures a == b
  {
    assert |StatusName(InsufficientData)| == 17 && |StatusName(Stable)| == 6 && |StatusName(DriftDetected)| == 14;
  }

  lemma {:induction false} ProgressByAssessment(c: Calibration, log: Log, i: nat, j: nat, before: Cursor, after: Cursor)
    requires i <= j && j + 1 < |log.events| && Progress(log, i, j, before)
    requires FollowsBy(c, log, log.events[j + 1], before, after) && log.events[j + 1].eventType == DriftAssessed
    ensures Progress(log, i, j + 1, after)
  {
    ReviewedLater(log.events, i, j);
    if log.reports[after.reports - 1].status == Stable {
      assert Found(log.events[j + 1], Stable);
    }
  }

  lemma {:induction false} ProgressByTransition(c: Calibration, log: Log, i: nat, j: nat, before: Cursor, after: Cursor)
    requires i <= j && j + 1 < |log.events| && Progress(log, i, j, before)
    requires FollowsBy(c, log, log.events[j + 1], before, after) && log.events[j + 1].eventType != DriftAssessed
    ensures Progress(log, i, j + 1, after)
  {
    ReviewedLater(log.events, i, j);
    var event := log.events[j + 1];
    if before.state == Quarantined && after.state == PendingReview {
      assert Moves(event, Quarantined, PendingReview);
    }
    if after.state == Active {
      assert Last(log.reports[..before.reports]) == log.reports[before.reports - 1];
      assert Moves(event, PendingReview, Active) && FoundStable(log.events, i, j) && Released(log.events, i, j);
    }
  }

  lemma {:induction false} ProgressFrom(c: Calibration, log: Log, i: nat, before: Cursor, after: Cursor)
    requires 0 < i < |log.events| && FollowsBy(c, log, log.events[i], before, after)
    requires Found(log.events[i], DriftDetected) && before.reports < |log.reports|
    ensures Progress(log, i, i, after)
  {
    StatusNamesDiffer(log.reports[before.reports].status, DriftDetected);
  }

  lemma {:induction false} ProgressSince(c: Calibration, log: Log, trace: seq<Cursor>, i: nat, j: nat)
    requires IsTrace(c, log, trace) && 0 < i <= j < |log.events| && Found(log.events[i], DriftDetected)
    ensures Progress(log, i, j, trace[j])
  {
    assert FollowsBy(c, log, log.events[j], trace[j - 1], trace[j]);
    if i == j {
      ProgressFrom(c, log, i, trace[i - 1], trace[i]);
    } else {
      ProgressSince(c, log, trace, i, j - 1);
      if log.events[j].eventType == DriftAssessed {
        ProgressByAssessment(c, log, i, j - 1, trace[j - 1], trace[j]);
      } else {
        ProgressByTransition(c, log, i, j - 1, trace[j - 1], trace[j]);
      }
    }
  }

  /** Between a detected drift and any later active state there are a newer
      stable assessment, a release from quarantine, and a reviewed reactivation. */
  lemma {:induction false} DriftIsReviewed(c: Calibration, log: Log, i: nat, j: nat)
    requires ValidLog(c, log) && i <= j < |log.events| && Found(log.events[i], DriftDetected)
             && log.events[j].currentState == Active
    ensures Reviewed(log.events, i, j)
  {
    var trace := TraceOf(c, log);
    ProgressSince(c, log, trace, i, j);
    assert FollowsBy(c, log, log.events[j], trace[j - 1], trace[j]);
  }

  // ----- counters

  lemma {:induction false} StatusesAddUp(reports: seq<DriftReport>)
    ensures CountStatus(reports, Stable) + CountStatus(reports, InsufficientData) + CountStatus(reports, DriftDetected)
            == |reports|
  {
    if reports != [] {
      StatusesAddUp(reports[..|reports| - 1]);
    }
  }

  lemma {:induction false} CountNext(events: seq<Event>, n: nat, eventType: EventType)
    requires n < |events|
    ensures CountEvents(events[..n + 1], eventType)
         == CountEvents(events[..n], eventType) + if events[n].eventType == eventType then 1 else 0
  {
    var prefix := events[..n + 1];
    assert prefix[..|prefix| - 1] == events[..n] && Last(prefix) == events[n];
  }

  lemma {:induction false} EventsAddUp(c: Calibration, log: Log, trace: seq<Cursor>, n: nat)
    requires IsTrace(c, log, trace) && n < |log.events| && log.events[0].eventType == Registered
    ensures trace[n].reports + CountEvents(log.events[..n + 1], StateTransition) == n
  {
    CountNext(log.events, n, StateTransition);
    if n == 0 {
      assert log.events[..0] == [];
    } else {
      EventsAddUp(c, log, trace, n - 1);
      assert FollowsBy(c, log, log.events[n], trace[n - 1], trace[n]);
    }
  }

  /** The summary accounts for every report and every event. */
  lemma {:induction false} SummaryAddsUp(c: Calibration, log: Log)
    requires ValidLog(c, log)
    ensures var s := SummaryOf(log);
            s.stable + s.insufficientData + s.driftDetected == s.assessments
                && 1 + s.assessments + s.transitions == |log.events|
  {
    StatusesAddUp(log.reports);
    var trace := TraceOf(c, log);
    EventsAddUp(c, log, trace, |log.events| - 1);
    assert log.events[..|log.events|] == log.events;
  }
}
