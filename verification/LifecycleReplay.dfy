/** Which histories replay accepts: exactly those of runs, and besides them only
    histories that assess a retired lifecycle. */
module LifecycleReplay {
  import opened Support
  import opened Sequences
  import opened Sums
  import opened Wilson
  import opened Profile
  import opened Drift
  import opened Lifecycle
  import opened LifecycleRuns

  /** The same inputs and verdict; derived statistics may differ by rounding. */
  predicate SameReport(stored: DriftReport, made: DriftReport) {
    WindowOf(stored) == WindowOf(made) && stored.options == made.options && EqualReport(stored, made)
  }

  predicate SameReports(stored: seq<DriftReport>, made: seq<DriftReport>) {
    |stored| == |made| && forall k :: 0 <= k < |stored| ==> SameReport(stored[k], made[k])
  }

  predicate SameHistory(stored: Log, made: Log) {
    && stored.profileId == made.profileId && stored.state == made.state && stored.generation == made.generation
    && stored.currentEventId == made.currentEventId && stored.latestReportId == made.latestReportId
    && stored.events == made.events && SameReports(stored.reports, made.reports)
  }

  // ----- from a valid log to a run

  /** The log made so far is the stored log up to event `n`. */
  ghost predicate Mirrors(c: Calibration, stored: Log, n: nat, made: Log)
    requires n < |stored.events|
  {
    && ValidLog(c, made) && made.events == stored.events[..n + 1] && |made.reports| <= |stored.reports|
    && Replay(c, stored.profileId, stored.reports, stored.events, n) == Some(Cursor(made.state, |made.reports|))
    && SameReports(stored.reports[..|made.reports|], made.reports)
  }

  lemma {:induction false} PrefixReplays(c: Calibration, log: Log, n: nat)
    requires ValidLog(c, log) && n < |log.events|
    ensures Replay(c, log.profileId, log.reports, log.events, n).Some?
  {
    if Replay(c, log.profileId, log.reports, log.events, n).None? {
      ReplayStops(c, log.profileId, log.reports, log.events, n, |log.events| - 1);
    }
  }

  /** The command that produced event `n`, given how many reports came before it. */
  function CommandFor(log: Log, n: nat, k: nat): Command
    requires 0 < n < |log.events| && (log.events[n].eventType == DriftAssessed ==> k < |log.reports|)
  {
    var event := log.events[n];
    if event.eventType == DriftAssessed then
      AssessWindow(WindowOf(log.reports[k]), event.parentId, log.reports[k].options,
                   Limits(|log.reports| + 1, |log.events| + 1))
    else
      MoveTo(event.parentId, event.currentState, event.detail, |log.events| + 1)
  }

  /** Two events of one place in the chain, with the same content, are the same event. */
  lemma {:induction false} ChainedEventIs(c: Calibration, profileId: string, parent: Event, event: Event, index: nat,
                                          state: LifecycleState, made: Event)
    requires Chained(c, profileId, parent, event, index, state)
    requires made
             == Identified(c.hash, profileId,
                           Event("", parent.id, index, event.eventType, state, event.currentState, event.reportId,
                                 event.detail))
    ensures made == event
  {
    assert EventTree(profileId, event) == EventTree(profileId, event.(id := ""));
  }

  lemma {:induction false} MirrorHead(c: Calibration, stored: Log, n: nat, made: Log)
    requires n + 1 < |stored.events| && stored.generation == |stored.events| - 1 && Mirrors(c, stored, n, made)
    ensures made.generation == n < TWO_TO_THE_64 - 1 && Last(made.events) == stored.events[n]
            && made.currentEventId == stored.events[n].id
    ensures made.events != [] && made.profileId == c.profileId
    ensures stored.events[..n + 2] == made.events + [stored.events[n + 1]]
  {
    HeadOfPrefix(c, made, stored.events, n);
  }

  lemma {:induction false} HeadOfPrefix(c: Calibration, made: Log, events: seq<Event>, n: nat)
    requires n + 1 < |events| <= TWO_TO_THE_64 && ValidHead(c, made) && made.events == events[..n + 1]
    ensures made.generation == n && Last(made.events) == events[n] && made.currentEventId == events[n].id
    ensures made.profileId == c.profileId && events[..n + 2] == made.events + [events[n + 1]]
  {
    PrefixHead(events, n + 1);
  }

  /** The end of a prefix, and the prefix longer by one. */
  lemma {:induction false} PrefixHead(events: seq<Event>, n: nat)
    requires 0 < n < |events|
    ensures |events[..n]| == n && Last(events[..n]) == events[n - 1]
    ensures events[..n + 1] == events[..n] + [events[n]]
  {
  }

  lemma {:induction false} LatestAgrees(stored: seq<DriftReport>, made: seq<DriftReport>, source: LifecycleState,
                                        target: LifecycleState)
    requires SameReports(stored, made)
    ensures TransitionAllowed(source, target, Latest(stored)) == TransitionAllowed(source, target, Latest(made))
  {
    if stored != [] {
      assert SameReport(stored[|stored| - 1], made[|made| - 1]);
    }
  }

  /** What replay checked about a transition it accepted. */
  lemma {:induction false} AcceptedTransition(c: Calibration, stored: Log, n: nat, made: Log)
    requires ValidLog(c, stored) && n + 1 < |stored.events| && Mirrors(c, stored, n, made)
    requires stored.events[n + 1].eventType == StateTransition
    ensures var event := stored.events[n + 1];
            && Chained(c, stored.profileId, stored.events[n], event, n + 1, made.state) && event.reportId == ""
            && ValidText(event.detail, MAXIMUM_DETAIL)
            && TransitionAllowed(made.state, event.currentState, Latest(made.reports))
            && Replay(c, stored.profileId, stored.reports, stored.events, n + 1)
               == Some(Cursor(event.currentState, |made.reports|))
  {
    PrefixReplays(c, stored, n + 1);
    LatestAgrees(stored.reports[..|made.reports|], made.reports, made.state, stored.events[n + 1].currentState);
  }

  /** The log made by the transition, and its validity. */
  lemma {:induction false} MadeByTransition(c: Calibration, stored: Log, n: nat, made: Log) returns (next: Log)
    requires ValidLog(c, stored) && n + 1 < |stored.events| && Mirrors(c, stored, n, made)
    requires stored.events[n + 1].eventType == StateTransition
    ensures Step(c, made, CommandFor(stored, n + 1, |made.reports|)) == next && ValidLog(c, next)
    ensures next.events == stored.events[..n + 2] && next.reports == made.reports
    ensures next.state == stored.events[n + 1].currentState
  {
    var event := stored.events[n + 1];
    AcceptedTransition(c, stored, n, made);
    MirrorHead(c, stored, n, made);
    TransitionExtends(c, made, event.currentState, event.detail);
    ChainedEventIs(c, stored.profileId, stored.events[n], event, n + 1, made.state,
                   TransitionEvent(c, made, event.currentState, event.detail));
    next := Append(made, event);
  }

  lemma {:induction false} MirrorTransition(c: Calibration, stored: Log, n: nat, made: Log)
    requires ValidLog(c, stored) && n + 1 < |stored.events| && Mirrors(c, stored, n, made)
    requires stored.events[n + 1].eventType == StateTransition
    ensures Mirrors(c, stored, n + 1, Step(c, made, CommandFor(stored, n + 1, |made.reports|)))
  {
    var next := MadeByTransition(c, stored, n, made);
    AcceptedTransition(c, stored, n, made);
    assert Mirrors(c, stored, n + 1, next);
  }

  lemma {:induction false} NewerWindow(stored: seq<DriftReport>, made: seq<DriftReport>)
    requires |made| < |stored| && SameReports(stored[..|made|], made)
    requires |made| > 0 ==> stored[|made| - 1].windowSequence < stored[|made|].windowSequence
    ensures made == [] || Last(made).windowSequence < stored[|made|].windowSequence
  {
    if made != [] {
      assert SameReport(stored[..|made|][|made| - 1], made[|made| - 1]);
    }
  }

  lemma {:induction false} OneMoreReport(stored: seq<DriftReport>, made: seq<DriftReport>, report: DriftReport)
    requires |made| < |stored| && SameReports(stored[..|made|], made) && SameReport(stored[|made|], report)
    ensures SameReports(stored[..|made| + 1], made + [report])
  {
    forall k | 0 <= k < |made| + 1 ensures SameReport(stored[..|made| + 1][k], (made + [report])[k]) {
      if k < |made| {
        assert SameReport(stored[..|made|][k], made[k]);
      }
    }
  }

  lemma {:induction false} RebuiltIsSame(c: Calibration, stored: DriftReport)
    requires Faithful(c) && Rebuilds(c, stored)
    ensures SameReport(stored, c.assess(WindowOf(stored), stored.options).value)
  {
    ReportRebuilds(c, WindowOf(stored), stored.options, c.assess(WindowOf(stored), stored.options).value);
  }

  /** What replay checked about an assessment it accepted. */
  lemma {:induction false} AcceptedAssessment(c: Calibration, profileId: string, reports: seq<DriftReport>,
                                              parent: Event, event: Event, index: nat, cursor: Cursor)
    requires cursor.reports <= |reports| && event.eventType == DriftAssessed
    requires ReplayEvent(c, profileId, reports, parent, event, index, cursor).Some?
    ensures cursor.reports < |reports| && ReportReplays(c, reports, cursor.reports, event)
    ensures Chained(c, profileId, parent, event, index, cursor.state)
    ensures event.currentState == StateAfterAssessment(cursor.state, reports[cursor.reports].status)
    ensures ReplayEvent(c, profileId, reports, parent, event, index, cursor)
            == Some(Cursor(event.currentState, cursor.reports + 1))
  {
  }

  lemma {:induction false} AssessmentIsMade(c: Calibration, made: Log, command: Command, report: DriftReport)
    requires command.AssessWindow? && ValidLog(c, made) && made.state != Retired
             && command.expectedId == made.currentEventId
    requires |made.reports| < command.limits.reports && |made.events| < command.limits.events
             && made.generation < TWO_TO_THE_64 - 1
    requires made.reports == [] || Last(made.reports).windowSequence < command.window.sequence
    requires c.assess(command.window, command.options) == Ok(report)
    ensures Step(c, made, command) == AddReport(Append(made, AssessmentEvent(c, made, report)), report)
  {
  }

  lemma {:induction false} MadeEventIs(c: Calibration, made: Log, parent: Event, event: Event, stored: DriftReport,
                                       report: DriftReport)
    requires made.generation < TWO_TO_THE_64 - 1 && made.currentEventId == parent.id && SameReport(stored, report)
    requires Chained(c, made.profileId, parent, event, made.generation + 1, made.state)
             && event.eventType == DriftAssessed
    requires event.reportId == stored.id && event.detail == StatusName(stored.status)
    requires event.currentState == StateAfterAssessment(made.state, stored.status)
    ensures AssessmentEvent(c, made, report) == event
  {
    ChainedEventIs(c, made.profileId, parent, event, made.generation + 1, made.state, AssessmentEvent(c, made, report));
  }

  lemma {:induction false} MirrorReport(c: Calibration, stored: Log, n: nat, made: Log) returns (report: DriftReport)
    requires Faithful(c) && ValidLog(c, stored) && n + 1 < |stored.events| && Mirrors(c, stored, n, made)
    requires stored.events[n + 1].eventType == DriftAssessed
    ensures |made.reports| < |stored.reports| && SameReport(stored.reports[|made.reports|], report)
    ensures c.assess(WindowOf(stored.reports[|made.reports|]), stored.reports[|made.reports|].options) == Ok(report)
    ensures made.reports == [] || Last(made.reports).windowSequence < stored.reports[|made.reports|].windowSequence
    ensures made.generation < TWO_TO_THE_64 - 1 && AssessmentEvent(c, made, report) == stored.events[n + 1]
    ensures Replay(c, stored.profileId, stored.reports, stored.events, n + 1)
            == Some(Cursor(stored.events[n + 1].currentState, |made.reports| + 1))
  {
    var event, k := stored.events[n + 1], |made.reports|;
    PrefixReplays(c, stored, n + 1);
    MirrorHead(c, stored, n, made);
    AcceptedAssessment(c, stored.profileId, stored.reports, stored.events[n], event, n + 1, Cursor(made.state, k));
    RebuiltIsSame(c, stored.reports[k]);
    report := c.assess(WindowOf(stored.reports[k]), stored.reports[k].options).value;
    NewerWindow(stored.reports, made.reports);
    MadeEventIs(c, made, stored.events[n], event, stored.reports[k], report);
  }

  /** The log made from the report, and its validity. */
  lemma {:induction false} MadeByAssessment(c: Calibration, stored: Log, n: nat, made: Log, report: DriftReport)
    returns (next: Log)
    requires Faithful(c) && ValidLog(c, stored) && n + 1 < |stored.events| && Mirrors(c, stored, n, made)
    requires stored.events[n + 1].eventType == DriftAssessed && made.state != Retired
    requires |made.reports| < |stored.reports|
    requires var k := |made.reports|;
             && c.assess(WindowOf(stored.reports[k]), stored.reports[k].options) == Ok(report)
             && (made.reports == [] || Last(made.reports).windowSequence < stored.reports[k].windowSequence)
    requires made.generation < TWO_TO_THE_64 - 1 && AssessmentEvent(c, made, report) == stored.events[n + 1]
    ensures Step(c, made, CommandFor(stored, n + 1, |made.reports|)) == next && ValidLog(c, next)
    ensures next.events == stored.events[..n + 2] && next.reports == made.reports + [report]
    ensures next.state == stored.events[n + 1].currentState
  {
    next := AddReport(Append(made, stored.events[n + 1]), report);
    var command := CommandFor(stored, n + 1, |made.reports|);
    MirrorHead(c, stored, n, made);
    PreviousIs(c, stored, n);
    AssessmentIsMade(c, made, command, report);
    AssessmentExtends(c, made, command.window, command.options, report);
  }

  lemma {:induction false} MirrorsNext(c: Calibration, stored: Log, n: nat, reports: seq<DriftReport>, next: Log,
                                       report: DriftReport)
    requires n + 1 < |stored.events| && |reports| < |stored.reports|
    requires SameReports(stored.reports[..|reports|], reports) && SameReport(stored.reports[|reports|], report)
    requires ValidLog(c, next) && next.events == stored.events[..n + 2] && next.reports == reports + [report]
    requires Replay(c, stored.profileId, stored.reports, stored.events, n + 1)
             == Some(Cursor(next.state, |reports| + 1))
    ensures Mirrors(c, stored, n + 1, next)
  {
    assert |next.reports| == |reports| + 1;
    OneMoreReport(stored.reports, reports, report);
  }

  lemma {:induction false} MirrorAssessment(c: Calibration, stored: Log, n: nat, made: Log)
    requires Faithful(c) && ValidLog(c, stored) && n + 1 < |stored.events| && Mirrors(c, stored, n, made)
    requires stored.events[n + 1].eventType == DriftAssessed && made.state != Retired
    ensures |made.reports| < |stored.reports|
    ensures Mirrors(c, stored, n + 1, Step(c, made, CommandFor(stored, n + 1, |made.reports|)))
  {
    var report := MirrorReport(c, stored, n, made);
    var next := MadeByAssessment(c, stored, n, made, report);
    MirrorsNext(c, stored, n, made.reports, next, report);
  }

  lemma {:induction false} PreviousIs(c: Calibration, stored: Log, n: nat)
    requires ValidLog(c, stored) && n + 1 < |stored.events|
    ensures stored.events[n + 1].parentId == stored.events[n].id
    ensures Replay(c, stored.profileId, stored.reports, stored.events, n).Some?
    ensures stored.events[n + 1].previousState
            == Replay(c, stored.profileId, stored.reports, stored.events, n).value.state
    ensures stored.events[n + 1].eventType != Registered
  {
    PrefixReplays(c, stored, n + 1);
  }

  lemma {:induction false} MirrorStep(c: Calibration, stored: Log, n: nat, made: Log) returns (command: Command)
    requires Faithful(c) && ValidLog(c, stored) && !AssessedWhileRetired(stored) && n + 1 < |stored.events|
             && Mirrors(c, stored, n, made)
    ensures Mirrors(c, stored, n + 1, Step(c, made, command))
  {
    PreviousIs(c, stored, n);
    if stored.events[n + 1].eventType == DriftAssessed {
      assert !RetiredAssessment(stored.events[n + 1]);
      MirrorAssessment(c, stored, n, made);
      command := CommandFor(stored, n + 1, |made.reports|);
    } else {
      MirrorTransition(c, stored, n, made);
      command := CommandFor(stored, n + 1, |made.reports|);
    }
  }

  lemma {:induction false} MirrorStart(c: Calibration, stored: Log)
    requires ValidLog(c, stored)
    ensures CreatedLog(c).Ok? && Mirrors(c, stored, 0, CreatedLog(c).value)
  {
    CreatedIsValidLog(c);
  }

  lemma {:induction false} RunOneMore(c: Calibration, log: Log, before: seq<Command>, command: Command)
    ensures Run(c, log, before + [command]) == Step(c, Run(c, log, before), command)
  {
    var commands := before + [command];
    assert commands[..|commands| - 1] == before;
  }

  lemma {:induction false} MirrorRun(c: Calibration, stored: Log, n: nat) returns (commands: seq<Command>)
    requires Faithful(c) && ValidLog(c, stored) && !AssessedWhileRetired(stored) && n < |stored.events|
    ensures CreatedLog(c).Ok? && Mirrors(c, stored, n, Run(c, CreatedLog(c).value, commands))
  {
    MirrorStart(c, stored);
    if n == 0 {
      commands := [];
    } else {
      var before := MirrorRun(c, stored, n - 1);
      var command := MirrorStep(c, stored, n - 1, Run(c, CreatedLog(c).value, before));
      commands := before + [command];
      RunOneMore(c, CreatedLog(c).value, before, command);
    }
  }

  // ----- from a run to every log with the same history

  lemma {:induction false} SameReportReplays(c: Calibration, stored: seq<DriftReport>, made: seq<DriftReport>, k: nat,
                                             event: Event)
    requires SameReports(stored, made) && ExactReports(c, made) && k < |made| && ReportReplays(c, made, k, event)
    ensures ReportReplays(c, stored, k, event) && stored[k].status == made[k].status
  {
    assert SameReport(stored[k], made[k]);
    if k > 0 {
      assert SameReport(stored[k - 1], made[k - 1]);
    }
  }

  lemma {:induction false} SameStep(c: Calibration, profileId: string, stored: seq<DriftReport>, made: seq<DriftReport>,
                                    parent: Event, event: Event, index: nat, cursor: Cursor)
    requires SameReports(stored, made) && ExactReports(c, made) && cursor.reports <= |made|
    requires ReplayEvent(c, profileId, made, parent, event, index, cursor).Some?
    ensures ReplayEvent(c, profileId, stored, parent, event, index, cursor)
            == ReplayEvent(c, profileId, made, parent, event, index, cursor)
  {
    if event.eventType == DriftAssessed {
      AcceptedAssessment(c, profileId, made, parent, event, index, cursor);
      SameReportReplays(c, stored, made, cursor.reports, event);
      ReplayAccepts(c, profileId, stored, parent, event, index, cursor);
    } else {
      PrefixAgrees(stored, made, cursor.reports);
      LatestAgrees(stored[..cursor.reports], made[..cursor.reports], cursor.state, event.currentState);
    }
  }

  lemma {:induction false} PrefixAgrees(stored: seq<DriftReport>, made: seq<DriftReport>, k: nat)
    requires SameReports(stored, made) && k <= |made|
    ensures SameReports(stored[..k], made[..k])
  {
    forall i | 0 <= i < k ensures SameReport(stored[..k][i], made[..k][i]) {
      assert SameReport(stored[i], made[i]);
    }
  }

  lemma {:induction false} SameReplay(c: Calibration, profileId: string, stored: seq<DriftReport>,
                                      made: seq<DriftReport>, events: seq<Event>, n: nat)
    requires SameReports(stored, made) && ExactReports(c, made) && n < |events|
    requires Replay(c, profileId, made, events, n).Some?
    ensures Replay(c, profileId, stored, events, n) == Replay(c, profileId, made, events, n)
  {
    if n > 0 {
      SameReplay(c, profileId, stored, made, events, n - 1);
      SameStep(c, profileId, stored, made, events[n - 1], events[n], n,
               Replay(c, profileId, made, events, n - 1).value);
    }
  }

  lemma {:induction false} LastReportAgrees(stored: seq<DriftReport>, made: seq<DriftReport>)
    requires SameReports(stored, made)
    ensures made != [] ==> Last(stored).id == Last(made).id
  {
    if made != [] {
      assert SameReport(stored[|made| - 1], made[|made| - 1]);
    }
  }

  lemma {:induction false} SameHistorySameHead(c: Calibration, stored: Log, made: Log)
    requires ValidHead(c, made) && SameHistory(stored, made)
    ensures ValidHead(c, stored)
  {
    LastReportAgrees(stored.reports, made.reports);
  }

  lemma {:induction false} SameHistoryIsValid(c: Calibration, stored: Log, made: Log)
    requires ValidLog(c, made) && ExactReports(c, made.reports) && SameHistory(stored, made)
    ensures ValidLog(c, stored)
  {
    SameHistorySameHead(c, stored, made);
    var n: nat := |made.events| - 1;
    assert Replay(c, stored.profileId, stored.reports, stored.events, n)
           == Some(Cursor(made.state, |made.reports|)) by {
      SameReplay(c, made.profileId, stored.reports, made.reports, made.events, n);
    }
  }

  /** Replay accepts a log in which no retired lifecycle is assessed exactly when
      it is the log of a run, up to rounding of the derived statistics. */
  lemma {:induction false} AcceptedIffRun(c: Calibration, stored: Log)
    requires Faithful(c)
    ensures ValidLog(c, stored) && !AssessedWhileRetired(stored) <==>
              exists made :: Reachable(c, made) && SameHistory(stored, made)
  {
    if ValidLog(c, stored) && !AssessedWhileRetired(stored) {
      AcceptedIsRun(c, stored);
    }
    if made :| Reachable(c, made) && SameHistory(stored, made) {
      RunIsAccepted(c, stored, made);
    }
  }

  lemma {:induction false} AcceptedIsRun(c: Calibration, stored: Log)
    requires Faithful(c) && ValidLog(c, stored) && !AssessedWhileRetired(stored)
    ensures exists made :: Reachable(c, made) && SameHistory(stored, made)
  {
    var n := |stored.events| - 1;
    var commands := MirrorRun(c, stored, n);
    var made := Run(c, CreatedLog(c).value, commands);
    assert Reachable(c, made);
    assert stored.events[..n + 1] == stored.events && stored.reports[..|made.reports|] == stored.reports;
    LastReportAgrees(stored.reports, made.reports);
    assert SameHistory(stored, made);
  }

  lemma {:induction false} RunIsAccepted(c: Calibration, stored: Log, made: Log)
    requires Faithful(c) && Reachable(c, made) && SameHistory(stored, made)
    ensures ValidLog(c, stored) && !AssessedWhileRetired(stored)
  {
    var commands: seq<Command> :| Run(c, CreatedLog(c).value, commands) == made;
    RunIsExact(c, commands);
    CreatedIsValidLog(c);
    RunKeepsValid(c, CreatedLog(c).value, commands);
    SameHistoryIsValid(c, stored, made);
  }

  // ----- the histories no run makes

  function DriftingBins(profile: CalibrationProfile): (bins: seq<WindowBinInput>)
    requires profile.bins != []
    ensures |bins| == |profile.bins| && bins[0].samples == 1
            && bins[0].successes == (if profile.bins[0].source.mean > 0.0 then 0 else 1)
    ensures forall i :: 0 < i < |bins| ==> bins[i] == WindowBinInput(0, 0)
  {
    seq(|profile.bins|, i requires 0 <= i < |profile.bins| =>
      if i == 0 then WindowBinInput(1, if profile.bins[0].source.mean > 0.0 then 0 else 1) else WindowBinInput(0, 0))
  }

  lemma {:induction false} OneSample(bins: seq<WindowBinInput>)
    requires bins != [] && bins[0].samples == 1 && bins[0].successes <= 1
    requires forall i :: 0 < i < |bins| ==> bins[i] == WindowBinInput(0, 0)
    ensures WindowFailure(bins).None? && WindowSamples(bins) == 1
  {
    if |bins| > 1 {
      OneSample(bins[..|bins| - 1]);
    } else {
      assert bins[..0] == [];
    }
  }

  lemma {:induction false} SampledErrorIsNonNegative(baseline: Bin, profileSamples: nat, observed: WindowBinInput,
                                                     total: nat)
    ensures SampledError(Compare(baseline, profileSamples, observed, total)) >= 0.0
  {
    var bin := Compare(baseline, profileSamples, observed, total);
    NonNegative(bin.samples as real, bin.absoluteError);
  }

  lemma {:induction false} OneSampleError(baseline: Bin, profileSamples: nat, total: nat)
    requires baseline.source.mean >= 0.0
    ensures var observed := WindowBinInput(1, if baseline.source.mean > 0.0 then 0 else 1);
            SampledError(Compare(baseline, profileSamples, observed, total)) > 0.0
  {
    assert Share(0, 1) == 0.0 && Share(1, 1) == 1.0;
  }

  lemma {:induction false} DriftingSum(profile: CalibrationProfile)
    requires profile.bins != [] && profile.bins[0].source.mean >= 0.0
    ensures Sum(CompareAll(profile.bins, profile.sampleCount, DriftingBins(profile), 1), SampledError) > 0.0
  {
    var observed := DriftingBins(profile);
    var bins := CompareAll(profile.bins, profile.sampleCount, observed, 1);
    forall i | 0 <= i < |bins| ensures 0.0 <= SampledError(bins[i]) {
      SampledErrorIsNonNegative(profile.bins[i], profile.sampleCount, observed[i], 1);
    }
    OneSampleError(profile.bins[0], profile.sampleCount, 1);
    assert observed[0] == WindowBinInput(1, if profile.bins[0].source.mean > 0.0 then 0 else 1);
    SumAtLeast(bins, SampledError, 0);
  }

  lemma {:induction false} DriftingErrorIsPositive(profile: CalibrationProfile)
    requires profile.bins != [] && profile.bins[0].source.mean >= 0.0
    ensures StatisticsOf(profile, DriftingBins(profile)).expectedError > 0.0
  {
    OneSample(DriftingBins(profile));
    DriftingSum(profile);
  }

  function AlphaDigest(): (digest: string)
    ensures ValidSha256(digest)
  {
    seq(64, i requires 0 <= i < 64 => 'a')
  }

  function StrictOptions(): DriftOptions {
    DriftOptions(1, 1, 0.0, 0.0, 0.0, 0.0)
  }

  function DriftingWindow(profile: CalibrationProfile, sequence: U64): WindowInput
    requires profile.bins != []
  {
    WindowInput("w", sequence, AlphaDigest(), DriftingBins(profile))
  }

  lemma {:induction false} DriftingIsAdmitted(hash: Hash, bound: LowerBound, profile: CalibrationProfile, sequence: U64)
    requires ValidProfile(hash, bound, profile) && profile.bins != []
    ensures AdmissibleInput(hash, bound, profile, DriftingWindow(profile, sequence), StrictOptions())
    ensures WindowFailure(DriftingBins(profile)).None?
  {
    OneSample(DriftingBins(profile));
  }

  /** An admissible window is assessed, with the status its statistics call for. */
  lemma {:induction false} AdmittedIsAssessed(basis: Basis, window: WindowInput, options: DriftOptions)
    returns (report: DriftReport)
    requires AdmissibleInput(basis.hash, basis.bound, basis.profile, window, options)
    requires WindowFailure(window.bins).None?
    ensures basis.Calibrate().assess(window, options) == Ok(report)
    ensures report.status == StatusOf(StatisticsOf(basis.profile, window.bins),
                                      SomeBinTooSmall(window.bins, options.minimumBinSamples), options)
  {
    report := basis.Calibrate().assess(window, options).value;
  }

  /** Every valid profile has a window that shows drift: a single surprising outcome, with nothing tolerated. */
  lemma {:induction false} SomeWindowDrifts(basis: Basis, sequence: U64)
    returns (window: WindowInput, report: DriftReport)
    requires ValidProfile(basis.hash, basis.bound, basis.profile)
    ensures window.sequence == sequence && basis.Calibrate().assess(window, StrictOptions()) == Ok(report)
            && report.status == DriftDetected
  {
    var profile := basis.profile;
    assert profile.bins != [] && profile.bins[0].source.mean >= 0.0 by {
      ValidIsPartition(basis.hash, basis.bound, profile);
      assert ValidBin(InputOf(profile).bins, 0);
    }
    window := DriftingWindow(profile, sequence);
    DriftingIsAdmitted(basis.hash, basis.bound, profile, sequence);
    report := AdmittedIsAssessed(basis, window, StrictOptions());
    OneSample(DriftingBins(profile));
    DriftingErrorIsPositive(profile);
    DriftingStatus(profile, DriftingBins(profile));
  }

  lemma {:induction false} DriftingStatus(profile: CalibrationProfile, observed: seq<WindowBinInput>)
    requires |observed| == |profile.bins| && WindowSamples(observed) >= 1
             && StatisticsOf(profile, observed).expectedError > 0.0
    ensures StatusOf(StatisticsOf(profile, observed), SomeBinTooSmall(observed, 1), StrictOptions()) == DriftDetected
  {
    var s := StatisticsOf(profile, observed);
    assert DataReasons(s.samples, SomeBinTooSmall(observed, 1), StrictOptions()) == [];
    assert ExpectedCalibrationErrorExceeded in DriftReasons(s, StrictOptions());
  }

  /** The lifecycle retired right after its registration. */
  lemma {:induction false} RetiredRun(c: Calibration) returns (retired: Log)
    requires Faithful(c) && c.valid
    ensures Reachable(c, retired) && ValidLog(c, retired) && retired.state == Retired && retired.generation == 1
            && retired.reports == []
  {
    var start := CreatedLog(c).value;
    CreatedIsValidLog(c);
    assert Run(c, start, []) == start;
    var command := MoveTo(start.currentEventId, Retired, "x", 2);
    retired := Step(c, start, command);
    ReachableStep(c, start, command);
    StepKeepsValid(c, start, command);
  }

  /** Replay accepts histories that no run makes: for every valid profile, one
      that assesses a retired lifecycle and thereby quarantines it. */
  lemma {:induction false} RetiredCanBeReopened(basis: Basis) returns (before: Log, after: Log)
    requires ValidProfile(basis.hash, basis.bound, basis.profile)
    ensures var c := basis.Calibrate();
            && Reachable(c, before) && before.state == Retired
            && ValidLog(c, after) && before.events < after.events && after.state == Quarantined
            && !exists made :: Reachable(c, made) && SameHistory(after, made)
  {
    var c := basis.Calibrate();
    BasisIsFaithful(basis);
    before := RetiredRun(c);
    var window, report := SomeWindowDrifts(basis, 0);
    AssessmentExtends(c, before, window, StrictOptions(), report);
    var event := AssessmentEvent(c, before, report);
    after := AddReport(Append(before, event), report);
    assert RetiredAssessment(after.events[|before.events|]);
    AcceptedIffRun(c, after);
  }
}
