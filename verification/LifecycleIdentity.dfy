/** The head of a lifecycle commits to its whole history, as far as the digest
    does not confuse the finitely many records involved. */
module LifecycleIdentity {
  import opened Support
  import opened Sequences
  import opened Decimal
  import opened Drift
  import opened Lifecycle
  import opened LifecycleRuns
  import opened LifecycleReplay
  import opened LifecycleHistory

  function InputTree(profileId: string, report: DriftReport): Json {
    ReportTree(profileId, WindowOf(report), report.options)
  }

  /** Everything a log has digested. */
  ghost function Digested(log: Log): set<Json> {
    (set i | 0 <= i < |log.events| :: EventTree(log.profileId, log.events[i]))
    + (set k | 0 <= k < |log.reports| :: InputTree(log.profileId, log.reports[k]))
  }

  ghost predicate InjectiveOn(hash: Hash, trees: set<Json>) {
    forall x, y :: x in trees && y in trees && hash(x) == hash(y) ==> x == y
  }

  // ----- trees determine records

  lemma {:induction false} StateNumbersDiffer(a: LifecycleState, b: LifecycleState)
    requires StateNumber(a) as real == StateNumber(b) as real
    ensures a == b
  {
  }

  lemma {:induction false} EventTreeDetermines(profileId: string, a: Event, b: Event)
    requires EventTree(profileId, a) == EventTree(profileId, b)
    ensures a.(id := "") == b.(id := "")
  {
    var x, y := EventTree(profileId, a).fields, EventTree(profileId, b).fields;
    assert x[Key.CurrentState] == y[Key.CurrentState] && x[Key.PreviousState] == y[Key.PreviousState];
    assert x[Key.Type] == y[Key.Type] && x[Key.Sequence] == y[Key.Sequence];
    assert x[Key.Detail] == y[Key.Detail] && x[Key.ParentId] == y[Key.ParentId] && x[Key.ReportId] == y[Key.ReportId];
    StateNumbersDiffer(a.currentState, b.currentState);
    StateNumbersDiffer(a.previousState, b.previousState);
    PrintIsInjective(a.sequence, b.sequence);
  }

  lemma {:induction false} OptionsTreeDetermines(a: DriftOptions, b: DriftOptions)
    requires OptionsTree(a) == OptionsTree(b)
    ensures a == b
  {
    var x, y := OptionsTree(a).fields, OptionsTree(b).fields;
    assert x[Key.MaximumBinSuccessRateDrop] == y[Key.MaximumBinSuccessRateDrop];
    assert x[Key.MaximumExpectedCalibrationError] == y[Key.MaximumExpectedCalibrationError];
    assert x[Key.MaximumOverallSuccessRateDrop] == y[Key.MaximumOverallSuccessRateDrop];
    assert x[Key.MaximumTotalVariationDistance] == y[Key.MaximumTotalVariationDistance];
    assert x[Key.MinimumBinSamples] == y[Key.MinimumBinSamples]
           && x[Key.MinimumTotalSamples] == y[Key.MinimumTotalSamples];
    PrintIsInjective(a.minimumBinSamples, b.minimumBinSamples);
    PrintIsInjective(a.minimumTotalSamples, b.minimumTotalSamples);
  }

  lemma {:induction false} BinTreeDetermines(a: WindowBinInput, b: WindowBinInput)
    requires WindowBinTree(a) == WindowBinTree(b)
    ensures a == b
  {
    var x, y := WindowBinTree(a).fields, WindowBinTree(b).fields;
    assert x[Key.Samples] == y[Key.Samples] && x[Key.Successes] == y[Key.Successes];
    PrintIsInjective(a.samples, b.samples);
    PrintIsInjective(a.successes, b.successes);
  }

  lemma {:induction false} BinTreesDetermine(a: seq<WindowBinInput>, b: seq<WindowBinInput>)
    requires WindowBinTrees(a) == WindowBinTrees(b)
    ensures a == b
  {
    assert |a| == |WindowBinTrees(a)| == |b|;
    forall i | 0 <= i < |a| ensures a[i] == b[i] {
      assert WindowBinTrees(a)[i] == WindowBinTrees(b)[i];
      BinTreeDetermines(a[i], b[i]);
    }
  }

  lemma {:induction false} ReportTreeDetermines(profileId: string, a: WindowInput, b: WindowInput, x: DriftOptions,
                                                y: DriftOptions)
    requires ReportTree(profileId, a, x) == ReportTree(profileId, b, y)
    ensures a == b && x == y
  {
    var s, t := ReportTree(profileId, a, x).fields, ReportTree(profileId, b, y).fields;
    assert s[Key.Bins] == t[Key.Bins] && s[Key.Options] == t[Key.Options];
    assert s[Key.SourceDigest] == t[Key.SourceDigest] && s[Key.WindowId] == t[Key.WindowId];
    assert s[Key.WindowSequence] == t[Key.WindowSequence];
    BinTreesDetermine(a.bins, b.bins);
    OptionsTreeDetermines(x, y);
    PrintIsInjective(a.sequence, b.sequence);
  }

  /** Events and reports never share a tree. */
  lemma {:induction false} KindsDiffer(profileId: string, event: Event, report: DriftReport)
    ensures EventTree(profileId, event) != InputTree(profileId, report)
  {
    assert Key.Type in EventTree(profileId, event).fields;
    assert Key.Type !in InputTree(profileId, report).fields;
  }

  // ----- identities are digests

  /** Event `n` is numbered, names the event before it, and carries its own digest. */
  ghost predicate HashChainedAt(hash: Hash, log: Log, n: nat)
    requires n < |log.events|
  {
    var event := log.events[n];
    && event.sequence == n && event.id == hash(EventTree(log.profileId, event))
    && EventTree(log.profileId, event) in Digested(log)
    && event.parentId == (if n == 0 then "" else log.events[n - 1].id)
  }

  ghost predicate HashChained(hash: Hash, log: Log) {
    forall n {:trigger HashChainedAt(hash, log, n)} :: 0 <= n < |log.events| ==> HashChainedAt(hash, log, n)
  }

  lemma {:induction false} ValidIsChained(c: Calibration, log: Log)
    requires ValidLog(c, log)
    ensures HashChained(c.hash, log) && log.events != [] && log.currentEventId == Last(log.events).id
  {
    forall n | 0 <= n < |log.events| ensures HashChainedAt(c.hash, log, n) {
      EventIsChained(c, log, n);
    }
  }

  lemma {:induction false} EventIsChained(c: Calibration, log: Log, n: nat)
    requires ValidLog(c, log) && n < |log.events|
    ensures HashChainedAt(c.hash, log, n)
  {
    if n > 0 {
      PrefixReplays(c, log, n);
    } else {
      assert EventTree(log.profileId, log.events[0]) == EventTree(log.profileId, log.events[0].(id := ""));
    }
  }

  ghost predicate Sound(c: Calibration, reports: seq<DriftReport>, k: nat)
    requires k < |reports|
  {
    Rebuilds(c, reports[k]) && (k > 0 ==> reports[k - 1].windowSequence < reports[k].windowSequence)
  }

  lemma {:induction false} ConsumedByStep(c: Calibration, log: Log, event: Event, before: Cursor, after: Cursor, k: nat)
    requires before.reports <= k < after.reports && FollowsBy(c, log, event, before, after)
    ensures k < |log.reports| && Sound(c, log.reports, k)
  {
  }

  lemma {:induction false} ConsumedIsSound(c: Calibration, log: Log, trace: seq<Cursor>, k: nat, n: nat)
    requires IsTrace(c, log, trace) && n < |trace| && k < trace[n].reports
    ensures k < |log.reports| && Sound(c, log.reports, k)
  {
    if n > 0 {
      if k < trace[n - 1].reports {
        ConsumedIsSound(c, log, trace, k, n - 1);
      } else {
        ConsumedByStep(c, log, log.events[n], trace[n - 1], trace[n], k);
      }
    }
  }

  /** Every report was checked by the event that consumed it. */
  lemma {:induction false} ReportIsSound(c: Calibration, log: Log, k: nat)
    requires ValidLog(c, log) && k < |log.reports|
    ensures Sound(c, log.reports, k)
  {
    var trace := TraceOf(c, log);
    ConsumedIsSound(c, log, trace, k, |trace| - 1);
  }

  lemma {:induction false} ReportIsDigest(c: Calibration, log: Log, k: nat)
    requires Faithful(c) && ValidLog(c, log) && k < |log.reports|
    ensures log.reports[k].id == c.hash(InputTree(log.profileId, log.reports[k]))
    ensures InputTree(log.profileId, log.reports[k]) in Digested(log)
  {
    ReportIsSound(c, log, k);
  }

  // ----- the head commits to the history

  lemma {:induction false} SameIdSameEvent(hash: Hash, a: Log, b: Log, m: nat, n: nat)
    requires HashChained(hash, a) && HashChained(hash, b) && a.profileId == b.profileId
             && InjectiveOn(hash, Digested(a) + Digested(b))
    requires m < |a.events| && n < |b.events| && a.events[m].id == b.events[n].id
    ensures m == n && a.events[m] == b.events[n]
    ensures m > 0 ==> a.events[m - 1].id == b.events[m - 1].id
  {
    assert HashChainedAt(hash, a, m) && HashChainedAt(hash, b, n);
    EventTreeDetermines(a.profileId, a.events[m], b.events[n]);
  }

  /** Events with one id are the same event, and their predecessors have one id. */
  ghost predicate Synchronized(a: seq<Event>, b: seq<Event>, m: nat, n: nat)
    requires m < |a| && n < |b|
  {
    a[m].id == b[n].id ==> m == n && a[m] == b[n] && (m > 0 ==> a[m - 1].id == b[m - 1].id)
  }

  lemma {:induction false} EventsAgree(a: seq<Event>, b: seq<Event>, m: nat)
    requires forall i, j {:trigger Synchronized(a, b, i, j)} :: 0 <= i < |a| && 0 <= j < |b| ==>
             Synchronized(a, b, i, j)
    requires m < |a| && m < |b| && a[m].id == b[m].id
    ensures forall k :: 0 <= k <= m ==> a[k] == b[k]
  {
    assert Synchronized(a, b, m, m);
    if m > 0 {
      EventsAgree(a, b, m - 1);
    }
  }

  /** The reports consumed so far have the same identities in both logs. */
  ghost predicate ReportIdsMatch(a: Log, b: Log, x: Cursor, y: Cursor, k: nat) {
    && x.reports == y.reports
    && (k < x.reports ==> k < |a.reports| && k < |b.reports| && a.reports[k].id == b.reports[k].id)
  }

  lemma {:induction false} ReportIdsStep(c: Calibration, a: Log, b: Log, event: Event, x: Cursor, y: Cursor, u: Cursor,
                                         v: Cursor, k: nat)
    requires x.reports <= |a.reports| && y.reports <= |b.reports| && ReportIdsMatch(a, b, x, y, k)
    requires FollowsBy(c, a, event, x, u) && FollowsBy(c, b, event, y, v)
    ensures ReportIdsMatch(a, b, u, v, k)
  {
  }

  lemma {:induction false} ReportIdsAgree(c: Calibration, a: Log, b: Log, x: seq<Cursor>, y: seq<Cursor>, n: nat,
                                          k: nat)
    requires IsTrace(c, a, x) && IsTrace(c, b, y) && a.events == b.events && n < |a.events|
    ensures ReportIdsMatch(a, b, x[n], y[n], k)
  {
    if n > 0 {
      ReportIdsAgree(c, a, b, x, y, n - 1, k);
      ReportIdsStep(c, a, b, a.events[n], x[n - 1], y[n - 1], x[n], y[n], k);
    }
  }

  predicate SameInputs(a: DriftReport, b: DriftReport) {
    a.id == b.id && WindowOf(a) == WindowOf(b) && a.options == b.options
  }

  lemma {:induction false} InputsAgree(c: Calibration, a: Log, b: Log, k: nat)
    requires Faithful(c) && ValidLog(c, a) && ValidLog(c, b) && InjectiveOn(c.hash, Digested(a) + Digested(b))
    requires k < |a.reports| && k < |b.reports| && a.reports[k].id == b.reports[k].id
    ensures SameInputs(a.reports[k], b.reports[k])
  {
    ReportIsDigest(c, a, k);
    ReportIsDigest(c, b, k);
    ReportTreeDetermines(a.profileId, WindowOf(a.reports[k]), WindowOf(b.reports[k]), a.reports[k].options,
                         b.reports[k].options);
  }

  lemma {:induction false} LogsSynchronized(hash: Hash, a: Log, b: Log, i: nat, j: nat)
    requires HashChained(hash, a) && HashChained(hash, b) && a.profileId == b.profileId
             && InjectiveOn(hash, Digested(a) + Digested(b))
    requires i < |a.events| && j < |b.events|
    ensures Synchronized(a.events, b.events, i, j)
  {
    if a.events[i].id == b.events[j].id {
      SameIdSameEvent(hash, a, b, i, j);
    }
  }

  lemma {:induction false} SameHeadSameEvents(a: seq<Event>, b: seq<Event>)
    requires forall i, j {:trigger Synchronized(a, b, i, j)} :: 0 <= i < |a| && 0 <= j < |b| ==>
             Synchronized(a, b, i, j)
    requires a != [] && b != [] && Last(a).id == Last(b).id
    ensures a == b
  {
    assert Synchronized(a, b, |a| - 1, |b| - 1);
    EventsAgree(a, b, |a| - 1);
  }

  lemma {:induction false} SameEventsSameReportIds(c: Calibration, a: Log, b: Log)
    requires ValidLog(c, a) && ValidLog(c, b) && a.events == b.events
    ensures |a.reports| == |b.reports| && forall k :: 0 <= k < |a.reports| ==> a.reports[k].id == b.reports[k].id
  {
    var x := TraceOf(c, a);
    var y := TraceOf(c, b);
    ReportIdsAgree(c, a, b, x, y, |x| - 1, 0);
    forall k | 0 <= k < |a.reports| ensures a.reports[k].id == b.reports[k].id {
      ReportIdsAgree(c, a, b, x, y, |x| - 1, k);
    }
  }

  /** Two valid logs of one profile with the same head have the same events and
      the same report inputs, and so the same state. */
  lemma {:induction false} HeadCommitsToHistory(c: Calibration, a: Log, b: Log)
    requires Faithful(c) && ValidLog(c, a) && ValidLog(c, b) && InjectiveOn(c.hash, Digested(a) + Digested(b))
    requires a.currentEventId == b.currentEventId
    ensures a.events == b.events && a.state == b.state && a.generation == b.generation
    ensures |a.reports| == |b.reports| && forall k :: 0 <= k < |a.reports| ==> SameInputs(a.reports[k], b.reports[k])
  {
    ValidIsChained(c, a);
    ValidIsChained(c, b);
    forall i, j | 0 <= i < |a.events| && 0 <= j < |b.events| ensures Synchronized(a.events, b.events, i, j) {
      LogsSynchronized(c.hash, a, b, i, j);
    }
    SameHeadSameEvents(a.events, b.events);
    StateIsLastEvents(c, a);
    StateIsLastEvents(c, b);
    SameEventsSameReportIds(c, a, b);
    forall k | 0 <= k < |a.reports| ensures SameInputs(a.reports[k], b.reports[k]) {
      InputsAgree(c, a, b, k);
    }
  }

  // ----- identities within one log

  lemma {:induction false} WindowsIncrease(c: Calibration, log: Log, j: nat, k: nat)
    requires ValidLog(c, log) && j < k < |log.reports|
    ensures log.reports[j].windowSequence < log.reports[k].windowSequence
  {
    ReportIsSound(c, log, k);
    if j < k - 1 {
      WindowsIncrease(c, log, j, k - 1);
    }
  }

  /** All identities inside one log are distinct. */
  lemma {:induction false} IdentitiesAreDistinct(c: Calibration, log: Log)
    requires Faithful(c) && ValidLog(c, log) && InjectiveOn(c.hash, Digested(log))
    ensures forall i, j :: 0 <= i < j < |log.events| ==> log.events[i].id != log.events[j].id
    ensures forall i, j :: 0 <= i < j < |log.reports| ==> log.reports[i].id != log.reports[j].id
    ensures forall i, k :: 0 <= i < |log.events| && 0 <= k < |log.reports| ==> log.events[i].id != log.reports[k].id
  {
    forall i, j | 0 <= i < j < |log.events| ensures log.events[i].id != log.events[j].id {
      EventIsChained(c, log, i);
      EventIsChained(c, log, j);
      if log.events[i].id == log.events[j].id {
        EventTreeDetermines(log.profileId, log.events[i], log.events[j]);
      }
    }
    forall i, j | 0 <= i < j < |log.reports| ensures log.reports[i].id != log.reports[j].id {
      ReportsDiffer(c, log, i, j);
    }
    forall i, k | 0 <= i < |log.events| && 0 <= k < |log.reports| ensures log.events[i].id != log.reports[k].id {
      EventIsChained(c, log, i);
      ReportIsDigest(c, log, k);
      KindsDiffer(log.profileId, log.events[i], log.reports[k]);
    }
  }

  lemma {:induction false} ReportsDiffer(c: Calibration, log: Log, i: nat, j: nat)
    requires Faithful(c) && ValidLog(c, log) && InjectiveOn(c.hash, Digested(log)) && i < j < |log.reports|
    ensures log.reports[i].id != log.reports[j].id
  {
    ReportIsDigest(c, log, i);
    ReportIsDigest(c, log, j);
    WindowsIncrease(c, log, i, j);
    if log.reports[i].id == log.reports[j].id {
      var a, b := log.reports[i], log.reports[j];
      ReportTreeDetermines(log.profileId, WindowOf(a), WindowOf(b), a.options, b.options);
    }
  }
}
