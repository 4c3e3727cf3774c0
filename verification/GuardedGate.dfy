/** The calibrated gate behind a lifecycle: proposals are adjusted only under
    the current head of a valid lifecycle that is ready for deployment. */
module GuardedGate {
  import opened Support
  import opened Sequences
  import opened Drift
  import opened Gate
  import opened Lifecycle
  import opened LifecycleRuns
  import opened LifecycleHistory
  import opened LifecycleIdentity

  function GuardedAdjust(basis: Basis, log: Log, expectedEventId: string, scopeId: string, modelDigest: string,
                         proposals: seq<Proposal>, options: GateOptions, cancelled: nat -> bool): Result<Adjusted> {
    if !ValidLog(basis.Calibrate(), log) || !DeploymentReady(log) then Err(InvalidArgument)
    else if !ValidSha256(expectedEventId) || expectedEventId != log.currentEventId then Err(IdentityMismatch)
    else
      var adjusted :- Adjust(basis.hash, basis.bound, basis.profile, scopeId, modelDigest, proposals, options,
                             cancelled);
      Ok(adjusted.(lifecycleEventId := log.currentEventId))
  }

  method CheckProposalsGuarded(basis: Basis, lifecycle: PolicyCalibrationLifecycle, expectedEventId: string,
                               scopeId: string, modelDigest: string, proposals: seq<Proposal>, options: GateOptions,
                               cancelled: nat -> bool)
    returns (adjusted: Result<Adjusted>)
    ensures adjusted
            == GuardedAdjust(basis, lifecycle.Contents(), expectedEventId, scopeId, modelDigest, proposals, options,
                             cancelled)
  {
    var valid := lifecycle.Valid(basis);
    if !valid || !DeploymentReady(lifecycle.Contents()) {
      return Err(InvalidArgument);
    }
    if !ValidSha256(expectedEventId) || expectedEventId != lifecycle.currentEventId {
      return Err(IdentityMismatch);
    }
    adjusted := CheckProposals(basis.hash, basis.bound, basis.profile, scopeId, modelDigest, proposals, options,
                               cancelled);
    if adjusted.Ok? {
      adjusted := Ok(adjusted.value.(lifecycleEventId := lifecycle.currentEventId));
    }
  }

  /** A guarded batch names the head it was adjusted under, and every drift ever
      detected under that head has been reviewed since. */
  lemma {:induction false} GuardedBatchIsReviewed(basis: Basis, log: Log, expectedEventId: string, scopeId: string,
                                                  modelDigest: string, proposals: seq<Proposal>, options: GateOptions,
                                                  cancelled: nat -> bool, adjusted: Adjusted)
    requires GuardedAdjust(basis, log, expectedEventId, scopeId, modelDigest, proposals, options, cancelled)
             == Ok(adjusted)
    ensures adjusted.lifecycleEventId == expectedEventId == log.currentEventId && log.state == Active
            && log.events != []
    ensures forall i: nat :: i < |log.events| && Found(log.events[i], DriftDetected) ==>
            Reviewed(log.events, i, |log.events| - 1)
  {
    DriftsAreReviewed(basis.Calibrate(), log);
  }

  lemma {:induction false} DriftsAreReviewed(c: Calibration, log: Log)
    requires ValidLog(c, log) && log.state == Active
    ensures forall i: nat :: i < |log.events| && Found(log.events[i], DriftDetected) ==>
              Reviewed(log.events, i, |log.events| - 1)
  {
    StateIsLastEvents(c, log);
    forall i: nat | i < |log.events| && Found(log.events[i], DriftDetected)
      ensures Reviewed(log.events, i, |log.events| - 1)
    {
      DriftIsReviewed(c, log, i, |log.events| - 1);
    }
  }

  /** A batch is adjusted behind a lifecycle exactly when that is valid and
      active, the caller names its head, and the profile's own gate adjusts it;
      it is the batch adjusted there, with the head. */
  lemma {:induction false} GuardedIff(basis: Basis, log: Log, expectedEventId: string, scopeId: string,
                                      modelDigest: string, proposals: seq<Proposal>, options: GateOptions,
                                      cancelled: nat -> bool, adjusted: Adjusted)
    requires IsSha256(basis.hash)
    ensures GuardedAdjust(basis, log, expectedEventId, scopeId, modelDigest, proposals, options, cancelled)
            == Ok(adjusted) <==>
              && ValidLog(basis.Calibrate(), log) && log.state == Active && expectedEventId == log.currentEventId
              && adjusted.lifecycleEventId == expectedEventId
              && Adjust(basis.hash, basis.bound, basis.profile, scopeId, modelDigest, proposals, options, cancelled)
                 == Ok(adjusted.(lifecycleEventId := ""))
  {
    var c := basis.Calibrate();
    if ValidLog(c, log) {
      ActiveIffReady(c, log);
      EventIsChained(c, log, |log.events| - 1);
      assert ValidSha256(c.hash(EventTree(log.profileId, Last(log.events))));
    }
  }

  /** A guarded batch was adjusted under a valid log, whose head it names. */
  lemma {:induction false} GuardedUnderHead(basis: Basis, log: Log, expectedEventId: string, scopeId: string,
      modelDigest: string, proposals: seq<Proposal>, options: GateOptions, cancelled: nat -> bool, adjusted: Adjusted)
    requires GuardedAdjust(basis, log, expectedEventId, scopeId, modelDigest, proposals, options, cancelled)
             == Ok(adjusted)
    ensures ValidLog(basis.Calibrate(), log) && adjusted.lifecycleEventId == log.currentEventId
  {
  }

  /** Valid logs with one head have one history. */
  lemma {:induction false} SameHeadSameHistory(basis: Basis, a: Log, b: Log)
    requires ValidLog(basis.Calibrate(), a) && ValidLog(basis.Calibrate(), b) && a.currentEventId == b.currentEventId
    requires InjectiveOn(basis.hash, Digested(a) + Digested(b))
    ensures a.events == b.events && |a.reports| == |b.reports|
    ensures forall k :: 0 <= k < |a.reports| ==> SameInputs(a.reports[k], b.reports[k])
  {
    var c := basis.Calibrate();
    BasisIsFaithful(basis);
    assert c.hash == basis.hash;
    assert InjectiveOn(c.hash, Digested(a) + Digested(b));
    HeadCommitsToHistory(c, a, b);
  }

  /** Two guarded batches of one profile that name the same head, whatever each
      was asked for and under, were adjusted under the same history. */
  lemma {:induction false} GuardedBatchesShareHistory(basis: Basis,
      a: Log, expectedA: string, scopeA: string, modelA: string, proposalsA: seq<Proposal>, optionsA: GateOptions,
      cancelledA: nat -> bool, batchA: Adjusted,
      b: Log, expectedB: string, scopeB: string, modelB: string, proposalsB: seq<Proposal>, optionsB: GateOptions,
      cancelledB: nat -> bool, batchB: Adjusted)
    requires GuardedAdjust(basis, a, expectedA, scopeA, modelA, proposalsA, optionsA, cancelledA) == Ok(batchA)
    requires GuardedAdjust(basis, b, expectedB, scopeB, modelB, proposalsB, optionsB, cancelledB) == Ok(batchB)
    requires batchA.lifecycleEventId == batchB.lifecycleEventId
    requires InjectiveOn(basis.hash, Digested(a) + Digested(b))
    ensures a.events == b.events && |a.reports| == |b.reports|
    ensures forall k :: 0 <= k < |a.reports| ==> SameInputs(a.reports[k], b.reports[k])
  {
    GuardedUnderHead(basis, a, expectedA, scopeA, modelA, proposalsA, optionsA, cancelledA, batchA);
    GuardedUnderHead(basis, b, expectedB, scopeB, modelB, proposalsB, optionsB, cancelledB, batchB);
    SameHeadSameHistory(basis, a, b);
  }
}
