/** The calibrated policy gate up to the proposals it hands on: admission of the
    profile and the batch, and the confidence adjustment of every proposal. */
module Gate {
  import opened Support
  import opened Decimal
  import opened Wilson
  import opened Profile

  datatype Metadata = Metadata(
    policyId: string,
    taskId: string,
    episodeId: string,
    sequence: U64,
    confidence: real,
    stateUncertainty: real,
    actionUncertainty: real,
    observationAgeSeconds: real,
    inferenceLatencySeconds: real)

  /** A proposed action, known by its digest, with the policy's claims about it. */
  datatype Proposal = Proposal(actionDigest: string, metadata: Metadata)

  datatype GateOptions = GateOptions(
    minimumTotalSamples: U64,
    minimumBinSamples: U64,
    maximumExpectedError: real,
    maximumBinError: real,
    maximumProposals: nat)

  datatype Application = Application(
    id: string,
    profileId: string,
    raw: Metadata,
    effective: Metadata,
    binIndex: nat,
    binSamples: U64,
    calibratedConfidence: real,
    conservativeConfidence: real)

  datatype Adjusted = Adjusted(profileId: string, lifecycleEventId: string, applications: seq<Application>,
                               effective: seq<Proposal>)

  function MetadataTree(m: Metadata): Json {
    JObject(map[
      Key.ActionUncertainty := JNumber(m.actionUncertainty),
      Key.Confidence := JNumber(m.confidence),
      Key.EpisodeId := JString(m.episodeId),
      Key.InferenceLatencySeconds := JNumber(m.inferenceLatencySeconds),
      Key.ObservationAgeSeconds := JNumber(m.observationAgeSeconds),
      Key.PolicyId := JString(m.policyId),
      Key.Sequence := JString(Print(m.sequence)),
      Key.StateUncertainty := JNumber(m.stateUncertainty),
      Key.TaskId := JString(m.taskId)])
  }

  function ApplicationTree(actionDigest: string, a: Application): Json {
    JObject(map[
      Key.ActionDigest := JString(actionDigest),
      Key.BinIndex := JString(Print(a.binIndex)),
      Key.BinSamples := JString(Print(a.binSamples)),
      Key.CalibratedConfidence := JNumber(a.calibratedConfidence),
      Key.ConservativeConfidence := JNumber(a.conservativeConfidence),
      Key.EffectiveMetadata := MetadataTree(a.effective),
      Key.ProfileId := JString(a.profileId),
      Key.RawMetadata := MetadataTree(a.raw)])
  }

  function Apply(hash: Hash, profile: CalibrationProfile, proposal: Proposal, found: CalibrationLookup): Application {
    var unidentified := Application(
      "", profile.id, proposal.metadata, proposal.metadata.(confidence := found.conservativeConfidence), found.binIndex,
      found.samples, found.calibratedConfidence, found.conservativeConfidence);
    unidentified.(id := hash(ApplicationTree(proposal.actionDigest, unidentified)))
  }

  /** The outcome for one proposal, its identity aside. */
  function ApplicationFor(hash: Hash, profile: CalibrationProfile, minimumBinSamples: nat,
                          proposal: Proposal): Result<Application> {
    if proposal.metadata.policyId != profile.scope.policyId || proposal.metadata.taskId != profile.scope.taskId
      then Err(IdentityMismatch)
    else
      var found :- LookupOf(profile, proposal.metadata.confidence);
      if found.samples < minimumBinSamples then Err(InvalidArgument)
      else Ok(Apply(hash, profile, proposal, found))
  }

  predicate HasId(applications: seq<Application>, id: string) {
    exists i :: 0 <= i < |applications| && applications[i].id == id
  }

  predicate CancelledAt(cancelled: nat -> bool, index: nat) {
    index % 64 == 0 && cancelled(index)
  }

  /** The applications so far, extended by those of the next proposal. */
  function Extend(hash: Hash, profile: CalibrationProfile, minimumBinSamples: nat, cancelled: bool, proposal: Proposal,
                  applications: seq<Application>): Result<seq<Application>> {
    if cancelled then Err(Cancelled)
    else
      var application :- ApplicationFor(hash, profile, minimumBinSamples, proposal);
      if HasId(applications, application.id) then Err(InvalidArgument) else Ok(applications + [application])
  }

  /** The applications of a batch, or the failure of the first proposal that has one. */
  function ApplyAll(hash: Hash, profile: CalibrationProfile, minimumBinSamples: nat, proposals: seq<Proposal>,
                    cancelled: nat -> bool)
    : Result<seq<Application>>
  {
    if proposals == [] then Ok([]) else
      var index := |proposals| - 1;
      var before :- ApplyAll(hash, profile, minimumBinSamples, proposals[..index], cancelled);
      Extend(hash, profile, minimumBinSamples, CancelledAt(cancelled, index), proposals[index], before)
  }

  lemma {:induction false} FirstFailureStands(hash: Hash, profile: CalibrationProfile, minimumBinSamples: nat,
                                              proposals: seq<Proposal>, cancelled: nat -> bool, n: nat)
    requires n <= |proposals| && ApplyAll(hash, profile, minimumBinSamples, proposals[..n], cancelled).Err?
    ensures ApplyAll(hash, profile, minimumBinSamples, proposals, cancelled)
         == ApplyAll(hash, profile, minimumBinSamples, proposals[..n], cancelled)
  {
    if n == |proposals| {
      assert proposals[..n] == proposals;
    } else {
      assert proposals[..|proposals| - 1][..n] == proposals[..n];
      FirstFailureStands(hash, profile, minimumBinSamples, proposals[..|proposals| - 1], cancelled, n);
    }
  }

  function EffectiveProposals(proposals: seq<Proposal>, applications: seq<Application>): (effective: seq<Proposal>)
    requires |applications| == |proposals|
    ensures |effective| == |proposals|
    ensures forall i :: 0 <= i < |proposals| ==> effective[i] == proposals[i].(metadata := applications[i].effective)
  {
    seq(|proposals|, i requires 0 <= i < |proposals| => proposals[i].(metadata := applications[i].effective))
  }

  lemma {:induction false} AppliedCount(hash: Hash, profile: CalibrationProfile, minimumBinSamples: nat,
                                        proposals: seq<Proposal>, cancelled: nat -> bool)
    requires ApplyAll(hash, profile, minimumBinSamples, proposals, cancelled).Ok?
    ensures |ApplyAll(hash, profile, minimumBinSamples, proposals, cancelled).value| == |proposals|
  {
    if proposals != [] {
      AppliedCount(hash, profile, minimumBinSamples, proposals[..|proposals| - 1], cancelled);
    }
  }

  predicate ValidGateInput(hash: Hash, bound: LowerBound, profile: CalibrationProfile, scopeId: string,
                           modelDigest: string, options: GateOptions) {
    && ValidProfile(hash, bound, profile) && ValidText(scopeId, MAXIMUM_TEXT) && ValidSha256(modelDigest)
    && options.minimumTotalSamples > 0 && options.minimumBinSamples > 0
    && 0.0 <= options.maximumExpectedError <= 1.0 && 0.0 <= options.maximumBinError <= 1.0
    && options.maximumProposals > 0
  }

  predicate MeetsQuality(profile: CalibrationProfile, options: GateOptions) {
    && profile.sampleCount >= options.minimumTotalSamples
    && profile.expectedError <= options.maximumExpectedError && profile.maximumError <= options.maximumBinError
  }

  /** Why a batch is refused before any proposal is looked at. */
  function BatchRefusal(hash: Hash, bound: LowerBound, profile: CalibrationProfile, scopeId: string,
                        modelDigest: string, proposals: seq<Proposal>, options: GateOptions): Option<StatusCode> {
    if !ValidGateInput(hash, bound, profile, scopeId, modelDigest, options) then Some(InvalidArgument)
    else if profile.scope.scopeId != scopeId || profile.scope.policyModelDigest != modelDigest
           then Some(IdentityMismatch)
    else if !MeetsQuality(profile, options) then Some(InvalidArgument)
    else if proposals == [] then Some(InvalidArgument)
    else if |proposals| > options.maximumProposals then Some(ResourceLimit)
    else None
  }

  function Adjust(hash: Hash, bound: LowerBound, profile: CalibrationProfile, scopeId: string, modelDigest: string,
                  proposals: seq<Proposal>, options: GateOptions, cancelled: nat -> bool): Result<Adjusted> {
    var refusal := BatchRefusal(hash, bound, profile, scopeId, modelDigest, proposals, options);
    if refusal.Some? then Err(refusal.value) else
      var applications :- ApplyAll(hash, profile, options.minimumBinSamples, proposals, cancelled);
      AppliedCount(hash, profile, options.minimumBinSamples, proposals, cancelled);
      Ok(Adjusted(profile.id, "", applications, EffectiveProposals(proposals, applications)))
  }

  lemma {:induction false} ApplyNext(hash: Hash, profile: CalibrationProfile, minimumBinSamples: nat,
                                     proposals: seq<Proposal>, cancelled: nat -> bool, index: nat,
                                     done: seq<Application>)
    requires index < |proposals|
             && ApplyAll(hash, profile, minimumBinSamples, proposals[..index], cancelled) == Ok(done)
    ensures var next := Extend(hash, profile, minimumBinSamples, CancelledAt(cancelled, index), proposals[index], done);
            && ApplyAll(hash, profile, minimumBinSamples, proposals[..index + 1], cancelled) == next
            && (next.Err? ==> ApplyAll(hash, profile, minimumBinSamples, proposals, cancelled) == next)
  {
    var prefix := proposals[..index + 1];
    assert prefix[..index] == proposals[..index] && prefix[index] == proposals[index];
    if ApplyAll(hash, profile, minimumBinSamples, prefix, cancelled).Err? {
      FirstFailureStands(hash, profile, minimumBinSamples, proposals, cancelled, index + 1);
    }
  }

  /** One turn of the loop: the application of a proposal, if its identity is new. */
  method ApplyOne(hash: Hash, profile: CalibrationProfile, minimumBinSamples: nat, cancelled: bool, proposal: Proposal,
                  ghost done: seq<Application>, ids: set<string>) returns (application: Result<Application>)
    requires forall id :: id in ids <==> HasId(done, id)
    ensures match Extend(hash, profile, minimumBinSamples, cancelled, proposal, done)
            case Err(code) => application == Err(code)
            case Ok(more) =>
              application.Ok? && more == done + [application.value] && application.value.raw == proposal.metadata
  {
    if cancelled {
      return Err(Cancelled);
    }
    application := ApplicationFor(hash, profile, minimumBinSamples, proposal);
    if application.Ok? && application.value.id in ids {
      application := Err(InvalidArgument);
    }
  }

  lemma {:induction false} EffectiveNext(proposals: seq<Proposal>, index: nat, done: seq<Application>,
                                         application: Application)
    requires index < |proposals| && |done| == index
    ensures EffectiveProposals(proposals[..index + 1], done + [application])
         == EffectiveProposals(proposals[..index], done) + [proposals[index].(metadata := application.effective)]
  {
  }

  /** The adjusting loop, with the set of identities it has handed out. */
  method AdjustLoop(hash: Hash, profile: CalibrationProfile, minimumBinSamples: nat, proposals: seq<Proposal>,
                    cancelled: nat -> bool)
    returns (applications: Result<seq<Application>>, effective: seq<Proposal>)
    ensures applications == ApplyAll(hash, profile, minimumBinSamples, proposals, cancelled)
    ensures applications.Ok? ==>
              |applications.value| == |proposals| && effective == EffectiveProposals(proposals, applications.value)
  {
    effective := [];
    var done: seq<Application> := [];
    var ids: set<string> := {};
    for index := 0 to |proposals|
      invariant ApplyAll(hash, profile, minimumBinSamples, proposals[..index], cancelled) == Ok(done)
      invariant |done| == index && effective == EffectiveProposals(proposals[..index], done)
      invariant forall id :: id in ids <==> HasId(done, id)
    {
      ApplyNext(hash, profile, minimumBinSamples, proposals, cancelled, index, done);
      var application := ApplyOne(hash, profile, minimumBinSamples, index % 64 == 0
                                  && cancelled(index), proposals[index], done, ids);
      if application.Err? {
        return Err(application.code), effective;
      }
      OneMoreId(done, application.value);
      EffectiveNext(proposals, index, done, application.value);
      ids := ids + {application.value.id};
      effective := effective + [proposals[index].(metadata := application.value.effective)];
      done := done + [application.value];
    }
    assert proposals[..|proposals|] == proposals;
    applications := Ok(done);
  }

  lemma {:induction false} OneMoreId(applications: seq<Application>, application: Application)
    ensures forall id :: HasId(applications + [application], id) <==> HasId(applications, id) || id == application.id
  {
    var more := applications + [application];
    forall id: string ensures HasId(more, id) <==> HasId(applications, id) || id == application.id {
      if HasId(applications, id) {
        var i :| 0 <= i < |applications| && applications[i].id == id;
        assert more[i].id == id;
      }
      if id == application.id {
        assert more[|applications|].id == id;
      }
    }
  }

  method CheckProposals(hash: Hash, bound: LowerBound, profile: CalibrationProfile, scopeId: string,
                        modelDigest: string, proposals: seq<Proposal>, options: GateOptions, cancelled: nat -> bool)
                          returns (adjusted: Result<Adjusted>)
    ensures adjusted == Adjust(hash, bound, profile, scopeId, modelDigest, proposals, options, cancelled)
  {
    var refusal := BatchRefusal(hash, bound, profile, scopeId, modelDigest, proposals, options);
    if refusal.Some? {
      return Err(refusal.value);
    }
    var applications, effective := AdjustLoop(hash, profile, options.minimumBinSamples, proposals, cancelled);
    if applications.Err? {
      return Err(applications.code);
    }
    adjusted := Ok(Adjusted(profile.id, "", applications.value, effective));
  }

  // ----- what an accepted batch is known to be

  /** The applications of a batch are those of all but its last proposal, and the last one's. */
  lemma {:induction false} AppliedLast(hash: Hash, profile: CalibrationProfile, minimumBinSamples: nat,
                                       proposals: seq<Proposal>, cancelled: nat -> bool)
    requires proposals != [] && ApplyAll(hash, profile, minimumBinSamples, proposals, cancelled).Ok?
    ensures var index := |proposals| - 1;
            var before := ApplyAll(hash, profile, minimumBinSamples, proposals[..index], cancelled);
            var last := ApplicationFor(hash, profile, minimumBinSamples, proposals[index]);
            && before.Ok? && |before.value| == index && last.Ok?
            && ApplyAll(hash, profile, minimumBinSamples, proposals, cancelled).value == before.value + [last.value]
  {
    AppliedCount(hash, profile, minimumBinSamples, proposals[..|proposals| - 1], cancelled);
  }

  lemma {:induction false} AppliedEach(hash: Hash, profile: CalibrationProfile, minimumBinSamples: nat,
                                       proposals: seq<Proposal>, cancelled: nat -> bool, i: nat)
    requires ApplyAll(hash, profile, minimumBinSamples, proposals, cancelled).Ok? && i < |proposals|
    ensures var applications := ApplyAll(hash, profile, minimumBinSamples, proposals, cancelled).value;
            |applications| == |proposals|
                && ApplicationFor(hash, profile, minimumBinSamples, proposals[i]) == Ok(applications[i])
  {
    var index := |proposals| - 1;
    AppliedLast(hash, profile, minimumBinSamples, proposals, cancelled);
    if i < index {
      AppliedEach(hash, profile, minimumBinSamples, proposals[..index], cancelled, i);
    }
  }

  predicate DistinctIds(applications: seq<Application>) {
    forall i, j :: 0 <= i < j < |applications| ==> applications[i].id != applications[j].id
  }

  /** No cancellation, an application for every proposal, all with distinct identities. */
  ghost predicate Accepts(hash: Hash, profile: CalibrationProfile, minimumBinSamples: nat, proposals: seq<Proposal>,
                          cancelled: nat -> bool, applications: seq<Application>) {
    && |applications| == |proposals| && DistinctIds(applications)
    && (forall i :: 0 <= i < |proposals| ==> !CancelledAt(cancelled, i))
    && Applies(hash, profile, minimumBinSamples, proposals, applications)
  }

  /** Each proposal has the application at its place. */
  ghost predicate Applies(hash: Hash, profile: CalibrationProfile, minimumBinSamples: nat, proposals: seq<Proposal>,
                          applications: seq<Application>)
    requires |applications| == |proposals|
  {
    forall i :: 0 <= i < |proposals| ==>
      ApplicationFor(hash, profile, minimumBinSamples, proposals[i]) == Ok(applications[i])
  }

  lemma {:induction false} AppliesStep(hash: Hash, profile: CalibrationProfile, minimumBinSamples: nat,
                                       proposals: seq<Proposal>, applications: seq<Application>)
    requires |applications| == |proposals| > 0
    ensures var index := |proposals| - 1;
            Applies(hash, profile, minimumBinSamples, proposals, applications) <==>
              && Applies(hash, profile, minimumBinSamples, proposals[..index], applications[..index])
              && ApplicationFor(hash, profile, minimumBinSamples, proposals[index]) == Ok(applications[index])
  {
    var index := |proposals| - 1;
    if && Applies(hash, profile, minimumBinSamples, proposals[..index], applications[..index])
       && ApplicationFor(hash, profile, minimumBinSamples, proposals[index]) == Ok(applications[index]) {
      forall i | 0 <= i < |proposals|
        ensures ApplicationFor(hash, profile, minimumBinSamples, proposals[i]) == Ok(applications[i])
      {
        if i < index {
          assert proposals[..index][i] == proposals[i] && applications[..index][i] == applications[i];
        }
      }
    }
  }

  lemma {:induction false} AcceptsStep(hash: Hash, profile: CalibrationProfile, minimumBinSamples: nat,
                                       proposals: seq<Proposal>, cancelled: nat -> bool, applications: seq<Application>)
    requires |applications| == |proposals| > 0
    ensures var index := |proposals| - 1;
            Accepts(hash, profile, minimumBinSamples, proposals, cancelled, applications) <==>
              && Accepts(hash, profile, minimumBinSamples, proposals[..index], cancelled, applications[..index])
              && !CancelledAt(cancelled, index)
              && ApplicationFor(hash, profile, minimumBinSamples, proposals[index]) == Ok(applications[index])
              && !HasId(applications[..index], applications[index].id)
  {
    var index := |proposals| - 1;
    var before := applications[..index];
    assert applications == before + [applications[index]];
    DistinctExtends(before, applications[index]);
    AppliesStep(hash, profile, minimumBinSamples, proposals, applications);
    assert (forall i :: 0 <= i < |proposals| ==> !CancelledAt(cancelled, i)) <==>
             (forall i :: 0 <= i < index ==> !CancelledAt(cancelled, i)) && !CancelledAt(cancelled, index);
  }

  /** A batch is accepted with exactly these applications. */
  lemma {:induction false} AppliedIff(hash: Hash, profile: CalibrationProfile, minimumBinSamples: nat,
                                      proposals: seq<Proposal>, cancelled: nat -> bool, applications: seq<Application>)
    ensures ApplyAll(hash, profile, minimumBinSamples, proposals, cancelled) == Ok(applications) <==>
            Accepts(hash, profile, minimumBinSamples, proposals, cancelled, applications)
  {
    if |applications| != |proposals| {
      if ApplyAll(hash, profile, minimumBinSamples, proposals, cancelled).Ok? {
        AppliedCount(hash, profile, minimumBinSamples, proposals, cancelled);
      }
    } else if proposals != [] {
      var index := |proposals| - 1;
      AppliedIff(hash, profile, minimumBinSamples, proposals[..index], cancelled, applications[..index]);
      AcceptsStep(hash, profile, minimumBinSamples, proposals, cancelled, applications);
      AppliedStep(hash, profile, minimumBinSamples, proposals, cancelled, applications);
    }
  }

  lemma {:induction false} AppliedStep(hash: Hash, profile: CalibrationProfile, minimumBinSamples: nat,
                                       proposals: seq<Proposal>, cancelled: nat -> bool, applications: seq<Application>)
    requires |applications| == |proposals| > 0
    ensures var index := |proposals| - 1;
            ApplyAll(hash, profile, minimumBinSamples, proposals, cancelled) == Ok(applications) <==>
              && ApplyAll(hash, profile, minimumBinSamples, proposals[..index], cancelled) == Ok(applications[..index])
              && !CancelledAt(cancelled, index)
              && ApplicationFor(hash, profile, minimumBinSamples, proposals[index]) == Ok(applications[index])
              && !HasId(applications[..index], applications[index].id)
  {
    var index := |proposals| - 1;
    assert applications == applications[..index] + [applications[index]];
    var before := ApplyAll(hash, profile, minimumBinSamples, proposals[..index], cancelled);
    if before.Ok? {
      AppliedCount(hash, profile, minimumBinSamples, proposals[..index], cancelled);
      var now := ApplicationFor(hash, profile, minimumBinSamples, proposals[index]);
      if now.Ok? {
        assert (before.value + [now.value])[..index] == before.value;
      }
    }
  }

  lemma {:induction false} DistinctExtends(applications: seq<Application>, last: Application)
    ensures DistinctIds(applications + [last]) <==> DistinctIds(applications) && !HasId(applications, last.id)
  {
    var more := applications + [last];
    if DistinctIds(more) {
      forall i, j | 0 <= i < j < |applications| ensures applications[i].id != applications[j].id {
        assert more[i].id != more[j].id;
      }
      forall i | 0 <= i < |applications| ensures applications[i].id != last.id {
        assert more[i].id != more[|applications|].id;
      }
    }
  }

  /** Every accepted proposal keeps its action and its claims except for the
      confidence, which is lowered to at most the reported one and at most the
      success rate observed in the one bin of the profile that holds it. */
  lemma {:induction false} EffectiveConfidenceIsConservative(hash: Hash, sqrt: real -> real,
                                                             profile: CalibrationProfile, scopeId: string,
                                                             modelDigest: string, proposals: seq<Proposal>,
                                                             options: GateOptions, cancelled: nat -> bool,
                                                             adjusted: Adjusted, i: nat)
    requires IsSqrt(sqrt) && IsCreated(hash, WilsonBound(sqrt), profile)
    requires Adjust(hash, WilsonBound(sqrt), profile, scopeId, modelDigest, proposals, options, cancelled)
             == Ok(adjusted)
    requires i < |proposals|
    ensures |adjusted.effective| == |adjusted.applications| == |proposals| && DistinctIds(adjusted.applications)
    ensures var raw, effective, application := proposals[i].metadata, adjusted.effective[i], adjusted.applications[i];
            && effective == proposals[i].(metadata := raw.(confidence := effective.metadata.confidence))
            && application.raw == raw && application.effective == effective.metadata
            && application.binIndex < |profile.bins|
            && Matches(InputOf(profile).bins, application.binIndex, raw.confidence)
            && application.binSamples == profile.bins[application.binIndex].source.samples >= options.minimumBinSamples
            && 0.0 <= effective.metadata.confidence <= raw.confidence <= 1.0
            && effective.metadata.confidence <= ObservedRate(profile.bins[application.binIndex].source)
  {
    AppliedIff(hash, profile, options.minimumBinSamples, proposals, cancelled, adjusted.applications);
    AppliedEach(hash, profile, options.minimumBinSamples, proposals, cancelled, i);
    ScoreIsConservative(sqrt, WILSON_Z95);
    LookupIsConservative(hash, WilsonBound(sqrt), profile, adjusted.applications[i].binIndex,
                         proposals[i].metadata.confidence);
  }

  /** A proposal has an application exactly when it is in scope with a confidence
      in [0, 1] whose bin has enough samples: on a valid profile the lookup
      itself never fails. */
  lemma {:induction false} ScopedProposalApplies(hash: Hash, bound: LowerBound, profile: CalibrationProfile,
                                                 minimumBinSamples: nat, proposal: Proposal)
    requires IsSha256(hash) && ValidProfile(hash, bound, profile)
    ensures ApplicationFor(hash, profile, minimumBinSamples, proposal).Ok? <==>
              && proposal.metadata.policyId == profile.scope.policyId
              && proposal.metadata.taskId == profile.scope.taskId
              && 0.0 <= proposal.metadata.confidence <= 1.0
              && forall k ::
                   0 <= k < |profile.bins| && Matches(InputOf(profile).bins, k, proposal.metadata.confidence) ==>
                     profile.bins[k].source.samples >= minimumBinSamples
    ensures ApplicationFor(hash, profile, minimumBinSamples, proposal) != Err(InternalError)
  {
    ValidIsPartition(hash, bound, profile);
    assert ValidSha256(hash(ProfileTree(InputOf(profile))));
    var confidence := proposal.metadata.confidence;
    if 0.0 <= confidence <= 1.0 {
      var index := LookupIsTotal(hash, bound, profile, confidence);
    }
  }
}
