/** What a lookup and an accepted batch mean: the Wilson bound reaches every
    proposal, each batch is for its own scope and model, and the identities of
    applications determine them. */
module GateMeaning {
  import opened Support
  import opened Decimal
  import opened Wilson
  import opened Profile
  import opened Gate

  // ----- lookup

  /** The lower of two numbers, said of the result. */
  ghost predicate IsLower(x: real, a: real, b: real) {
    x <= a && x <= b && (x == a || x == b)
  }

  /** A confidence found in a created profile is answered from the one bin whose
      interval holds it: its counts, its observed rate, and as conservative
      confidence the lower of the confidence and the Wilson bound of the counts,
      the smaller root of `n (p - L)^2 = z^2 L (1 - L)`. */
  lemma {:induction false} LookupMeans(hash: Hash, sqrt: real -> real, z: real, profile: CalibrationProfile,
                                       confidence: real, found: CalibrationLookup) returns (root: real)
    requires IsSqrt(sqrt) && z > 0.0 && IsCreated(hash, ScoreBound(sqrt, z), profile)
    requires LookupOf(profile, confidence) == Ok(found)
    ensures found.profileId == profile.id && found.rawConfidence == confidence && found.binIndex < |profile.bins|
    ensures var source := profile.bins[found.binIndex].source;
            && source.lower <= confidence
            && (confidence < source.upper || (found.binIndex + 1 == |profile.bins| && confidence == source.upper))
            && found.samples == source.samples > 0 && source.successes <= source.samples
            && found.calibratedConfidence == Rate(source.successes, source.samples)
            && IsSmallerRoot(Rate(source.successes, source.samples), source.samples as real, z * z, root)
            && IsLower(found.conservativeConfidence, confidence, root)
  {
    var input := InputOf(profile);
    AcceptedIsPartition(input);
    assert ValidBin(input.bins, found.binIndex);
    var source := input.bins[found.binIndex];
    assert profile.bins[found.binIndex] == Derive(ScoreBound(sqrt, z), source);
    root := BoundIsRoot(sqrt, z, source.successes, source.samples);
  }

  lemma {:induction false} BoundIsRoot(sqrt: real -> real, z: real, successes: nat, samples: nat)
    returns (root: real)
    requires IsSqrt(sqrt) && z > 0.0 && 0 < samples && successes <= samples
    ensures ScoreBound(sqrt, z)(successes, samples) == root
    ensures IsSmallerRoot(Rate(successes, samples), samples as real, z * z, root)
  {
    RateIsUnit(successes, samples);
    ClampIsIdle(sqrt, z, successes, samples);
    ScoreIsSmallerRoot(sqrt, Rate(successes, samples), samples as real, z);
    root := ScoreBound(sqrt, z)(successes, samples);
  }

  // ----- the batch

  lemma {:induction false} AppliedMeans(hash: Hash, profile: CalibrationProfile, minimumBinSamples: nat,
                                        proposal: Proposal, application: Application) returns (found: CalibrationLookup)
    requires ApplicationFor(hash, profile, minimumBinSamples, proposal) == Ok(application)
    ensures LookupOf(profile, proposal.metadata.confidence) == Ok(found) && found.samples >= minimumBinSamples
    ensures proposal.metadata.policyId == profile.scope.policyId && proposal.metadata.taskId == profile.scope.taskId
    ensures application.profileId == profile.id && application.raw == proposal.metadata
    ensures application.binIndex == found.binIndex && application.binSamples == found.samples
    ensures application.calibratedConfidence == found.calibratedConfidence
    ensures application.conservativeConfidence == application.effective.confidence == found.conservativeConfidence
    ensures application.effective == proposal.metadata.(confidence := application.effective.confidence)
    ensures application.id == hash(ApplicationTree(proposal.actionDigest, application))
  {
    found := LookupOf(profile, proposal.metadata.confidence).value;
    assert ApplicationTree(proposal.actionDigest, application)
        == ApplicationTree(proposal.actionDigest, application.(id := ""));
  }

  /** The confidence an accepted proposal is handed on with is the lower of its
      own and the Wilson bound of its bin, and its record says so. */
  lemma {:induction false} EffectiveConfidenceIsRoot(hash: Hash, sqrt: real -> real, z: real,
                                                     profile: CalibrationProfile, scopeId: string, modelDigest: string,
                                                     proposals: seq<Proposal>, options: GateOptions,
                                                     cancelled: nat -> bool, adjusted: Adjusted, i: nat)
    returns (root: real)
    requires IsSqrt(sqrt) && z > 0.0 && IsCreated(hash, ScoreBound(sqrt, z), profile)
    requires Adjust(hash, ScoreBound(sqrt, z), profile, scopeId, modelDigest, proposals, options, cancelled)
             == Ok(adjusted)
    requires i < |proposals|
    ensures |adjusted.effective| == |adjusted.applications| == |proposals| && adjusted.profileId == profile.id
    ensures var raw, effective, application := proposals[i].metadata, adjusted.effective[i], adjusted.applications[i];
            && effective.actionDigest == proposals[i].actionDigest
            && effective.metadata == application.effective == raw.(confidence := application.conservativeConfidence)
            && application.raw == raw && application.binIndex < |profile.bins|
            && raw.policyId == profile.scope.policyId && raw.taskId == profile.scope.taskId
            && var source := profile.bins[application.binIndex].source;
               && source.lower <= raw.confidence <= source.upper
               && application.binSamples == source.samples >= options.minimumBinSamples && source.samples > 0
               && application.calibratedConfidence == Rate(source.successes, source.samples)
               && IsSmallerRoot(Rate(source.successes, source.samples), source.samples as real, z * z, root)
               && IsLower(effective.metadata.confidence, raw.confidence, root)
  {
    AppliedEach(hash, profile, options.minimumBinSamples, proposals, cancelled, i);
    var found := AppliedMeans(hash, profile, options.minimumBinSamples, proposals[i], adjusted.applications[i]);
    root := LookupMeans(hash, sqrt, z, profile, proposals[i].metadata.confidence, found);
  }

  /** A batch passes admission exactly when the profile is valid, it is for the
      profile's own scope and model, the profile meets the quality asked for, and
      there are some proposals but not too many. A wrong scope or model is an
      identity mismatch. */
  lemma {:induction false} AdmittedIff(hash: Hash, bound: LowerBound, profile: CalibrationProfile, scopeId: string,
                                       modelDigest: string, proposals: seq<Proposal>, options: GateOptions)
    ensures var refusal := BatchRefusal(hash, bound, profile, scopeId, modelDigest, proposals, options);
            && (refusal.None? <==>
                  && ValidGateInput(hash, bound, profile, scopeId, modelDigest, options)
                  && scopeId == profile.scope.scopeId && modelDigest == profile.scope.policyModelDigest
                  && options.minimumTotalSamples <= profile.sampleCount
                  && profile.expectedError <= options.maximumExpectedError
                  && profile.maximumError <= options.maximumBinError
                  && 0 < |proposals| <= options.maximumProposals)
            && (refusal == Some(IdentityMismatch) <==>
                  && ValidGateInput(hash, bound, profile, scopeId, modelDigest, options)
                  && (scopeId != profile.scope.scopeId || modelDigest != profile.scope.policyModelDigest))
            && (refusal == Some(ResourceLimit) ==> |proposals| > options.maximumProposals)
  {
  }

  /** A batch is adjusted exactly when it is admitted, cancellation is not seen at
      any proposal at which it is asked for, every 64th one, and every proposal
      has an application, all with distinct identities. */
  lemma {:induction false} AdjustedIff(hash: Hash, bound: LowerBound, profile: CalibrationProfile, scopeId: string,
                                       modelDigest: string, proposals: seq<Proposal>, options: GateOptions,
                                       cancelled: nat -> bool)
    ensures Adjust(hash, bound, profile, scopeId, modelDigest, proposals, options, cancelled).Ok? <==>
              && BatchRefusal(hash, bound, profile, scopeId, modelDigest, proposals, options).None?
              && (forall i: nat :: i < |proposals| && i % 64 == 0 ==> !cancelled(i))
              && exists applications ::
                   Identified(hash, profile, options.minimumBinSamples, proposals, applications)
  {
    var all := ApplyAll(hash, profile, options.minimumBinSamples, proposals, cancelled);
    if all.Ok? {
      AppliedIff(hash, profile, options.minimumBinSamples, proposals, cancelled, all.value);
      assert Identified(hash, profile, options.minimumBinSamples, proposals, all.value);
      forall i: nat | i < |proposals| && i % 64 == 0 ensures !cancelled(i) {
        assert !CancelledAt(cancelled, i);
      }
    }
    if forall i: nat :: i < |proposals| && i % 64 == 0 ==> !cancelled(i) {
      forall applications | Identified(hash, profile, options.minimumBinSamples, proposals, applications)
        ensures all.Ok?
      {
        AppliedIff(hash, profile, options.minimumBinSamples, proposals, cancelled, applications);
      }
    }
  }

  /** One application for every proposal, under identities of their own. */
  ghost predicate Identified(hash: Hash, profile: CalibrationProfile, minimumBinSamples: nat, proposals: seq<Proposal>,
                             applications: seq<Application>) {
    && |applications| == |proposals|
    && (forall i, j :: 0 <= i < j < |applications| ==> applications[i].id != applications[j].id)
    && forall i :: 0 <= i < |proposals| ==>
       ApplicationFor(hash, profile, minimumBinSamples, proposals[i]) == Ok(applications[i])
  }

  // ----- identities

  lemma {:induction false} MetadataTreeDetermines(a: Metadata, b: Metadata)
    requires MetadataTree(a) == MetadataTree(b)
    ensures a == b
  {
    var x, y := MetadataTree(a).fields, MetadataTree(b).fields;
    MetadataNumbers(a, b);
    assert x[Key.EpisodeId] == y[Key.EpisodeId] && x[Key.PolicyId] == y[Key.PolicyId];
    assert x[Key.TaskId] == y[Key.TaskId] && x[Key.Sequence] == y[Key.Sequence];
    PrintIsInjective(a.sequence, b.sequence);
  }

  lemma {:induction false} MetadataNumbers(a: Metadata, b: Metadata)
    requires MetadataTree(a) == MetadataTree(b)
    ensures a.confidence == b.confidence && a.stateUncertainty == b.stateUncertainty
    ensures a.actionUncertainty == b.actionUncertainty && a.observationAgeSeconds == b.observationAgeSeconds
    ensures a.inferenceLatencySeconds == b.inferenceLatencySeconds
  {
    var x, y := MetadataTree(a).fields, MetadataTree(b).fields;
    assert x[Key.Confidence] == y[Key.Confidence] && x[Key.StateUncertainty] == y[Key.StateUncertainty];
    assert x[Key.ActionUncertainty] == y[Key.ActionUncertainty];
    assert x[Key.ObservationAgeSeconds] == y[Key.ObservationAgeSeconds];
    assert x[Key.InferenceLatencySeconds] == y[Key.InferenceLatencySeconds];
  }

  /** The identity tree of an application determines the action and everything in it but its id. */
  lemma {:induction false} ApplicationTreeDetermines(actionA: string, a: Application, actionB: string, b: Application)
    requires ApplicationTree(actionA, a) == ApplicationTree(actionB, b)
    ensures actionA == actionB && a.(id := "") == b.(id := "")
  {
    var x, y := ApplicationTree(actionA, a).fields, ApplicationTree(actionB, b).fields;
    assert x[Key.ActionDigest] == y[Key.ActionDigest] && x[Key.ProfileId] == y[Key.ProfileId];
    assert x[Key.BinIndex] == y[Key.BinIndex] && x[Key.BinSamples] == y[Key.BinSamples];
    assert x[Key.CalibratedConfidence] == y[Key.CalibratedConfidence];
    assert x[Key.ConservativeConfidence] == y[Key.ConservativeConfidence];
    assert x[Key.EffectiveMetadata] == y[Key.EffectiveMetadata] && x[Key.RawMetadata] == y[Key.RawMetadata];
    PrintIsInjective(a.binIndex, b.binIndex);
    PrintIsInjective(a.binSamples, b.binSamples);
    MetadataTreeDetermines(a.effective, b.effective);
    MetadataTreeDetermines(a.raw, b.raw);
  }
}
