/** The stored form of a calibration profile at the level of JSON trees. Loading
    derives every statistic again and only compares it with the stored one. */
module ProfileCodec {
  import opened Support
  import opened Decimal
  import opened JsonFields
  import opened Wilson
  import opened Profile

  const PROFILE_FORMAT: string := "rbfsafe-policy-calibration-profile"
  const MAXIMUM_LABEL: nat := 128
  const MAXIMUM_DIGEST: nat := 64
  const MAXIMUM_DECIMAL: nat := 32

  // ----- encoding

  function StoredBinJson(bin: Bin): Json {
    JObject(map[
      Key.AbsoluteCalibrationError := JNumber(bin.absoluteError),
      Key.LowerConfidence := JNumber(bin.source.lower),
      Key.LowerConfidenceBound95 := JNumber(bin.lowerConfidenceBound),
      Key.MeanConfidence := JNumber(bin.source.mean),
      Key.ObservedSuccessRate := JNumber(bin.observedSuccessRate),
      Key.Samples := JString(Print(bin.source.samples)),
      Key.Successes := JString(Print(bin.source.successes)),
      Key.UpperConfidence := JNumber(bin.source.upper)])
  }

  function ProfileJson(profile: CalibrationProfile, version: string): Json {
    JObject(map[
      Key.ActionUncertaintyUnit := JString(profile.scope.actionUncertaintyUnit),
      Key.Bins := JArray(EncodeAll(profile.bins, StoredBinJson)),
      Key.DatasetDigest := JString(profile.scope.datasetDigest),
      Key.ExpectedCalibrationError := JNumber(profile.expectedError),
      Key.Format := JString(PROFILE_FORMAT),
      Key.Id := JString(profile.id),
      Key.LibraryVersion := JString(version),
      Key.MaximumCalibrationError := JNumber(profile.maximumError),
      Key.Method := JString(profile.scope.methodName),
      Key.MethodVersion := JString(profile.scope.methodVersion),
      Key.OutcomeDefinition := JString(profile.scope.outcomeDefinition),
      Key.PolicyId := JString(profile.scope.policyId),
      Key.PolicyModelDigest := JString(profile.scope.policyModelDigest),
      Key.SampleCount := JString(Print(profile.sampleCount)),
      Key.Schema := JNumber(1.0),
      Key.ScopeId := JString(profile.scope.scopeId),
      Key.StateUncertaintyUnit := JString(profile.scope.stateUncertaintyUnit),
      Key.TaskId := JString(profile.scope.taskId)])
  }

  // ----- decoding

  function TextIn(field: Option<Json>, maximum: nat): Result<string> {
    if field.Some? && field.value.JString? && ValidText(field.value.s, maximum) then Ok(field.value.s)
    else Err(CorruptData)
  }

  function CountIn(field: Option<Json>): Result<U64> {
    var text :- TextIn(field, MAXIMUM_DECIMAL);
    match Parse(text)
    case None => Err(CorruptData)
    case Some(value) => Ok(value)
  }

  datatype ProfileHeading = ProfileHeading(format: string, schema: real, id: string, sampleCount: U64,
                                           expectedError: real, maximumError: real)

  function DecodeProfileHeading(document: Json): Result<ProfileHeading> {
    var format :- TextIn(Field(document, Key.Format), MAXIMUM_LABEL);
    var schema :- NumberIn(Field(document, Key.Schema));
    var version :- TextIn(Field(document, Key.LibraryVersion), MAXIMUM_LABEL);
    var id :- TextIn(Field(document, Key.Id), MAXIMUM_DIGEST);
    var sampleCount :- CountIn(Field(document, Key.SampleCount));
    var expectedError :- NumberIn(Field(document, Key.ExpectedCalibrationError));
    var maximumError :- NumberIn(Field(document, Key.MaximumCalibrationError));
    Ok(ProfileHeading(format, schema, id, sampleCount, expectedError, maximumError))
  }

  function DecodeScope(document: Json): Result<Scope> {
    var policyId :- TextIn(Field(document, Key.PolicyId), MAXIMUM_TEXT);
    var policyModelDigest :- TextIn(Field(document, Key.PolicyModelDigest), MAXIMUM_DIGEST);
    var scopeId :- TextIn(Field(document, Key.ScopeId), MAXIMUM_TEXT);
    var taskId :- TextIn(Field(document, Key.TaskId), MAXIMUM_TEXT);
    var datasetDigest :- TextIn(Field(document, Key.DatasetDigest), MAXIMUM_DIGEST);
    var methodName :- TextIn(Field(document, Key.Method), MAXIMUM_TEXT);
    var methodVersion :- TextIn(Field(document, Key.MethodVersion), MAXIMUM_TEXT);
    var outcome :- TextIn(Field(document, Key.OutcomeDefinition), MAXIMUM_OUTCOME);
    var stateUnit :- TextIn(Field(document, Key.StateUncertaintyUnit), MAXIMUM_TEXT);
    var actionUnit :- TextIn(Field(document, Key.ActionUncertaintyUnit), MAXIMUM_TEXT);
    Ok(Scope(policyId, policyModelDigest, scopeId, taskId, datasetDigest, methodName, methodVersion, outcome, stateUnit,
             actionUnit))
  }

  function DecodeStoredBin(item: Json): Result<Bin> {
    var lower :- NumberIn(Field(item, Key.LowerConfidence));
    var upper :- NumberIn(Field(item, Key.UpperConfidence));
    var mean :- NumberIn(Field(item, Key.MeanConfidence));
    var samples :- CountIn(Field(item, Key.Samples));
    var successes :- CountIn(Field(item, Key.Successes));
    var observed :- NumberIn(Field(item, Key.ObservedSuccessRate));
    var lowerBound :- NumberIn(Field(item, Key.LowerConfidenceBound95));
    var error :- NumberIn(Field(item, Key.AbsoluteCalibrationError));
    Ok(Bin(BinInput(lower, upper, mean, samples, successes), observed, lowerBound, error))
  }

  function Sources(bins: seq<Bin>): (sources: seq<BinInput>)
    ensures |sources| == |bins| && forall i :: 0 <= i < |bins| ==> sources[i] == bins[i].source
  {
    seq(|bins|, i requires 0 <= i < |bins| => bins[i].source)
  }

  /** The stored statistics agree with the derived ones. */
  predicate Consistent(derived: CalibrationProfile, heading: ProfileHeading, bins: seq<Bin>) {
    && derived.id == heading.id && derived.sampleCount == heading.sampleCount
    && ApproximatelyEqual(derived.expectedError, heading.expectedError)
    && ApproximatelyEqual(derived.maximumError, heading.maximumError)
    && |derived.bins| == |bins| && forall i :: 0 <= i < |bins| ==> SameDerived(derived.bins[i], bins[i])
  }

  /** Creation from the stored counts; what it refuses is corrupt. */
  function Rederive(hash: Hash, bound: LowerBound, heading: ProfileHeading, scope: Scope,
                    bins: seq<Bin>): Result<CalibrationProfile> {
    match CreateProfile(hash, bound, ProfileInput(scope, Sources(bins)))
    case Err(_) => Err(CorruptData)
    case Ok(derived) => if Consistent(derived, heading, bins) then Ok(derived) else Err(CorruptData)
  }

  function LoadedProfile(hash: Hash, bound: LowerBound, document: Json, maximumBins: nat): Result<CalibrationProfile> {
    if maximumBins == 0 || maximumBins > MAXIMUM_BINS then Err(InvalidArgument)
    else
      var heading :- DecodeProfileHeading(document);
      if heading.format != PROFILE_FORMAT || heading.schema != 1.0 then Err(IncompatibleFormat)
      else
        var scope :- DecodeScope(document);
        var items :- ArrayIn(Field(document, Key.Bins));
        if items == [] || |items| > maximumBins then Err(ResourceLimit)
        else
          var bins :- DecodeAll(items, DecodeStoredBin);
          Rederive(hash, bound, heading, scope, bins)
  }

  /** Compares the identity, the totals and, bin by bin, the stored statistics. */
  method CompareStored(derived: CalibrationProfile, heading: ProfileHeading, bins: seq<Bin>) returns (consistent: bool)
    requires |derived.bins| == |bins|
    ensures consistent <==> Consistent(derived, heading, bins)
  {
    if || derived.id != heading.id || derived.sampleCount != heading.sampleCount
       || !ApproximatelyEqual(derived.expectedError, heading.expectedError)
       || !ApproximatelyEqual(derived.maximumError, heading.maximumError) {
      return false;
    }
    for index := 0 to |bins|
      invariant forall i :: 0 <= i < index ==> SameDerived(derived.bins[i], bins[i])
    {
      if !SameDerived(derived.bins[index], bins[index]) {
        return false;
      }
    }
    consistent := true;
  }

  method LoadProfile(hash: Hash, bound: LowerBound, document: Json, maximumBins: nat)
    returns (profile: Result<CalibrationProfile>)
    ensures profile == LoadedProfile(hash, bound, document, maximumBins)
  {
    if maximumBins == 0 || maximumBins > MAXIMUM_BINS {
      return Err(InvalidArgument);
    }
    var heading := DecodeProfileHeading(document);
    if heading.Err? {
      return Err(heading.code);
    }
    if heading.value.format != PROFILE_FORMAT || heading.value.schema != 1.0 {
      return Err(IncompatibleFormat);
    }
    var scope, items := DecodeScope(document), ArrayIn(Field(document, Key.Bins));
    if scope.Err? || items.Err? {
      return Err(if scope.Err? then scope.code else items.code);
    }
    if items.value == [] || |items.value| > maximumBins {
      return Err(ResourceLimit);
    }
    var bins := DecodeItems(items.value, DecodeStoredBin);
    if bins.Err? {
      return Err(bins.code);
    }
    var derived := Create(hash, bound, ProfileInput(scope.value, Sources(bins.value)));
    if derived.Err? {
      return Err(CorruptData);
    }
    var consistent := CompareStored(derived.value, heading.value, bins.value);
    profile := if consistent then derived else Err(CorruptData);
  }

  // ----- what loading guarantees

  /** Whatever loads is a profile that `create` makes, whatever its stored statistics said. */
  lemma {:induction false} LoadedIsCreated(hash: Hash, bound: LowerBound, document: Json, maximumBins: nat,
                                           profile: CalibrationProfile)
    requires LoadedProfile(hash, bound, document, maximumBins) == Ok(profile)
    ensures IsCreated(hash, bound, profile) && ValidProfile(hash, bound, profile) && |profile.bins| <= maximumBins
  {
    var items := ArrayIn(Field(document, Key.Bins)).value;
    DecodedCount(items, DecodeStoredBin);
    CreatedIsValid(hash, bound, ProfileInput(DecodeScope(document).value,
                                             Sources(DecodeAll(items, DecodeStoredBin).value)));
  }

  lemma {:induction false} DigestIsText(digest: string)
    requires ValidSha256(digest)
    ensures ValidText(digest, MAXIMUM_DIGEST)
  {
  }

  lemma {:induction false} ReadCount(n: U64)
    ensures CountIn(Some(JString(Print(n)))) == Ok(n)
  {
    ParsePrint(n);
    CounterLength(n);
    forall i | 0 <= i < |Print(n)| ensures ' ' <= Print(n)[i] && Print(n)[i] != '\U{7F}' {
      assert IsDigit(Print(n)[i]);
    }
  }

  lemma {:induction false} StoredBinRoundTrip(bin: Bin)
    ensures DecodeStoredBin(StoredBinJson(bin)) == Ok(bin)
  {
    ReadCount(bin.source.samples);
    ReadCount(bin.source.successes);
  }

  lemma {:induction false} StoredBinsRoundTrip(bins: seq<Bin>)
    ensures DecodeAll(EncodeAll(bins, StoredBinJson), DecodeStoredBin) == Ok(bins)
  {
    forall i | 0 <= i < |bins| ensures DecodeStoredBin(StoredBinJson(bins[i])) == Ok(bins[i]) {
      StoredBinRoundTrip(bins[i]);
    }
    ReadAll(bins, StoredBinJson, DecodeStoredBin);
  }

  lemma {:induction false} ScopeNames(profile: CalibrationProfile, version: string)
    ensures var document := ProfileJson(profile, version);
            && Field(document, Key.PolicyId) == Some(JString(profile.scope.policyId))
            && Field(document, Key.PolicyModelDigest) == Some(JString(profile.scope.policyModelDigest))
            && Field(document, Key.ScopeId) == Some(JString(profile.scope.scopeId))
            && Field(document, Key.TaskId) == Some(JString(profile.scope.taskId))
            && Field(document, Key.DatasetDigest) == Some(JString(profile.scope.datasetDigest))
  {
  }

  lemma {:induction false} ScopeTerms(profile: CalibrationProfile, version: string)
    ensures var document := ProfileJson(profile, version);
            && Field(document, Key.Method) == Some(JString(profile.scope.methodName))
            && Field(document, Key.MethodVersion) == Some(JString(profile.scope.methodVersion))
            && Field(document, Key.OutcomeDefinition) == Some(JString(profile.scope.outcomeDefinition))
            && Field(document, Key.StateUncertaintyUnit) == Some(JString(profile.scope.stateUncertaintyUnit))
            && Field(document, Key.ActionUncertaintyUnit) == Some(JString(profile.scope.actionUncertaintyUnit))
  {
  }

  lemma {:induction false} ScopeRoundTrip(profile: CalibrationProfile, version: string)
    requires ValidScope(profile.scope)
    ensures DecodeScope(ProfileJson(profile, version)) == Ok(profile.scope)
  {
    ScopeNames(profile, version);
    ScopeTerms(profile, version);
    DigestIsText(profile.scope.policyModelDigest);
    DigestIsText(profile.scope.datasetDigest);
  }

  function HeadingOf(profile: CalibrationProfile): ProfileHeading
    requires profile.sampleCount < TWO_TO_THE_64
  {
    ProfileHeading(PROFILE_FORMAT, 1.0, profile.id, profile.sampleCount, profile.expectedError, profile.maximumError)
  }

  lemma {:induction false} HeadingTexts(profile: CalibrationProfile, version: string)
    ensures var document := ProfileJson(profile, version);
            && Field(document, Key.Format) == Some(JString(PROFILE_FORMAT))
            && Field(document, Key.LibraryVersion) == Some(JString(version))
            && Field(document, Key.Id) == Some(JString(profile.id))
            && Field(document, Key.SampleCount) == Some(JString(Print(profile.sampleCount)))
  {
  }

  lemma {:induction false} HeadingNumbers(profile: CalibrationProfile, version: string)
    ensures var document := ProfileJson(profile, version);
            && Field(document, Key.Schema) == Some(JNumber(1.0))
            && Field(document, Key.ExpectedCalibrationError) == Some(JNumber(profile.expectedError))
            && Field(document, Key.MaximumCalibrationError) == Some(JNumber(profile.maximumError))
  {
  }

  lemma {:induction false} HeadingRoundTrip(profile: CalibrationProfile, version: string)
    requires profile.sampleCount < TWO_TO_THE_64 && ValidText(version, MAXIMUM_LABEL) && ValidSha256(profile.id)
    ensures DecodeProfileHeading(ProfileJson(profile, version)) == Ok(HeadingOf(profile))
  {
    HeadingTexts(profile, version);
    HeadingNumbers(profile, version);
    DigestIsText(profile.id);
    ReadCount(profile.sampleCount);
    FormatIsText();
  }

  lemma {:induction false} FormatIsText()
    ensures ValidText(PROFILE_FORMAT, MAXIMUM_LABEL)
  {
    assert |PROFILE_FORMAT| == 34;
  }

  lemma {:induction false} BinsField(profile: CalibrationProfile, version: string)
    ensures Field(ProfileJson(profile, version), Key.Bins) == Some(JArray(EncodeAll(profile.bins, StoredBinJson)))
  {
  }

  lemma {:induction false} LoadDecodes(hash: Hash, bound: LowerBound, document: Json, maximumBins: nat,
                                       heading: ProfileHeading, scope: Scope, items: seq<Json>, bins: seq<Bin>)
    requires DecodeProfileHeading(document) == Ok(heading) && DecodeScope(document) == Ok(scope)
             && Field(document, Key.Bins) == Some(JArray(items))
    requires heading.format == PROFILE_FORMAT && heading.schema == 1.0 && 0 < |items| <= maximumBins <= MAXIMUM_BINS
    requires DecodeAll(items, DecodeStoredBin) == Ok(bins)
    ensures LoadedProfile(hash, bound, document, maximumBins) == Rederive(hash, bound, heading, scope, bins)
  {
  }

  lemma {:induction false} ValidRederives(hash: Hash, bound: LowerBound, profile: CalibrationProfile)
    requires ValidProfile(hash, bound, profile) && profile.sampleCount < TWO_TO_THE_64
    ensures Rederive(hash, bound, HeadingOf(profile), profile.scope, profile.bins)
            == CreateProfile(hash, bound, InputOf(profile))
  {
    assert Sources(profile.bins) == InputOf(profile).bins;
  }

  /** Loading a stored valid profile gives the profile derived from its counts:
      the same one exactly when its statistics were the derived ones. */
  lemma {:induction false} LoadRederives(hash: Hash, bound: LowerBound, profile: CalibrationProfile, version: string,
                                         maximumBins: nat)
    requires IsSha256(hash) && ValidProfile(hash, bound, profile) && ValidText(version, MAXIMUM_LABEL)
    requires |profile.bins| <= maximumBins <= MAXIMUM_BINS
    ensures LoadedProfile(hash, bound, ProfileJson(profile, version), maximumBins)
            == CreateProfile(hash, bound, InputOf(profile))
    ensures LoadedProfile(hash, bound, ProfileJson(profile, version), maximumBins) == Ok(profile) <==>
              IsCreated(hash, bound, profile)
  {
    ValidIsPartition(hash, bound, profile);
    AcceptedIsPartition(InputOf(profile));
    assert ValidSha256(hash(ProfileTree(InputOf(profile))));
    HeadingRoundTrip(profile, version);
    ScopeRoundTrip(profile, version);
    BinsField(profile, version);
    StoredBinsRoundTrip(profile.bins);
    LoadDecodes(hash, bound, ProfileJson(profile, version), maximumBins, HeadingOf(profile), profile.scope,
                EncodeAll(profile.bins, StoredBinJson), profile.bins);
    ValidRederives(hash, bound, profile);
  }
}
