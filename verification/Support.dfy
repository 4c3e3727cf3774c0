/** Vocabulary shared by every component: status codes and results, 64-bit
    counters, JSON trees (the preimages of every identity digest), and the text
    predicates used to admit identifiers and digests. */
module Support {

  const TWO_TO_THE_64: nat := 0x1_0000_0000_0000_0000

  type U64 = x: nat | x < TWO_TO_THE_64

  datatype StatusCode =
    | InvalidArgument
    | DimensionMismatch
    | ResourceLimit
    | IdentityMismatch
    | IncompatibleFormat
    | CorruptData
    | Cancelled
    | InternalError

  datatype Option<+T> = None | Some(value: T)

  /** A value or the status code of the failure; usable with `:-`. */
  datatype Result<+T> = Ok(value: T) | Err(code: StatusCode) {
    predicate IsFailure() {
      Err?
    }

    function PropagateFailure<U>(): Result<U>
      requires Err?
    {
      Err(code)
    }

    function Extract(): T
      requires Ok?
    {
      value
    }
  }

  /** The member names of the JSON objects, one constructor a name. */
  datatype Key =
    | AbsoluteCalibrationError | ActionDigest | ActionUncertainty | ActionUncertaintyUnit | Algorithm
    | AlgorithmVersion | BaselineFraction | BaselineSuccessRate | BinIndex | Bins | BinSamples | Bounds
    | CalibratedConfidence | ClearanceLowerBound | Confidence | ConservativeConfidence | CurrentEventId
    | CurrentState | DatasetDigest | Detail | EffectiveMetadata | EpisodeId | Events | ExpectedCalibrationError
    | Format | Generation | Id | InferenceLatencySeconds | LatestReportId | Level | LibraryVersion
    | LowerConfidence | LowerConfidenceBound95 | MaximumBinSuccessRateDrop | MaximumCalibrationError
    | MaximumExpectedCalibrationError | MaximumOverallSuccessRateDrop | MaximumTotalVariationDistance
    | MeanConfidence | Method | MethodVersion | MinimumBinSamples | MinimumTotalSamples
    | ObservationAgeSeconds | ObservedFraction | ObservedSuccessRate | ObstaclePadding | Options
    | OutcomeDefinition | OutcomeRateAvailable | OverallSuccessRateDrop | ParentCertificateId | ParentId
    | PolicyId | PolicyModelDigest | PreviousState | ProfileId | RawMetadata | Reasons | RegionBounds
    | RegionCertificates | RegionSequence | ReportId | Reports | RobotDigest | SampleCount | Samples
    | SceneDigest | Schema | ScopeId | Sequence | SourceDigest | State | StateUncertainty
    | StateUncertaintyUnit | Status | SubjectDigest | Successes | SuccessRateDrop | TaskId
    | TotalVariationDistance | TransitionDigest | Type | UpperConfidence | Waypoints | WindowId | WindowSequence

  /** JSON trees. Identities are digests of such trees, never of their text. */
  datatype Json =
    | JNull
    | JBool(b: bool)
    | JNumber(x: real)
    | JString(s: string)
    | JArray(items: seq<Json>)
    | JObject(fields: map<Key, Json>)

  /** A digest function. Nothing is assumed about it except where a lemma says so. */
  type Hash = Json -> string

  /** Every digest is 64 lower-case hexadecimal characters. */
  ghost predicate IsSha256(hash: Hash) {
    forall tree :: ValidSha256(hash(tree))
  }

  predicate IsHexDigit(c: char) {
    '0' <= c <= '9' || 'a' <= c <= 'f'
  }

  predicate ValidSha256(digest: string) {
    |digest| == 64 && forall i :: 0 <= i < |digest| ==> IsHexDigit(digest[i])
  }

  /** Non-empty, bounded, and free of control characters. */
  predicate ValidText(text: string, maximum: nat) {
    0 < |text| <= maximum && forall i :: 0 <= i < |text| ==> text[i] >= ' ' && text[i] != '\U{7F}'
  }

  function Min(a: real, b: real): real {
    if b < a then b else a
  }

  function Max(a: real, b: real): real {
    if a < b then b else a
  }

  function Abs(x: real): real {
    if x < 0.0 then -x else x
  }

  /** The 1e-12 relative comparison applied to stored derived statistics. */
  predicate ApproximatelyEqual(a: real, b: real) {
    Abs(a - b) <= 0.000000000001 * Max(1.0, Max(Abs(a), Abs(b)))
  }

  /** Within 1e-12, relative to the larger magnitude or to one. */
  predicate Near(a: real, b: real) {
    var scale := Max(1.0, Max(Abs(a), Abs(b)));
    a - b <= scale / 1000000000000.0 && b - a <= scale / 1000000000000.0
  }

  lemma {:induction false} ApproximatelyIsNear(a: real, b: real)
    ensures ApproximatelyEqual(a, b) <==> Near(a, b)
  {
  }
}
