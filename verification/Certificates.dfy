/** Evidence certificates: the identity tree each id is a digest of, the guarded
    constructors, and the chains made by scene transitions. */
module Certificates {
  import opened Support
  import opened Sequences
  import opened Boxes

  datatype EvidenceLevel = Unknown | PointChecked | CertifiedRegion | CertifiedConnectivity | RuntimeExecutable

  datatype ValidationPolicy = ValidationPolicy(algorithm: string, algorithmVersion: string, obstaclePadding: real)

  datatype Certificate = Certificate(
    id: string,
    level: EvidenceLevel,
    robotDigest: string,
    sceneDigest: string,
    policy: ValidationPolicy,
    clearance: real,
    subjectDigest: string,
    parentId: string,
    transitionDigest: string)

  datatype Disposition = Undetermined | CertifiedFree

  datatype WorkspaceAabb = WorkspaceAabb(x: Interval, y: Interval, z: Interval) {
    predicate Valid() {
      x.Valid() && y.Valid() && z.Valid()
    }
  }

  type Envelope = seq<WorkspaceAabb>

  datatype RegionValidation = RegionValidation(disposition: Disposition, clearance: real, envelope: Envelope)

  type Validator = Box -> Result<RegionValidation>

  /** The robot and scene identities a build is bound to, and its region validator. */
  datatype Workcell = Workcell(
    robotDigest: string,
    sceneDigest: string,
    domain: Box,
    linkCount: nat,
    algorithm: string,
    algorithmVersion: string,
    validate: Validator)

  function LevelName(level: EvidenceLevel): string {
    match level
    case Unknown => "unknown"
    case PointChecked => "point_checked"
    case CertifiedRegion => "certified_region"
    case CertifiedConnectivity => "certified_connectivity"
    case RuntimeExecutable => "runtime_executable"
  }

  lemma {:induction false} LevelNamesDiffer(a: EvidenceLevel, b: EvidenceLevel)
    requires LevelName(a) == LevelName(b)
    ensures a == b
  {
    assert |LevelName(a)| == |LevelName(b)|;
  }

  // ----- identity

  function IdentityTree(c: Certificate): Json {
    JObject(
      map[
        Key.Algorithm := JString(c.policy.algorithm),
        Key.AlgorithmVersion := JString(c.policy.algorithmVersion),
        Key.ClearanceLowerBound := JNumber(c.clearance),
        Key.Level := JString(LevelName(c.level)),
        Key.ObstaclePadding := JNumber(c.policy.obstaclePadding),
        Key.RobotDigest := JString(c.robotDigest),
        Key.SceneDigest := JString(c.sceneDigest)
      ]
      + (if c.subjectDigest == "" then map[] else map[Key.SubjectDigest := JString(c.subjectDigest)])
      + (if c.parentId == "" then map[] else
           map[Key.ParentCertificateId := JString(c.parentId), Key.TransitionDigest := JString(c.transitionDigest)]))
  }

  function Identity(hash: Hash, c: Certificate): string {
    hash(IdentityTree(c))
  }

  /** The two lineage fields are empty together. */
  predicate LineagePaired(c: Certificate) {
    c.parentId == "" ==> c.transitionDigest == ""
  }

  lemma {:induction false} MandatoryFields(c: Certificate)
    ensures IdentityTree(c).fields[Key.Algorithm] == JString(c.policy.algorithm)
    ensures IdentityTree(c).fields[Key.AlgorithmVersion] == JString(c.policy.algorithmVersion)
    ensures IdentityTree(c).fields[Key.ClearanceLowerBound] == JNumber(c.clearance)
    ensures IdentityTree(c).fields[Key.Level] == JString(LevelName(c.level))
    ensures IdentityTree(c).fields[Key.ObstaclePadding] == JNumber(c.policy.obstaclePadding)
    ensures IdentityTree(c).fields[Key.RobotDigest] == JString(c.robotDigest)
    ensures IdentityTree(c).fields[Key.SceneDigest] == JString(c.sceneDigest)
  {
  }

  lemma {:induction false} OptionalFields(c: Certificate)
    ensures Key.SubjectDigest in IdentityTree(c).fields <==> c.subjectDigest != ""
    ensures c.subjectDigest != "" ==> IdentityTree(c).fields[Key.SubjectDigest] == JString(c.subjectDigest)
    ensures Key.ParentCertificateId in IdentityTree(c).fields <==> c.parentId != ""
    ensures c.parentId != "" ==> IdentityTree(c).fields[Key.ParentCertificateId] == JString(c.parentId)
    ensures c.parentId != "" ==> Key.TransitionDigest in IdentityTree(c).fields
    ensures c.parentId != "" ==> IdentityTree(c).fields[Key.TransitionDigest] == JString(c.transitionDigest)
  {
  }

  /** Certificates whose lineage fields are paired are determined by their
      identity trees, up to the id itself. */
  lemma {:induction false} IdentityIsInjective(a: Certificate, b: Certificate)
    requires LineagePaired(a) && LineagePaired(b)
    requires IdentityTree(a) == IdentityTree(b)
    ensures a.(id := "") == b.(id := "")
  {
    MandatoryFields(a);
    MandatoryFields(b);
    OptionalFields(a);
    OptionalFields(b);
    LevelNamesDiffer(a.level, b.level);
  }

  /** Without the pairing the identity is not injective: a transition digest
      under an empty parent is not part of it. */
  lemma {:induction false} UnpairedLineageCollides(hash: Hash, c: Certificate, digest: string)
    requires c.parentId == "" && digest != c.transitionDigest
    ensures c.(transitionDigest := digest) != c
    ensures Identity(hash, c.(transitionDigest := digest)) == Identity(hash, c)
  {
    assert IdentityTree(c.(transitionDigest := digest)) == IdentityTree(c);
  }

  // ----- constructors

  function MakeSubjectCertificate(hash: Hash, level: EvidenceLevel, robotDigest: string, sceneDigest: string,
                                  policy: ValidationPolicy, subjectDigest: string, clearance: real): Result<Certificate>
  {
    if || (level != CertifiedRegion && level != CertifiedConnectivity)
       || !ValidSha256(robotDigest) || !ValidSha256(sceneDigest) || !ValidSha256(subjectDigest)
       || policy.algorithm == "" || policy.algorithmVersion == ""
       || policy.obstaclePadding < 0.0 || clearance < 0.0 then
      Err(InvalidArgument)
    else
      var c := Certificate("", level, robotDigest, sceneDigest, policy, clearance, subjectDigest, "", "");
      Ok(c.(id := Identity(hash, c)))
  }

  function MakeTransitionCertificate(hash: Hash, parent: Certificate, sceneDigest: string, subjectDigest: string,
                                     transitionDigest: string, clearance: real): Result<Certificate>
  {
    if || parent.level != CertifiedRegion || !ValidSha256(parent.id)
       || !ValidSha256(parent.robotDigest) || !ValidSha256(sceneDigest) || !ValidSha256(subjectDigest)
       || !ValidSha256(transitionDigest) || parent.subjectDigest != subjectDigest
       || parent.policy.algorithm == "" || parent.policy.algorithmVersion == ""
       || parent.policy.obstaclePadding < 0.0 || clearance < 0.0
       || Identity(hash, parent) != parent.id then
      Err(InvalidArgument)
    else
      var c := Certificate("", CertifiedRegion, parent.robotDigest, sceneDigest, parent.policy, clearance,
                           subjectDigest, parent.id, transitionDigest);
      Ok(c.(id := Identity(hash, c)))
  }

  function AxesTree(box: Box): Json {
    JArray(seq(|box|, i requires 0 <= i < |box| => JArray([JNumber(box[i].lower), JNumber(box[i].upper)])))
  }

  function SubjectDigest(hash: Hash, box: Box): string {
    hash(JObject(map[Key.Bounds := AxesTree(box), Key.Type := JString("cspace-aabb")]))
  }

  lemma {:induction false} AxesTreeIsInjective(a: Box, b: Box)
    requires AxesTree(a) == AxesTree(b)
    ensures a == b
  {
    var s, t := AxesTree(a).items, AxesTree(b).items;
    assert |a| == |s| && |b| == |t|;
    forall i | 0 <= i < |a| ensures a[i] == b[i] {
      assert s[i] == t[i];
      assert s[i].items[0] == t[i].items[0] && s[i].items[1] == t[i].items[1];
    }
  }

  /** The domain-bound region certificate. */
  function MakeRegionCertificate(hash: Hash, cell: Workcell, box: Box, validation: RegionValidation, padding: real)
    : Result<Certificate>
  {
    if !ValidBox(box) || |box| != |cell.domain| then Err(DimensionMismatch)
    else if validation.disposition != CertifiedFree then Err(InvalidArgument)
    else if validation.clearance < 0.0 || padding < 0.0 then Err(InvalidArgument)
    else if |validation.envelope| != cell.linkCount || exists link :: link in validation.envelope && !link.Valid() then
      Err(InternalError)
    else
      MakeSubjectCertificate(hash, CertifiedRegion, cell.robotDigest, cell.sceneDigest,
                             ValidationPolicy(cell.algorithm, cell.algorithmVersion, padding),
                             SubjectDigest(hash, box), validation.clearance)
  }

  /** The legacy region certificate, which binds no domain. */
  function MakeUnboundCertificate(hash: Hash, cell: Workcell, validation: RegionValidation, padding: real)
    : Result<Certificate>
  {
    if validation.disposition != CertifiedFree || validation.clearance < 0.0 || padding < 0.0 then Err(InvalidArgument)
    else
      var c := Certificate("", CertifiedRegion, cell.robotDigest, cell.sceneDigest,
                           ValidationPolicy(cell.algorithm, cell.algorithmVersion, padding), validation.clearance,
                           "", "", "");
      Ok(c.(id := Identity(hash, c)))
  }

  /** What every constructor promises: the id is the certificate's own identity,
      and the lineage fields are empty together. */
  ghost predicate WellIdentified(hash: Hash, c: Certificate) {
    c.id == Identity(hash, c) && LineagePaired(c)
  }

  /** The id is not part of the identity. */
  lemma {:induction false} IdentityIgnoresId(hash: Hash, c: Certificate, id: string)
    ensures Identity(hash, c.(id := id)) == Identity(hash, c)
  {
    assert IdentityTree(c.(id := id)) == IdentityTree(c);
  }

  lemma {:induction false} ConstructorsIdentify(hash: Hash, c: Certificate, parent: Certificate, cell: Workcell,
                                                box: Box, validation: RegionValidation, padding: real,
                                                level: EvidenceLevel, robot: string, scene: string,
                                                policy: ValidationPolicy, subject: string, transition: string,
                                                clearance: real)
    requires || MakeSubjectCertificate(hash, level, robot, scene, policy, subject, clearance) == Ok(c)
             || MakeTransitionCertificate(hash, parent, scene, subject, transition, clearance) == Ok(c)
             || MakeRegionCertificate(hash, cell, box, validation, padding) == Ok(c)
             || MakeUnboundCertificate(hash, cell, validation, padding) == Ok(c)
    ensures WellIdentified(hash, c)
  {
    IdentityIgnoresId(hash, c, "");
  }

  // ----- what the constructors demand and record

  /** The certificate records these, identifies itself, and states what it is about. */
  ghost predicate Records(hash: Hash, c: Certificate, level: EvidenceLevel, robotDigest: string, sceneDigest: string,
                          policy: ValidationPolicy, clearance: real) {
    && c.level == level && c.robotDigest == robotDigest && c.sceneDigest == sceneDigest && c.policy == policy
    && c.clearance == clearance && c.id == Identity(hash, c)
  }

  ghost predicate SoundPolicy(policy: ValidationPolicy) {
    policy.algorithm != "" && policy.algorithmVersion != "" && policy.obstaclePadding >= 0.0
  }

  /** A certificate without lineage is determined by what it records. */
  lemma {:induction false} RecordedIs(hash: Hash, c: Certificate, d: Certificate)
    requires c.(id := "") == d.(id := "") && c.id == Identity(hash, c) && d.id == Identity(hash, d)
    ensures c == d
  {
    IdentityIgnoresId(hash, c, "");
    IdentityIgnoresId(hash, d, "");
  }

  /** Subject certificates are for regions and connectivity only. */
  lemma {:induction false} SubjectIff(hash: Hash, level: EvidenceLevel, robotDigest: string, sceneDigest: string,
                                      policy: ValidationPolicy, subjectDigest: string, clearance: real, c: Certificate)
    ensures MakeSubjectCertificate(hash, level, robotDigest, sceneDigest, policy, subjectDigest, clearance) == Ok(c)
            <==>
              && level in {CertifiedRegion, CertifiedConnectivity} && SoundPolicy(policy) && clearance >= 0.0
              && ValidSha256(robotDigest) && ValidSha256(sceneDigest) && ValidSha256(subjectDigest)
              && Records(hash, c, level, robotDigest, sceneDigest, policy, clearance)
              && c.subjectDigest == subjectDigest && c.parentId == "" == c.transitionDigest
  {
    var made := Certificate("", level, robotDigest, sceneDigest, policy, clearance, subjectDigest, "", "");
    IdentityIgnoresId(hash, made, Identity(hash, made));
    if c.(id := "") == made && c.id == Identity(hash, c) {
      RecordedIs(hash, c, made.(id := Identity(hash, made)));
    }
  }

  /** A transition needs a parent that is a region certificate, is about the same
      subject, and still has its own identity; it keeps the parent's robot and policy. */
  lemma {:induction false} TransitionIff(hash: Hash, parent: Certificate, sceneDigest: string, subjectDigest: string,
                                         transitionDigest: string, clearance: real, c: Certificate)
    ensures MakeTransitionCertificate(hash, parent, sceneDigest, subjectDigest, transitionDigest, clearance) == Ok(c)
            <==>
              && parent.level == CertifiedRegion && parent.id == Identity(hash, parent) && ValidSha256(parent.id)
              && SoundPolicy(parent.policy) && ValidSha256(parent.robotDigest) && parent.subjectDigest == subjectDigest
              && ValidSha256(sceneDigest) && ValidSha256(subjectDigest) && ValidSha256(transitionDigest)
              && clearance >= 0.0
              && Records(hash, c, CertifiedRegion, parent.robotDigest, sceneDigest, parent.policy, clearance)
              && c.subjectDigest == subjectDigest && c.parentId == parent.id && c.transitionDigest == transitionDigest
  {
    var made := Certificate("", CertifiedRegion, parent.robotDigest, sceneDigest, parent.policy, clearance,
                            subjectDigest, parent.id, transitionDigest);
    IdentityIgnoresId(hash, made, Identity(hash, made));
    if c.(id := "") == made && c.id == Identity(hash, c) {
      RecordedIs(hash, c, made.(id := Identity(hash, made)));
    }
  }

  /** A bound region certificate needs a certified box of the domain's dimension
      and one valid envelope for every link; its subject is the box. */
  lemma {:induction false} RegionIff(hash: Hash, cell: Workcell, box: Box, validation: RegionValidation, padding: real,
                                     c: Certificate)
    ensures MakeRegionCertificate(hash, cell, box, validation, padding) == Ok(c) <==>
              var policy := ValidationPolicy(cell.algorithm, cell.algorithmVersion, padding);
              var subject := hash(JObject(map[Key.Bounds := AxesTree(box), Key.Type := JString("cspace-aabb")]));
              && ValidBox(box) && |box| == |cell.domain| && validation.disposition == CertifiedFree
              && validation.clearance >= 0.0 && |validation.envelope| == cell.linkCount
              && (forall i :: 0 <= i < |validation.envelope| ==> validation.envelope[i].Valid())
              && SoundPolicy(policy) && ValidSha256(cell.robotDigest) && ValidSha256(cell.sceneDigest)
              && ValidSha256(subject)
              && Records(hash, c, CertifiedRegion, cell.robotDigest, cell.sceneDigest, policy, validation.clearance)
              && c.subjectDigest == subject && c.parentId == "" == c.transitionDigest
  {
    SubjectIff(hash, CertifiedRegion, cell.robotDigest, cell.sceneDigest,
               ValidationPolicy(cell.algorithm, cell.algorithmVersion, padding), SubjectDigest(hash, box),
               validation.clearance, c);
  }

  /** The legacy certificate has no subject at all. */
  lemma {:induction false} UnboundIff(hash: Hash, cell: Workcell, validation: RegionValidation, padding: real,
                                      c: Certificate)
    ensures MakeUnboundCertificate(hash, cell, validation, padding) == Ok(c) <==>
              && validation.disposition == CertifiedFree && validation.clearance >= 0.0 && padding >= 0.0
              && Records(hash, c, CertifiedRegion, cell.robotDigest, cell.sceneDigest,
                         ValidationPolicy(cell.algorithm, cell.algorithmVersion, padding), validation.clearance)
              && c.subjectDigest == "" == c.parentId && c.transitionDigest == ""
  {
    var made := Certificate("", CertifiedRegion, cell.robotDigest, cell.sceneDigest,
                            ValidationPolicy(cell.algorithm, cell.algorithmVersion, padding), validation.clearance,
                            "", "", "");
    IdentityIgnoresId(hash, made, Identity(hash, made));
    if c.(id := "") == made && c.id == Identity(hash, c) {
      RecordedIs(hash, c, made.(id := Identity(hash, made)));
    }
  }

  // ----- transition chains

  /** Each certificate was made from the one before by a scene transition. */
  ghost predicate Derived(hash: Hash, parent: Certificate, child: Certificate) {
    MakeTransitionCertificate(hash, parent, child.sceneDigest, child.subjectDigest, child.transitionDigest,
                              child.clearance)
    == Ok(child)
  }

  ghost predicate TransitionChain(hash: Hash, chain: seq<Certificate>) {
    && chain != []
    && MakeSubjectCertificate(hash, CertifiedRegion, chain[0].robotDigest, chain[0].sceneDigest, chain[0].policy,
                              chain[0].subjectDigest, chain[0].clearance) == Ok(chain[0])
    && forall i :: 0 < i < |chain| ==> Derived(hash, chain[i - 1], chain[i])
  }

  /** A transition changes neither the level nor the robot, policy or subject. */
  lemma {:induction false} ChainKeepsSubject(hash: Hash, chain: seq<Certificate>, i: nat)
    requires TransitionChain(hash, chain) && i < |chain|
    ensures chain[i].level == CertifiedRegion
    ensures chain[i].robotDigest == chain[0].robotDigest && chain[i].policy == chain[0].policy
    ensures chain[i].subjectDigest == chain[0].subjectDigest
    ensures WellIdentified(hash, chain[i]) && (chain[i].parentId == "" <==> i == 0)
  {
    IdentityIgnoresId(hash, chain[i], "");
    if i > 0 {
      ChainKeepsSubject(hash, chain, i - 1);
      assert Derived(hash, chain[i - 1], chain[i]);
    }
  }

  /** No two of the certificates with different identity trees share a digest. */
  ghost predicate CollisionFree(hash: Hash, certificates: set<Certificate>) {
    forall c, d :: c in certificates && d in certificates && Identity(hash, c) == Identity(hash, d) ==>
                     IdentityTree(c) == IdentityTree(d)
  }

  /** Equal ids mean equal certificates, at the root of both chains or of neither,
      and with equal ids of their parents. */
  ghost predicate Tied(a: seq<Certificate>, b: seq<Certificate>, i: nat, j: nat)
    requires i < |a| && j < |b|
  {
    a[i].id == b[j].id ==> a[i] == b[j] && (i == 0 <==> j == 0) && (i > 0 ==> a[i - 1].id == b[j - 1].id)
  }

  /** Unless two certificates collide, chains are tied at any two places. */
  lemma {:induction false} ChainsAreTied(hash: Hash, a: seq<Certificate>, b: seq<Certificate>, i: nat, j: nat)
    requires TransitionChain(hash, a) && TransitionChain(hash, b) && i < |a| && j < |b|
    requires CollisionFree(hash, Members(a) + Members(b))
    ensures Tied(a, b, i, j)
  {
    if a[i].id == b[j].id {
      ChainKeepsSubject(hash, a, i);
      ChainKeepsSubject(hash, b, j);
      assert a[i] in Members(a) && b[j] in Members(b);
      IdentityIsInjective(a[i], b[j]);
      if i > 0 {
        assert Derived(hash, a[i - 1], a[i]) && Derived(hash, b[j - 1], b[j]);
      }
    }
  }

  lemma {:induction false} AncestorsAgree(a: seq<Certificate>, b: seq<Certificate>, i: nat, j: nat)
    requires forall m, n {:trigger Tied(a, b, m, n)} :: 0 <= m < |a| && 0 <= n < |b| ==> Tied(a, b, m, n)
    requires i < |a| && j < |b| && a[i].id == b[j].id
    ensures i == j && forall k :: 0 <= k <= i ==> a[k] == b[k]
    decreases i
  {
    assert Tied(a, b, i, j);
    if i > 0 {
      AncestorsAgree(a, b, i - 1, j - 1);
    }
  }

  /** Unless two of the certificates collide, equal ids sit at equal depth and have equal ancestors. */
  lemma {:induction false} IdCommitsToAncestors(hash: Hash, a: seq<Certificate>, b: seq<Certificate>, i: nat, j: nat)
    requires TransitionChain(hash, a) && TransitionChain(hash, b) && i < |a| && j < |b|
    requires CollisionFree(hash, Members(a) + Members(b))
    requires a[i].id == b[j].id
    ensures i == j && forall k :: 0 <= k <= i ==> a[k] == b[k]
  {
    forall m, n | 0 <= m < |a| && 0 <= n < |b| ensures Tied(a, b, m, n) {
      ChainsAreTied(hash, a, b, m, n);
    }
    AncestorsAgree(a, b, i, j);
  }

  /** A head id commits to the complete chain. */
  lemma {:induction false} HeadCommitsToLineage(hash: Hash, a: seq<Certificate>, b: seq<Certificate>)
    requires TransitionChain(hash, a) && TransitionChain(hash, b)
    requires CollisionFree(hash, Members(a) + Members(b))
    requires Last(a).id == Last(b).id
    ensures a == b
  {
    IdCommitsToAncestors(hash, a, b, |a| - 1, |b| - 1);
  }

  /** An unbound certificate is never a parent: it has no subject to carry over. */
  lemma {:induction false} UnboundHasNoSuccessor(hash: Hash, cell: Workcell, validation: RegionValidation,
                                                 padding: real, scene: string, subject: string, transition: string,
                                                 clearance: real)
    requires MakeUnboundCertificate(hash, cell, validation, padding).Ok?
    ensures MakeTransitionCertificate(hash, MakeUnboundCertificate(hash, cell, validation, padding).value,
                                      scene, subject, transition, clearance) == Err(InvalidArgument)
  {
  }
}
