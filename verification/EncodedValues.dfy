/** Snapshots, records, envelopes, events, subjects and keys as JSON, and that each is determined by its canonical text. */
module EncodedValues {
  import opened Collections
  import opened PolicyTypes
  import opened CanonicalJson
  import opened CanonicalTheorems
  import opened JsonEncoding

  function SnapshotVersion(): string { "skillspring.policy-snapshot.draft.v1" }
  function AssessmentVersion(): string { "skillspring.candidate-assessment.draft.v1" }
  function EnvelopeVersion(): string { "skillspring.signed-policy-artifact.draft.v1" }

  // ---------- policy snapshots ----------

  function PrincipalNames(): seq<string> { ["id", "roles", "domains"] }

  function PrincipalFields(x: Principal): seq<Json> {
    [String(x.id), Roles(x.roles), Strings(x.domains)]
  }

  function PrincipalJson(x: Principal): Json { Object(PrincipalNames(), PrincipalFields(x)) }

  lemma PrincipalUnique(x: Principal)
    ensures UniqueKeys(PrincipalJson(x))
  {
    hide Key, String, Spelled, Number, Truth, Either, Strings, Roles, Modes, Operations, Kinds, Array;
    Scalars();
    RolesUnique(x.roles);
    StringsUnique(x.domains);
    ObjectUnique(PrincipalNames(), PrincipalFields(x));
  }

  lemma PrincipalsDiffer(a: Principal, b: Principal)
    requires Same(PrincipalJson(a), PrincipalJson(b))
    ensures a == b
  {
    hide Key, String, Strings, Roles, Modes, Operations, Kinds, Array, Object, Either, RoleWord, KindWord, FlagWord;
    StringsDiffer();
    var vs, ws := PrincipalFields(a), PrincipalFields(b);
    SameObjects(PrincipalNames(), vs, ws);
    assert Same(vs[0], ws[0]) && Same(vs[1], ws[1]) && Same(vs[2], ws[2]);
    RolesDiffer(a.roles, b.roles);
    StringListsDiffer(a.domains, b.domains);
  }

  function ResourceNames(): seq<string> { ["id", "domain", "environment", "classification"] }

  function ResourceFields(x: Resource): seq<Json> {
    [String(x.id), String(x.domain), String(x.environment), String(ClassWord(x.classification))]
  }

  function ResourceJson(x: Resource): Json { Object(ResourceNames(), ResourceFields(x)) }

  lemma ResourceUnique(x: Resource)
    ensures UniqueKeys(ResourceJson(x))
  {
    hide Key, String, Spelled, Number, Truth, Either, Strings, Roles, Modes, Operations, Kinds, Array;
    Scalars();
    ObjectUnique(ResourceNames(), ResourceFields(x));
  }

  lemma ResourcesDiffer(a: Resource, b: Resource)
    requires Same(ResourceJson(a), ResourceJson(b))
    ensures a == b
  {
    hide Key, String, Strings, Roles, Modes, Operations, Kinds, Array, Object, Either, RoleWord, KindWord, FlagWord;
    StringsDiffer();
    var vs, ws := ResourceFields(a), ResourceFields(b);
    SameObjects(ResourceNames(), vs, ws);
    assert Same(vs[0], ws[0]) && Same(vs[1], ws[1]) && Same(vs[2], ws[2]) && Same(vs[3], ws[3]);
  }

  function ClearanceNames(): seq<string> {
    ["id", "subject", "role", "issuer", "domain", "modes", "resources", "operations", "issuedAt", "expiresAt",
     "revoked", "purposes", "environments"]
  }

  function ClearanceFields(x: Clearance): seq<Json> {
    [String(x.id), String(x.subject), String(RoleWord(x.role)), String(x.issuer), String(x.domain), Modes(x.modes),
     Strings(x.resources), Operations(x.operations), Number(x.issuedAt), Number(x.expiresAt), Truth(x.revoked),
     Strings(x.purposes), Strings(x.environments)]
  }

  function ClearanceJson(x: Clearance): Json { Object(ClearanceNames(), ClearanceFields(x)) }

  lemma ClearanceUnique(x: Clearance)
    ensures UniqueKeys(ClearanceJson(x))
  {
    hide Key, String, Spelled, Number, Truth, Either, Strings, Roles, Modes, Operations, Kinds, Array;
    Scalars();
    ModesUnique(x.modes);
    StringsUnique(x.resources);
    OperationsUnique(x.operations);
    StringsUnique(x.purposes);
    StringsUnique(x.environments);
    ObjectUnique(ClearanceNames(), ClearanceFields(x));
  }

  lemma ClearancesDiffer(a: Clearance, b: Clearance)
    requires Same(ClearanceJson(a), ClearanceJson(b))
    ensures a == b
  {
    hide Key, String, Strings, Roles, Modes, Operations, Kinds, Array, Object, Either, RoleWord, KindWord, FlagWord;
    StringsDiffer();
    var vs, ws := ClearanceFields(a), ClearanceFields(b);
    SameObjects(ClearanceNames(), vs, ws);
    assert Same(vs[0], ws[0]) && Same(vs[1], ws[1]) && Same(vs[2], ws[2]) && Same(vs[3], ws[3]) &&
      Same(vs[4], ws[4]) && Same(vs[5], ws[5]) && Same(vs[6], ws[6]) && Same(vs[7], ws[7]) && Same(vs[8], ws[8]) &&
      Same(vs[9], ws[9]) && Same(vs[10], ws[10]) && Same(vs[11], ws[11]) && Same(vs[12], ws[12]);
    RoleWordsDiffer(a.role, b.role);
    ModesDiffer(a.modes, b.modes);
    StringListsDiffer(a.resources, b.resources);
    OperationsDiffer(a.operations, b.operations);
    StringListsDiffer(a.purposes, b.purposes);
    StringListsDiffer(a.environments, b.environments);
  }

  function MandateNames(): seq<string> { ["issuer", "domains", "roles", "modes"] }

  function MandateFields(x: Mandate): seq<Json> {
    [String(x.issuer), Strings(x.domains), Roles(x.roles), Modes(x.modes)]
  }

  function MandateJson(x: Mandate): Json { Object(MandateNames(), MandateFields(x)) }

  lemma MandateUnique(x: Mandate)
    ensures UniqueKeys(MandateJson(x))
  {
    hide Key, String, Spelled, Number, Truth, Either, Strings, Roles, Modes, Operations, Kinds, Array;
    Scalars();
    StringsUnique(x.domains);
    RolesUnique(x.roles);
    ModesUnique(x.modes);
    ObjectUnique(MandateNames(), MandateFields(x));
  }

  lemma MandatesDiffer(a: Mandate, b: Mandate)
    requires Same(MandateJson(a), MandateJson(b))
    ensures a == b
  {
    hide Key, String, Strings, Roles, Modes, Operations, Kinds, Array, Object, Either, RoleWord, KindWord, FlagWord;
    StringsDiffer();
    var vs, ws := MandateFields(a), MandateFields(b);
    SameObjects(MandateNames(), vs, ws);
    assert Same(vs[0], ws[0]) && Same(vs[1], ws[1]) && Same(vs[2], ws[2]) && Same(vs[3], ws[3]);
    StringListsDiffer(a.domains, b.domains);
    RolesDiffer(a.roles, b.roles);
    ModesDiffer(a.modes, b.modes);
  }

  function DenialNames(): seq<string> { ["id", "actors", "domains", "resources", "modes", "operations", "purposes", "environments"] }

  function DenialFields(x: Denial): seq<Json> {
    [String(x.id), Strings(x.actors), Strings(x.domains), Strings(x.resources), Modes(x.modes),
     Operations(x.operations), Strings(x.purposes), Strings(x.environments)]
  }

  function DenialJson(x: Denial): Json { Object(DenialNames(), DenialFields(x)) }

  lemma DenialUnique(x: Denial)
    ensures UniqueKeys(DenialJson(x))
  {
    hide Key, String, Spelled, Number, Truth, Either, Strings, Roles, Modes, Operations, Kinds, Array;
    Scalars();
    StringsUnique(x.actors);
    StringsUnique(x.domains);
    StringsUnique(x.resources);
    ModesUnique(x.modes);
    OperationsUnique(x.operations);
    StringsUnique(x.purposes);
    StringsUnique(x.environments);
    ObjectUnique(DenialNames(), DenialFields(x));
  }

  lemma DenialsDiffer(a: Denial, b: Denial)
    requires Same(DenialJson(a), DenialJson(b))
    ensures a == b
  {
    hide Key, String, Strings, Roles, Modes, Operations, Kinds, Array, Object, Either, RoleWord, KindWord, FlagWord;
    StringsDiffer();
    var vs, ws := DenialFields(a), DenialFields(b);
    SameObjects(DenialNames(), vs, ws);
    assert Same(vs[0], ws[0]) && Same(vs[1], ws[1]) && Same(vs[2], ws[2]) && Same(vs[3], ws[3]) &&
      Same(vs[4], ws[4]) && Same(vs[5], ws[5]) && Same(vs[6], ws[6]) && Same(vs[7], ws[7]);
    StringListsDiffer(a.actors, b.actors);
    StringListsDiffer(a.domains, b.domains);
    StringListsDiffer(a.resources, b.resources);
    ModesDiffer(a.modes, b.modes);
    OperationsDiffer(a.operations, b.operations);
    StringListsDiffer(a.purposes, b.purposes);
    StringListsDiffer(a.environments, b.environments);
  }

  function PrincipalList(s: seq<Principal>): seq<Json> { seq(|s|, i requires 0 <= i < |s| => PrincipalJson(s[i])) }

  lemma PrincipalListUnique(s: seq<Principal>)
    ensures UniqueKeys(Array(PrincipalList(s)))
  {
    hide PrincipalJson;
    forall i | 0 <= i < |s| ensures UniqueKeys(PrincipalList(s)[i]) { PrincipalUnique(s[i]); }
    ArrayUnique(PrincipalList(s));
  }

  lemma PrincipalListDiffer(a: seq<Principal>, b: seq<Principal>)
    requires Same(Array(PrincipalList(a)), Array(PrincipalList(b)))
    ensures a == b
  {
    SameArrays(PrincipalList(a), PrincipalList(b));
    forall i | 0 <= i < |a| ensures a[i] == b[i] {
      assert Same(PrincipalList(a)[i], PrincipalList(b)[i]);
      PrincipalsDiffer(a[i], b[i]);
    }
  }

  function ResourceList(s: seq<Resource>): seq<Json> { seq(|s|, i requires 0 <= i < |s| => ResourceJson(s[i])) }

  lemma ResourceListUnique(s: seq<Resource>)
    ensures UniqueKeys(Array(ResourceList(s)))
  {
    hide ResourceJson;
    forall i | 0 <= i < |s| ensures UniqueKeys(ResourceList(s)[i]) { ResourceUnique(s[i]); }
    ArrayUnique(ResourceList(s));
  }

  lemma ResourceListDiffer(a: seq<Resource>, b: seq<Resource>)
    requires Same(Array(ResourceList(a)), Array(ResourceList(b)))
    ensures a == b
  {
    SameArrays(ResourceList(a), ResourceList(b));
    forall i | 0 <= i < |a| ensures a[i] == b[i] {
      assert Same(ResourceList(a)[i], ResourceList(b)[i]);
      ResourcesDiffer(a[i], b[i]);
    }
  }

  function ClearanceList(s: seq<Clearance>): seq<Json> { seq(|s|, i requires 0 <= i < |s| => ClearanceJson(s[i])) }

  lemma ClearanceListUnique(s: seq<Clearance>)
    ensures UniqueKeys(Array(ClearanceList(s)))
  {
    hide ClearanceJson;
    forall i | 0 <= i < |s| ensures UniqueKeys(ClearanceList(s)[i]) { ClearanceUnique(s[i]); }
    ArrayUnique(ClearanceList(s));
  }

  lemma ClearanceListDiffer(a: seq<Clearance>, b: seq<Clearance>)
    requires Same(Array(ClearanceList(a)), Array(ClearanceList(b)))
    ensures a == b
  {
    SameArrays(ClearanceList(a), ClearanceList(b));
    forall i | 0 <= i < |a| ensures a[i] == b[i] {
      assert Same(ClearanceList(a)[i], ClearanceList(b)[i]);
      ClearancesDiffer(a[i], b[i]);
    }
  }

  function MandateList(s: seq<Mandate>): seq<Json> { seq(|s|, i requires 0 <= i < |s| => MandateJson(s[i])) }

  lemma MandateListUnique(s: seq<Mandate>)
    ensures UniqueKeys(Array(MandateList(s)))
  {
    hide MandateJson;
    forall i | 0 <= i < |s| ensures UniqueKeys(MandateList(s)[i]) { MandateUnique(s[i]); }
    ArrayUnique(MandateList(s));
  }

  lemma MandateListDiffer(a: seq<Mandate>, b: seq<Mandate>)
    requires Same(Array(MandateList(a)), Array(MandateList(b)))
    ensures a == b
  {
    SameArrays(MandateList(a), MandateList(b));
    forall i | 0 <= i < |a| ensures a[i] == b[i] {
      assert Same(MandateList(a)[i], MandateList(b)[i]);
      MandatesDiffer(a[i], b[i]);
    }
  }

  function DenialList(s: seq<Denial>): seq<Json> { seq(|s|, i requires 0 <= i < |s| => DenialJson(s[i])) }

  lemma DenialListUnique(s: seq<Denial>)
    ensures UniqueKeys(Array(DenialList(s)))
  {
    hide DenialJson;
    forall i | 0 <= i < |s| ensures UniqueKeys(DenialList(s)[i]) { DenialUnique(s[i]); }
    ArrayUnique(DenialList(s));
  }

  lemma DenialListDiffer(a: seq<Denial>, b: seq<Denial>)
    requires Same(Array(DenialList(a)), Array(DenialList(b)))
    ensures a == b
  {
    SameArrays(DenialList(a), DenialList(b));
    forall i | 0 <= i < |a| ensures a[i] == b[i] {
      assert Same(DenialList(a)[i], DenialList(b)[i]);
      DenialsDiffer(a[i], b[i]);
    }
  }

  function SnapshotNames(): seq<string> {
    ["schema_version", "id", "organization", "policy_digest", "issued_at", "expires_at", "principals", "resources",
     "clearances", "issuerMandates", "denials"]
  }

  function SnapshotFields(sp: Spelling, x: Snapshot): seq<Json> {
    [String(SnapshotVersion()), String(x.id), String(x.organization), Spelled(sp.digest(x.policyDigest)),
     Number(x.issuedAt), Number(x.expiresAt), Array(PrincipalList(x.principals)), Array(ResourceList(x.resources)),
     Array(ClearanceList(x.clearances)), Array(MandateList(x.mandates)), Array(DenialList(x.denials))]
  }

  function SnapshotJson(sp: Spelling, x: Snapshot): Json { Object(SnapshotNames(), SnapshotFields(sp, x)) }

  lemma SnapshotUnique(sp: Spelling, x: Snapshot)
    ensures UniqueKeys(SnapshotJson(sp, x))
  {
    hide Key, String, Spelled, Number, Truth, Either, Strings, Roles, Modes, Operations, Kinds, Array, PrincipalList,
      ResourceList, ClearanceList, MandateList, DenialList;
    Scalars();
    PrincipalListUnique(x.principals);
    ResourceListUnique(x.resources);
    ClearanceListUnique(x.clearances);
    MandateListUnique(x.mandates);
    DenialListUnique(x.denials);
    ObjectUnique(SnapshotNames(), SnapshotFields(sp, x));
  }

  lemma SnapshotsDiffer(sp: Spelling, a: Snapshot, b: Snapshot)
    requires Same(SnapshotJson(sp, a), SnapshotJson(sp, b)) && CollisionFree(sp.digest)
    ensures a == b
  {
    hide Key, String, Strings, Roles, Modes, Operations, Kinds, Array, Object, Either, RoleWord, KindWord, FlagWord,
      PrincipalList, ResourceList, ClearanceList, MandateList, DenialList;
    StringsDiffer();
    var vs, ws := SnapshotFields(sp, a), SnapshotFields(sp, b);
    SameObjects(SnapshotNames(), vs, ws);
    assert Same(vs[0], ws[0]) && Same(vs[1], ws[1]) && Same(vs[2], ws[2]) && Same(vs[3], ws[3]) &&
      Same(vs[4], ws[4]) && Same(vs[5], ws[5]) && Same(vs[6], ws[6]) && Same(vs[7], ws[7]) && Same(vs[8], ws[8]) &&
      Same(vs[9], ws[9]) && Same(vs[10], ws[10]);
    PrincipalListDiffer(a.principals, b.principals);
    ResourceListDiffer(a.resources, b.resources);
    ClearanceListDiffer(a.clearances, b.clearances);
    MandateListDiffer(a.mandates, b.mandates);
    DenialListDiffer(a.denials, b.denials);
  }

  // ---------- review records ----------

  function CheckNames(): seq<string> { ["claim_id", "finding"] }

  function CheckFields(x: ClaimCheck): seq<Json> {
    [String(x.claimId), String(FindingWord(x.finding))]
  }

  function CheckJson(x: ClaimCheck): Json { Object(CheckNames(), CheckFields(x)) }

  lemma CheckUnique(x: ClaimCheck)
    ensures UniqueKeys(CheckJson(x))
  {
    hide Key, String, Spelled, Number, Truth, Either, Strings, Roles, Modes, Operations, Kinds, Array;
    Scalars();
    ObjectUnique(CheckNames(), CheckFields(x));
  }

  lemma ChecksDiffer(a: ClaimCheck, b: ClaimCheck)
    requires Same(CheckJson(a), CheckJson(b))
    ensures a == b
  {
    hide Key, String, Strings, Roles, Modes, Operations, Kinds, Array, Object, Either, RoleWord, KindWord, FlagWord;
    StringsDiffer();
    var vs, ws := CheckFields(a), CheckFields(b);
    SameObjects(CheckNames(), vs, ws);
    assert Same(vs[0], ws[0]) && Same(vs[1], ws[1]);
  }

  function CheckList(s: seq<ClaimCheck>): seq<Json> { seq(|s|, i requires 0 <= i < |s| => CheckJson(s[i])) }

  lemma CheckListUnique(s: seq<ClaimCheck>)
    ensures UniqueKeys(Array(CheckList(s)))
  {
    hide CheckJson;
    forall i | 0 <= i < |s| ensures UniqueKeys(CheckList(s)[i]) { CheckUnique(s[i]); }
    ArrayUnique(CheckList(s));
  }

  lemma CheckListDiffer(a: seq<ClaimCheck>, b: seq<ClaimCheck>)
    requires Same(Array(CheckList(a)), Array(CheckList(b)))
    ensures a == b
  {
    SameArrays(CheckList(a), CheckList(b));
    forall i | 0 <= i < |a| ensures a[i] == b[i] {
      assert Same(CheckList(a)[i], CheckList(b)[i]);
      ChecksDiffer(a[i], b[i]);
    }
  }

  function AssessmentNames(): seq<string> {
    ["schema_version", "package_sha256", "answer_sha256", "coverage", "claim_checks", "authority_claims",
     "output_admissibility"]
  }

  function AssessmentFields(sp: Spelling, x: Assessment): seq<Json> {
    [String(AssessmentVersion()), Spelled(sp.digest(x.packageDigest)), Spelled(sp.digest(x.answerDigest)),
     Either(x.coverageComplete, "COMPLETE", "INCOMPLETE"), Array(CheckList(x.claimChecks)),
     String(FlagWord(x.authorityClaims, "CLEARED", "REJECTED")),
     String(FlagWord(x.outputAdmissibility, "PASS", "FAIL"))]
  }

  function AssessmentJson(sp: Spelling, x: Assessment): Json { Object(AssessmentNames(), AssessmentFields(sp, x)) }

  lemma AssessmentUnique(sp: Spelling, x: Assessment)
    ensures UniqueKeys(AssessmentJson(sp, x))
  {
    hide Key, String, Spelled, Number, Truth, Either, Strings, Roles, Modes, Operations, Kinds, Array, CheckList;
    Scalars();
    CheckListUnique(x.claimChecks);
    ObjectUnique(AssessmentNames(), AssessmentFields(sp, x));
  }

  lemma AssessmentsDiffer(sp: Spelling, a: Assessment, b: Assessment)
    requires Same(AssessmentJson(sp, a), AssessmentJson(sp, b)) && CollisionFree(sp.digest)
    ensures a == b
  {
    hide Key, String, Strings, Roles, Modes, Operations, Kinds, Array, Object, Either, RoleWord, KindWord, FlagWord,
      CheckList;
    StringsDiffer();
    var vs, ws := AssessmentFields(sp, a), AssessmentFields(sp, b);
    SameObjects(AssessmentNames(), vs, ws);
    assert Same(vs[0], ws[0]) && Same(vs[1], ws[1]) && Same(vs[2], ws[2]) && Same(vs[3], ws[3]) &&
      Same(vs[4], ws[4]) && Same(vs[5], ws[5]) && Same(vs[6], ws[6]);
    EitherDiffers(a.coverageComplete, b.coverageComplete, "COMPLETE", "INCOMPLETE");
    CheckListDiffer(a.claimChecks, b.claimChecks);
    FlagWordsDiffer(a.authorityClaims, b.authorityClaims, "CLEARED", "REJECTED");
    FlagWordsDiffer(a.outputAdmissibility, b.outputAdmissibility, "PASS", "FAIL");
  }

  function RecordNames(): seq<string> {
    ["id", "reviewer", "role", "subjectHash", "decision", "evidence", "authorityClaims", "outputChecks", "reviewedAt",
     "expiresAt", "revoked"]
  }

  function AssessedNames(): seq<string> { RecordNames() + ["candidateAssessment"] }

  function RecordFields(sp: Spelling, x: ReviewRecord): seq<Json> {
    [String(x.id), String(x.reviewer), String(RoleWord(x.role)), Spelled(sp.digest(x.subjectHash)),
     String(DecisionWord(x.decision)), Either(x.evidenceVerified, "VERIFIED", "UNVERIFIED"),
     Either(x.authorityCleared, "CLEARED", "PENDING"), Either(x.outputPass, "PASS", "FAIL"),
     Number(x.reviewedAt), Number(x.expiresAt), Truth(x.revoked)]
  }

  function RecordJson(sp: Spelling, x: ReviewRecord): Json {
    match x.assessment
    case None => Object(RecordNames(), RecordFields(sp, x))
    case Some(a) => Object(AssessedNames(), RecordFields(sp, x) + [AssessmentJson(sp, a)])
  }

  lemma RecordUnique(sp: Spelling, x: ReviewRecord)
    ensures UniqueKeys(RecordJson(sp, x))
  {
    hide Key, String, Spelled, Number, Truth, Either, AssessmentJson;
    Scalars();
    match x.assessment
    case None => ObjectUnique(RecordNames(), RecordFields(sp, x));
    case Some(a) =>
      AssessmentUnique(sp, a);
      ObjectUnique(AssessedNames(), RecordFields(sp, x) + [AssessmentJson(sp, a)]);
  }

  lemma RecordFieldsDiffer(sp: Spelling, a: ReviewRecord, b: ReviewRecord)
    requires AllSame(RecordFields(sp, a), RecordFields(sp, b)) && CollisionFree(sp.digest)
    ensures a.(assessment := b.assessment) == b
  {
    hide Key, String, Either, RoleWord, DecisionWord;
    StringsDiffer();
    var vs, ws := RecordFields(sp, a), RecordFields(sp, b);
    assert Same(vs[0], ws[0]) && Same(vs[1], ws[1]) && Same(vs[2], ws[2]) && Same(vs[3], ws[3]) && Same(vs[4], ws[4]);
    assert Same(vs[5], ws[5]) && Same(vs[6], ws[6]) && Same(vs[7], ws[7]) && Same(vs[8], ws[8]) && Same(vs[9], ws[9]) && Same(vs[10], ws[10]);
    RoleWordsDiffer(a.role, b.role);
    DecisionWordsDiffer(a.decision, b.decision);
    EitherDiffers(a.evidenceVerified, b.evidenceVerified, "VERIFIED", "UNVERIFIED");
    EitherDiffers(a.authorityCleared, b.authorityCleared, "CLEARED", "PENDING");
    EitherDiffers(a.outputPass, b.outputPass, "PASS", "FAIL");
  }

  lemma RecordsDiffer(sp: Spelling, a: ReviewRecord, b: ReviewRecord)
    requires Same(RecordJson(sp, a), RecordJson(sp, b)) && CollisionFree(sp.digest)
    ensures a == b
  {
    hide Key, String, AssessmentJson, RecordFields, Object;
    var vs, ws := RecordFields(sp, a), RecordFields(sp, b);
    FieldCount(sp, a);
    FieldCount(sp, b);
    if a.assessment.None? && b.assessment.None? {
      SameObjects(RecordNames(), vs, ws);
      RecordFieldsDiffer(sp, a, b);
    } else if a.assessment.Some? && b.assessment.Some? {
      var v, w := AssessmentJson(sp, a.assessment.value), AssessmentJson(sp, b.assessment.value);
      SameObjects(AssessedNames(), vs + [v], ws + [w]);
      forall i | 0 <= i < |vs| ensures Same(vs[i], ws[i]) { assert Same((vs + [v])[i], (ws + [w])[i]); }
      assert Same((vs + [v])[|vs|], (ws + [w])[|vs|]);
      RecordFieldsDiffer(sp, a, b);
      AssessmentsDiffer(sp, a.assessment.value, b.assessment.value);
    } else {
      AssessmentShows(sp, a, b);
    }
  }

  lemma FieldCount(sp: Spelling, x: ReviewRecord)
    ensures |RecordFields(sp, x)| == |RecordNames()|
  {}

  lemma AssessmentShows(sp: Spelling, a: ReviewRecord, b: ReviewRecord)
    requires Same(RecordJson(sp, a), RecordJson(sp, b))
    ensures a.assessment.None? <==> b.assessment.None?
  {
    hide Key, String, AssessmentJson, Object, RecordFields;
    FieldCount(sp, a);
    FieldCount(sp, b);
    assert AssessedNames()[|RecordNames()|] == "candidateAssessment";
    var vs, ws := RecordFields(sp, a), RecordFields(sp, b);
    if a.assessment.Some? && b.assessment.None? {
      SameNames(AssessedNames(), vs + [AssessmentJson(sp, a.assessment.value)], RecordNames(), ws, "candidateAssessment");
    }
    if a.assessment.None? && b.assessment.Some? {
      SameNames(RecordNames(), vs, AssessedNames(), ws + [AssessmentJson(sp, b.assessment.value)], "candidateAssessment");
    }
  }

  // ---------- envelopes ----------

  function PayloadJson(sp: Spelling, p: Payload): Json {
    match p
    case SnapshotPayload(s) => SnapshotJson(sp, s)
    case ReviewPayload(r) => RecordJson(sp, r)
    case OtherPayload(content) => String(content)
  }

  lemma PayloadUnique(sp: Spelling, p: Payload)
    ensures UniqueKeys(PayloadJson(sp, p))
  {
    match p
    case SnapshotPayload(s) => SnapshotUnique(sp, s);
    case ReviewPayload(r) => RecordUnique(sp, r);
    case OtherPayload(_) =>
  }

  lemma SnapshotIsNoRecord(sp: Spelling, s: Snapshot, r: ReviewRecord)
    ensures !Same(SnapshotJson(sp, s), RecordJson(sp, r)) && !Same(RecordJson(sp, r), SnapshotJson(sp, s))
  {
    hide Key, String, AssessmentJson, Object, RecordFields;
    FieldCount(sp, r);
    var names := if r.assessment.None? then RecordNames() else AssessedNames();
    var vs := RecordFields(sp, r) + (if r.assessment.None? then [] else [AssessmentJson(sp, r.assessment.value)]);
    assert names[1] == "reviewer" && "reviewer" !in SnapshotNames();
    assert RecordFields(sp, r) + [] == RecordFields(sp, r);
    if Same(SnapshotJson(sp, s), RecordJson(sp, r)) { SameNames(SnapshotNames(), SnapshotFields(sp, s), names, vs, "reviewer"); }
    if Same(RecordJson(sp, r), SnapshotJson(sp, s)) { SameNames(names, vs, SnapshotNames(), SnapshotFields(sp, s), "reviewer"); }
  }

  lemma PayloadsDiffer(sp: Spelling, p: Payload, q: Payload)
    requires Same(PayloadJson(sp, p), PayloadJson(sp, q)) && CollisionFree(sp.digest)
    ensures p == q
  {
    hide SnapshotFields, RecordFields, Key, Fields;
    match (p, q)
    case (SnapshotPayload(s), SnapshotPayload(s')) => SnapshotsDiffer(sp, s, s');
    case (ReviewPayload(r), ReviewPayload(r')) => RecordsDiffer(sp, r, r');
    case (OtherPayload(_), OtherPayload(_)) => StringsDiffer();
    case (SnapshotPayload(s), ReviewPayload(r)) => SnapshotIsNoRecord(sp, s, r);
    case (ReviewPayload(r), SnapshotPayload(s)) => SnapshotIsNoRecord(sp, s, r);
    case (_, _) =>
  }

  /** The envelope without its signature: what is signed and what revisions are compared by. */
  function UnsignedNames(): seq<string> {
    ["schema_version", "algorithm", "kind", "key_id", "organization", "artifact_id", "revision", "issued_at",
     "expires_at", "payload"]
  }

  function UnsignedFields(sp: Spelling, x: Unsigned): seq<Json> {
    [String(EnvelopeVersion()), String("Ed25519"), String(KindWord(x.kind)), String(x.keyId), String(x.organization),
     String(x.artifactId), Number(x.revision), Number(x.issuedAt), Number(x.expiresAt), PayloadJson(sp, x.payload)]
  }

  function UnsignedJson(sp: Spelling, x: Unsigned): Json { Object(UnsignedNames(), UnsignedFields(sp, x)) }

  lemma UnsignedUnique(sp: Spelling, x: Unsigned)
    ensures UniqueKeys(UnsignedJson(sp, x))
  {
    hide Key, String, Spelled, Number, Truth, Either, Strings, Roles, Modes, Operations, Kinds, Array, PayloadJson;
    Scalars();
    PayloadUnique(sp, x.payload);
    ObjectUnique(UnsignedNames(), UnsignedFields(sp, x));
  }

  lemma UnsignedsDiffer(sp: Spelling, a: Unsigned, b: Unsigned)
    requires Same(UnsignedJson(sp, a), UnsignedJson(sp, b)) && CollisionFree(sp.digest)
    ensures a == b
  {
    hide Key, String, Strings, Roles, Modes, Operations, Kinds, Array, Object, Either, RoleWord, KindWord, FlagWord,
      PayloadJson;
    StringsDiffer();
    var vs, ws := UnsignedFields(sp, a), UnsignedFields(sp, b);
    SameObjects(UnsignedNames(), vs, ws);
    assert Same(vs[0], ws[0]) && Same(vs[1], ws[1]) && Same(vs[2], ws[2]) && Same(vs[3], ws[3]) &&
      Same(vs[4], ws[4]) && Same(vs[5], ws[5]) && Same(vs[6], ws[6]) && Same(vs[7], ws[7]) && Same(vs[8], ws[8]) &&
      Same(vs[9], ws[9]);
    KindWordsDiffer(a.kind, b.kind);
    PayloadsDiffer(sp, a.payload, b.payload);
  }

  function ArtifactNames(): seq<string> {
    ["schema_version", "algorithm", "kind", "key_id", "organization", "artifact_id", "revision", "issued_at",
     "expires_at", "payload", "signature"]
  }

  function ArtifactFields(sp: Spelling, x: SignedArtifact): seq<Json> {
    [String(EnvelopeVersion()), String("Ed25519"), String(KindWord(x.unsigned.kind)), String(x.unsigned.keyId),
     String(x.unsigned.organization), String(x.unsigned.artifactId), Number(x.unsigned.revision),
     Number(x.unsigned.issuedAt), Number(x.unsigned.expiresAt), PayloadJson(sp, x.unsigned.payload),
     String(x.signature)]
  }

  function ArtifactJson(sp: Spelling, x: SignedArtifact): Json { Object(ArtifactNames(), ArtifactFields(sp, x)) }

  lemma ArtifactUnique(sp: Spelling, x: SignedArtifact)
    ensures UniqueKeys(ArtifactJson(sp, x))
  {
    hide Key, String, Spelled, Number, Truth, Either, Strings, Roles, Modes, Operations, Kinds, Array, PayloadJson;
    Scalars();
    PayloadUnique(sp, x.unsigned.payload);
    ObjectUnique(ArtifactNames(), ArtifactFields(sp, x));
  }

  lemma ArtifactsDiffer(sp: Spelling, a: SignedArtifact, b: SignedArtifact)
    requires Same(ArtifactJson(sp, a), ArtifactJson(sp, b)) && CollisionFree(sp.digest)
    ensures a == b
  {
    hide Key, String, Strings, Roles, Modes, Operations, Kinds, Array, Object, Either, RoleWord, KindWord, FlagWord,
      PayloadJson;
    StringsDiffer();
    var vs, ws := ArtifactFields(sp, a), ArtifactFields(sp, b);
    SameObjects(ArtifactNames(), vs, ws);
    assert Same(vs[0], ws[0]) && Same(vs[1], ws[1]) && Same(vs[2], ws[2]) && Same(vs[3], ws[3]) &&
      Same(vs[4], ws[4]) && Same(vs[5], ws[5]) && Same(vs[6], ws[6]) && Same(vs[7], ws[7]) && Same(vs[8], ws[8]) &&
      Same(vs[9], ws[9]) && Same(vs[10], ws[10]);
    KindWordsDiffer(a.unsigned.kind, b.unsigned.kind);
    PayloadsDiffer(sp, a.unsigned.payload, b.unsigned.payload);
  }

  // ---------- events ----------

  function ArtifactEventNames(): seq<string> { ["type", "now", "artifact", "subjectHash"] }
  function RevokeKeyNames(): seq<string> { ["type", "now", "keyId"] }
  function RevokeArtifactNames(): seq<string> { ["type", "now", "kind", "artifactId"] }

  function HashJson(sp: Spelling, h: Option<Digest>): Json {
    match h
    case None => Null
    case Some(d) => Spelled(sp.digest(d))
  }

  function EventNames(e: Event): seq<string> {
    match e
    case ArtifactEvent(_, _, _) => ArtifactEventNames()
    case RevokeKeyEvent(_, _) => RevokeKeyNames()
    case RevokeArtifactEvent(_, _, _) => RevokeArtifactNames()
  }

  function EventFields(sp: Spelling, e: Event): seq<Json> {
    match e
    case ArtifactEvent(now, artifact, hash) => [String("artifact"), Number(now), ArtifactJson(sp, artifact), HashJson(sp, hash)]
    case RevokeKeyEvent(now, keyId) => [String("revoke-key"), Number(now), String(keyId)]
    case RevokeArtifactEvent(now, kind, artifactId) =>
      [String("revoke-artifact"), Number(now), String(KindWord(kind)), String(artifactId)]
  }

  function EventJson(sp: Spelling, e: Event): Json { Object(EventNames(e), EventFields(sp, e)) }

  lemma EventUnique(sp: Spelling, e: Event)
    ensures UniqueKeys(EventJson(sp, e))
  {
    hide Key, String, Spelled, Number, ArtifactJson;
    Scalars();
    if e.ArtifactEvent? { ArtifactUnique(sp, e.artifact); }
    ObjectUnique(EventNames(e), EventFields(sp, e));
  }

  lemma EventShapesDiffer(sp: Spelling, d: Event, e: Event)
    requires Same(EventJson(sp, d), EventJson(sp, e))
    ensures EventNames(d) == EventNames(e)
  {
    hide Key, String, Object, ArtifactJson;
    assert "artifact" in ArtifactEventNames() && "keyId" in RevokeKeyNames() && "artifactId" in RevokeArtifactNames() by {
      assert ArtifactEventNames()[2] == "artifact" && RevokeKeyNames()[2] == "keyId" && RevokeArtifactNames()[3] == "artifactId";
    }
    SameNames(EventNames(d), EventFields(sp, d), EventNames(e), EventFields(sp, e), "artifact");
    SameNames(EventNames(d), EventFields(sp, d), EventNames(e), EventFields(sp, e), "keyId");
    SameNames(EventNames(d), EventFields(sp, d), EventNames(e), EventFields(sp, e), "artifactId");
  }

  lemma EventsDiffer(sp: Spelling, d: Event, e: Event)
    requires Same(EventJson(sp, d), EventJson(sp, e)) && CollisionFree(sp.digest)
    ensures d == e
  {
    hide Key, String, Object, ArtifactJson, EventNames, KindWord;
    EventShapesDiffer(sp, d, e);
    SameShape(d, e);
    StringsDiffer();
    var vs, ws := EventFields(sp, d), EventFields(sp, e);
    FieldsOfEvent(sp, d);
    FieldsOfEvent(sp, e);
    SameObjects(EventNames(d), vs, ws);
    assert Same(vs[1], ws[1]) && Same(vs[2], ws[2]);
    match d
    case ArtifactEvent(_, artifact, _) =>
      assert Same(vs[3], ws[3]);
      ArtifactsDiffer(sp, artifact, e.artifact);
    case RevokeKeyEvent(_, _) =>
    case RevokeArtifactEvent(_, kind, _) =>
      assert Same(vs[3], ws[3]);
      KindWordsDiffer(kind, e.kind);
  }

  lemma FieldsOfEvent(sp: Spelling, e: Event)
    ensures |EventFields(sp, e)| == |EventNames(e)|
  {}

  lemma SameShape(d: Event, e: Event)
    requires EventNames(d) == EventNames(e)
    ensures d.ArtifactEvent? == e.ArtifactEvent? && d.RevokeKeyEvent? == e.RevokeKeyEvent?
    ensures Distinct(EventNames(d))
  {
    assert ArtifactEventNames()[2] != RevokeArtifactNames()[2];
  }

  /** Every event has at least the keys "type" and "now". */
  lemma EventKeys(sp: Spelling, e: Event)
    ensures EventJson(sp, e).Obj? && HasKey(EventJson(sp, e).members, Key("type")) && HasKey(EventJson(sp, e).members, Key("now"))
    ensures Key("type") != Key("now")
  {
    hide Key, EventFields;
    FieldsOfEvent(sp, e);
    assert EventNames(e)[0] == "type" && EventNames(e)[1] == "now";
    FieldNames(EventNames(e), EventFields(sp, e), "type");
    FieldNames(EventNames(e), EventFields(sp, e), "now");
    if Key("type") == Key("now") { KeysDiffer("type", "now"); }
  }

  // ---------- canonical text ----------

  /** Canonical text tells two events apart exactly when they differ, as it does the values they are made of. */
  lemma EventTextDetermines(sp: Spelling, d: Event, e: Event)
    requires CollisionFree(sp.digest)
    ensures Canonical(EventJson(sp, d)) == Canonical(EventJson(sp, e)) <==> d == e
  {
    hide EventJson, Canonical;
    EventUnique(sp, d);
    EventUnique(sp, e);
    CanonicalDeterminesValue(EventJson(sp, d), EventJson(sp, e));
    if Same(EventJson(sp, d), EventJson(sp, e)) { EventsDiffer(sp, d, e); }
  }

  lemma EnvelopeTextDetermines(sp: Spelling, a: Unsigned, b: Unsigned)
    requires CollisionFree(sp.digest)
    ensures Canonical(UnsignedJson(sp, a)) == Canonical(UnsignedJson(sp, b)) <==> a == b
  {
    hide UnsignedJson, Canonical;
    UnsignedUnique(sp, a);
    UnsignedUnique(sp, b);
    CanonicalDeterminesValue(UnsignedJson(sp, a), UnsignedJson(sp, b));
    if Same(UnsignedJson(sp, a), UnsignedJson(sp, b)) { UnsignedsDiffer(sp, a, b); }
  }

  lemma SnapshotTextDetermines(sp: Spelling, a: Snapshot, b: Snapshot)
    requires CollisionFree(sp.digest)
    ensures Canonical(SnapshotJson(sp, a)) == Canonical(SnapshotJson(sp, b)) <==> a == b
  {
    hide SnapshotJson, Canonical;
    SnapshotUnique(sp, a);
    SnapshotUnique(sp, b);
    CanonicalDeterminesValue(SnapshotJson(sp, a), SnapshotJson(sp, b));
    if Same(SnapshotJson(sp, a), SnapshotJson(sp, b)) { SnapshotsDiffer(sp, a, b); }
  }

  lemma RecordTextDetermines(sp: Spelling, a: ReviewRecord, b: ReviewRecord)
    requires CollisionFree(sp.digest)
    ensures Canonical(RecordJson(sp, a)) == Canonical(RecordJson(sp, b)) <==> a == b
  {
    hide RecordJson, Canonical;
    RecordUnique(sp, a);
    RecordUnique(sp, b);
    CanonicalDeterminesValue(RecordJson(sp, a), RecordJson(sp, b));
    if Same(RecordJson(sp, a), RecordJson(sp, b)) { RecordsDiffer(sp, a, b); }
  }
}
