/** The values the policy-review engine exchanges: policy snapshots, review records,
    candidate packages, signed envelopes and the events of the history log.
    The predicates named Valid... state what the JSON schemas demand. */
module PolicyTypes {
  import opened Collections
  import CanonicalJson

  const MAX_SAFE_INTEGER: int := 9007199254740991

  predicate SafeInteger(n: int) {
    -MAX_SAFE_INTEGER <= n <= MAX_SAFE_INTEGER
  }

  type CodePoint = nat
  type Text = seq<CodePoint>

  datatype Role = User | DomainReviewer | GovernanceOfficer | EngineeringMaintainer | AccessAdministrator
  datatype Mode = DefaultMode | GovernanceMode | ArchitectMode
  datatype ResourceClass = Public | DomainRestricted | EngineeringSandbox | Protected
  datatype Operation = Read | RequestReview | Test | Debug | ProposeChange | ReviewEvidence | ReviewRelease

  // ---------- policy snapshot ----------

  datatype Principal = Principal(id: string, roles: seq<Role>, domains: seq<string>)
  datatype Resource = Resource(id: string, domain: string, classification: ResourceClass, environment: string)
  datatype Clearance = Clearance(
    id: string, subject: string, role: Role, issuer: string, domain: string,
    modes: seq<Mode>, resources: seq<string>, operations: seq<Operation>,
    issuedAt: int, expiresAt: int, revoked: bool, purposes: seq<string>, environments: seq<string>)
  datatype Mandate = Mandate(issuer: string, domains: seq<string>, roles: seq<Role>, modes: seq<Mode>)
  datatype Denial = Denial(
    id: string, actors: seq<string>, domains: seq<string>, resources: seq<string>, modes: seq<Mode>,
    operations: seq<Operation>, purposes: seq<string>, environments: seq<string>)
  datatype Snapshot = Snapshot(
    id: string, organization: string, policyDigest: Digest, issuedAt: int, expiresAt: int,
    principals: seq<Principal>, resources: seq<Resource>, clearances: seq<Clearance>,
    mandates: seq<Mandate>, denials: seq<Denial>)

  // ---------- requests, subjects and review records ----------

  datatype Request = Request(
    actor: string, mode: Mode, domain: string, resource: string, operation: Operation,
    purpose: string, environment: string, organization: string, policyDigest: Digest)

  /** The subject's candidate is any JSON object; only a well-shaped package is taken apart. */
  datatype Candidate =
    | PackageCandidate(pkg: Package)
    | OtherCandidate(claimsPackageVersion: bool, content: string)

  datatype Subject = Subject(
    candidate: Candidate, mode: Mode, domain: string, resource: string, audience: seq<string>,
    requester: string, producer: string, policyVersion: string,
    purpose: string, environment: string, organization: string, policyDigest: Digest)

  datatype Decision = Approve | Reject
  datatype Finding = Supported | Unsupported | UncertainFinding
  datatype Flag = Cleared | NotCleared | UncertainFlag
  datatype ClaimCheck = ClaimCheck(claimId: string, finding: Finding)
  datatype Assessment = Assessment(
    packageDigest: Digest, answerDigest: Digest, coverageComplete: bool, claimChecks: seq<ClaimCheck>,
    authorityClaims: Flag, outputAdmissibility: Flag)
  datatype ReviewRecord = ReviewRecord(
    id: string, reviewer: string, role: Role, subjectHash: Digest, decision: Decision,
    evidenceVerified: bool, authorityCleared: bool, outputPass: bool,
    reviewedAt: int, expiresAt: int, revoked: bool, assessment: Option<Assessment>)

  // ---------- candidate package ----------

  datatype SourceRef = SourceRef(sourceId: string, contentDigest: Digest)
  datatype Provenance = Provenance(
    sourceRegion: string, profileId: string, requestId: string, completedAt: int,
    promptDigest: Digest, answerDigest: Digest)
  datatype AnswerCandidate = AnswerCandidate(
    traceId: string, manifestId: Digest, provenance: Provenance, text: Text, sourceRefs: seq<SourceRef>)
  datatype Receipt = Receipt(
    sourceId: string, contentDigest: Digest, resource: string, organization: string,
    domain: string, origin: string, capturedAt: int)
  datatype Source = Source(receipt: Receipt, text: Text)
  datatype Span = Span(sourceId: string, start: int, end: int)
  datatype Claim = Claim(id: string, start: int, end: int, support: seq<Span>)
  datatype Package = Package(
    candidate: AnswerCandidate, contextDigest: Digest, sources: seq<Source>, claims: seq<Claim>)

  datatype InputDecision = InputDecision(ok: bool, allow: bool, traceId: string, manifestId: Digest)
  datatype CandidateContext = CandidateContext(
    inputDecision: InputDecision, invocation: Provenance, sourceReceipts: seq<SourceRef>)
  datatype EvidenceContext = EvidenceContext(candidateContext: CandidateContext, evidenceReceipts: seq<Receipt>)

  // ---------- signed envelopes and the log ----------

  datatype Kind = SnapshotKind | ReviewKind

  /** A payload that is neither a snapshot nor a review record fails its schema; a string stands for it,
      which carries no decision and no assessment. */
  datatype Payload = SnapshotPayload(snapshot: Snapshot) | ReviewPayload(record: ReviewRecord) | OtherPayload(content: string)

  datatype Unsigned = Unsigned(
    kind: Kind, keyId: string, organization: string, artifactId: string, revision: int,
    issuedAt: int, expiresAt: int, payload: Payload)
  datatype SignedArtifact = SignedArtifact(unsigned: Unsigned, signature: string)

  datatype TrustedKey = TrustedKey(
    id: string, organization: string, principal: string, publicKeyPem: string,
    purposes: seq<Kind>, notBefore: int, expiresAt: int)

  datatype Event =
    | ArtifactEvent(now: int, artifact: SignedArtifact, subjectHash: Option<Digest>)
    | RevokeKeyEvent(now: int, keyId: string)
    | RevokeArtifactEvent(now: int, kind: Kind, artifactId: string)

  /** SHA-256 over canonical JSON as a free constructor per kind of value, so that equal digests mean equal
      values. The half that is the program's own, that canonical text determines the value, is proved in
      CanonicalTheorems for JSON and in EncodedValues and EncodedSubjects for the values here. A link of the
      log hashes whatever JSON a row holds, so it carries that JSON's canonical text. */
  datatype Digest =
    | DraftPolicyDigest
    | TextDigest(text: Text)
    | SubjectDigest(subject: Subject)
    | PackageDigest(pkg: Package)
    | SnapshotDigest(snapshot: Snapshot)
    | EnvelopeDigest(unsigned: Unsigned)
    | ContextDigest(context: EvidenceContext)
    | TrustDigest(keys: seq<TrustedKey>)
    | SeedDigest(organization: string, trustDigest: Digest)
    | LinkDigest(previous: Digest, sequence: int, event: CanonicalJson.Units)
    | UnknownDigest(hex: string)
    | Malformed(raw: string)
  {
    /** `/^sha256:[a-f0-9]{64}$/` */
    predicate WellFormed() { !Malformed? }
  }

  /** Everything the engine calls but does not define: public-key parsing, signature verification, the active
      manifest, the legacy output gate, and events as the JSON values that the history store keeps. */
  datatype World = World(
    ed25519: string -> bool,
    verifies: (string, Unsigned, string) -> bool,
    manifestId: Digest,
    admissible: (InputDecision, Text) -> bool,
    jsonOf: Event -> CanonicalJson.Json,
    eventOf: CanonicalJson.Json -> Option<Event>)

  // ---------- the draft policy matrix ----------

  const DRAFT_POLICY_VERSION := "skillspring.access-review-policy.draft.v1"

  function ModeRoles(mode: Mode): seq<Role> {
    match mode
    case DefaultMode => [User, DomainReviewer, GovernanceOfficer, EngineeringMaintainer, AccessAdministrator]
    case GovernanceMode => [DomainReviewer, GovernanceOfficer]
    case ArchitectMode => [EngineeringMaintainer]
  }

  function ModeClasses(mode: Mode): seq<ResourceClass> {
    match mode
    case DefaultMode => [Public]
    case GovernanceMode => [Public, DomainRestricted]
    case ArchitectMode => [Public, EngineeringSandbox]
  }

  function ModeOperations(mode: Mode): seq<Operation> {
    match mode
    case DefaultMode => [Read, RequestReview]
    case GovernanceMode => [Read, RequestReview, ReviewEvidence, ReviewRelease]
    case ArchitectMode => [Read, RequestReview, Test, Debug, ProposeChange, ReviewRelease]
  }

  function ReviewerRoles(mode: Mode): seq<Role> {
    match mode
    case DefaultMode => [DomainReviewer]
    case GovernanceMode => [DomainReviewer, GovernanceOfficer]
    case ArchitectMode => [EngineeringMaintainer, GovernanceOfficer]
  }

  // ---------- schemas ----------

  predicate Short(s: string, limit: nat) { 1 <= |s| <= limit }
  predicate Names(s: seq<string>) { 1 <= |s| <= 128 && Unique(s) && forall x | x in s :: Short(x, 256) }
  predicate Some128<T(==)>(s: seq<T>) { 1 <= |s| <= 128 && Unique(s) }

  predicate ValidRequest(r: Request) {
    && Short(r.actor, 256) && Short(r.domain, 256) && Short(r.resource, 256) && Short(r.purpose, 256)
    && Short(r.environment, 256) && Short(r.organization, 256) && r.policyDigest.WellFormed()
  }

  predicate ValidSubject(s: Subject) {
    && Short(s.domain, 256) && Short(s.resource, 256) && Names(s.audience)
    && Short(s.requester, 256) && Short(s.producer, 256) && Short(s.policyVersion, 256)
    && Short(s.organization, 256) && Short(s.purpose, 256) && Short(s.environment, 256)
    && s.policyDigest.WellFormed()
  }

  predicate ValidAssessment(a: Assessment) {
    && a.packageDigest.WellFormed() && a.answerDigest.WellFormed() && |a.claimChecks| <= 64
    && forall c | c in a.claimChecks :: Short(c.claimId, 128)
  }

  predicate ValidRecord(r: ReviewRecord) {
    && Short(r.id, 256) && Short(r.reviewer, 256) && r.subjectHash.WellFormed()
    && 0 <= r.reviewedAt && 0 <= r.expiresAt
    && (r.assessment.Some? ==> ValidAssessment(r.assessment.value))
  }

  predicate ValidRecords(rs: seq<ReviewRecord>) {
    |rs| <= 256 && forall r | r in rs :: ValidRecord(r)
  }

  predicate ValidPrincipal(p: Principal) { Short(p.id, 256) && Some128(p.roles) && Names(p.domains) }
  predicate ValidResource(r: Resource) { Short(r.id, 256) && Short(r.domain, 256) && Short(r.environment, 256) }
  predicate ValidClearance(c: Clearance) {
    && Short(c.id, 256) && Short(c.subject, 256) && Short(c.issuer, 256) && Short(c.domain, 256)
    && Some128(c.modes) && Names(c.resources) && Some128(c.operations)
    && 0 <= c.issuedAt && 0 <= c.expiresAt && Names(c.purposes) && Names(c.environments)
  }
  predicate ValidMandate(m: Mandate) {
    Short(m.issuer, 256) && Names(m.domains) && Some128(m.roles) && Some128(m.modes)
  }
  predicate ValidDenial(d: Denial) {
    && Short(d.id, 256) && Names(d.actors) && Names(d.domains) && Names(d.resources)
    && Some128(d.modes) && Some128(d.operations) && Names(d.purposes) && Names(d.environments)
  }

  predicate ValidSnapshot(s: Snapshot) {
    && Short(s.id, 256) && Short(s.organization, 256) && s.policyDigest.WellFormed()
    && 0 <= s.issuedAt && 0 <= s.expiresAt
    && |s.principals| <= 256 && (forall x | x in s.principals :: ValidPrincipal(x))
    && |s.resources| <= 256 && (forall x | x in s.resources :: ValidResource(x))
    && |s.clearances| <= 256 && (forall x | x in s.clearances :: ValidClearance(x))
    && |s.mandates| <= 256 && (forall x | x in s.mandates :: ValidMandate(x))
    && |s.denials| <= 256 && (forall x | x in s.denials :: ValidDenial(x))
  }

  predicate ValidEnvelope(u: Unsigned, signature: string) {
    && Short(u.keyId, 128) && Short(u.organization, 256) && Short(u.artifactId, 256)
    && 1 <= u.revision <= MAX_SAFE_INTEGER && 0 <= u.issuedAt <= MAX_SAFE_INTEGER
    && 0 <= u.expiresAt <= MAX_SAFE_INTEGER && ValidSignatureText(signature)
  }

  /** 86 base64 characters and `==` */
  predicate ValidSignatureText(s: string) {
    && |s| == 88 && s[86..] == "=="
    && forall i | 0 <= i < 86 :: 'A' <= s[i] <= 'Z' || 'a' <= s[i] <= 'z' || '0' <= s[i] <= '9' || s[i] == '+' || s[i] == '/'
  }

  function PrincipalIds(s: seq<Principal>): seq<string> { seq(|s|, i requires 0 <= i < |s| => s[i].id) }
  function ResourceIds(s: seq<Resource>): seq<string> { seq(|s|, i requires 0 <= i < |s| => s[i].id) }
  function ClearanceIds(s: seq<Clearance>): seq<string> { seq(|s|, i requires 0 <= i < |s| => s[i].id) }
  function DenialIds(s: seq<Denial>): seq<string> { seq(|s|, i requires 0 <= i < |s| => s[i].id) }
  function RecordIds(s: seq<ReviewRecord>): seq<string> { seq(|s|, i requires 0 <= i < |s| => s[i].id) }

  predicate UniqueSnapshotIds(s: Snapshot) {
    && Unique(PrincipalIds(s.principals)) && Unique(ResourceIds(s.resources))
    && Unique(ClearanceIds(s.clearances)) && Unique(DenialIds(s.denials))
  }

  /** Why an operation answered as it did. */
  datatype Reason =
    | InvalidOrRolledBackClock | InvalidEnvelope | OrganizationMismatch | UntrustedSigner | KeyRevoked
    | ArtifactRevoked | OutsideValidityWindow | InvalidSignature | InvalidSnapshotPayload | InvalidReviewPayload
    | RevisionRollback | RevisionConflict
    | InvalidHistoryEvent | InvalidSubjectHash | ReviewIdentityConflict
    | StoreUnavailableOrCorrupt | Recorded
    | InvalidRequest | InvalidOrStaleSnapshot | ScopeOrPolicyMismatch | ExplicitDenial | InvalidContext
    | UnknownPrincipalOrResource | ProtectedResource | DomainMismatch | ModeScopeDenied | RoleDenied
    | ClearanceRequired | WithinExplicitClearance
    | InvalidReviewContract | AudienceAccessDenied | ResourceDenied | ReviewRejected | QualifiedReviewRequired
    | ReviewCompleteNotReleaseAuthority | CandidateReviewCompleteNotReleaseAuthority
    | UseCandidateReviewBoundary | AudienceEvidenceAccessDenied | InvalidReviewBatch
    | InvalidReviewTime | InvalidCandidateReviewPackage | CandidateRejected(code: Reason)
    | InvalidContract | InputNotAllowed | BindingMismatch | ProvenanceMismatch | AnswerHashMismatch | EvidenceMismatch
    | CandidateContextMismatch | FutureCandidate | CandidateOutputRefused | InvalidSourceReceipts | DuplicateSource
    | SourceSetMismatch | SourceReceiptMismatch | SourceScopeMismatch | FutureSource | SourceContentMismatch
    | DuplicateClaim | InvalidClaimSpan | OverlappingClaims | DuplicateSupport | UnknownSupportSource
    | InvalidSupportSpan | UncoveredAnswerText | UnusedSource
    | SignedCandidateAssessmentRequired | AssessmentBindingMismatch | AssessmentPredatesContent | AssessmentClaimMismatch
    | InvalidAssessment | InvalidTestReviewer | SubjectChanged | ClaimSetMismatch | ReviewChangedRefreshRequired

  /** A yes/no answer with its reason code. */
  datatype Verdict = Verdict(yes: bool, reason: Reason)
}
