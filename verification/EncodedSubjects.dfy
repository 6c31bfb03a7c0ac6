/** Candidate packages, review subjects and trusted keys as JSON, and that each is determined by its canonical text. */
module EncodedSubjects {
  import opened PolicyTypes
  import opened CanonicalJson
  import opened CanonicalTheorems
  import opened JsonEncoding

  function AnswerVersion(): string { "skillspring.generated-answer-candidate.v1" }
  function PackageVersion(): string { "skillspring.candidate-review-package.draft.v1" }

  // ---------- candidate packages ----------

  function ReferenceNames(): seq<string> { ["source_id", "content_sha256"] }

  function ReferenceFields(sp: Spelling, x: SourceRef): seq<Json> {
    [String(x.sourceId), Spelled(sp.digest(x.contentDigest))]
  }

  function ReferenceJson(sp: Spelling, x: SourceRef): Json { Object(ReferenceNames(), ReferenceFields(sp, x)) }

  lemma ReferenceUnique(sp: Spelling, x: SourceRef)
    ensures UniqueKeys(ReferenceJson(sp, x))
  {
    hide Key, String, Spelled, Number, Truth, Either, Strings, Kinds, Array, Object;
    Scalars();
    ObjectUnique(ReferenceNames(), ReferenceFields(sp, x));
  }

  lemma ReferencesDiffer(sp: Spelling, a: SourceRef, b: SourceRef)
    requires Same(ReferenceJson(sp, a), ReferenceJson(sp, b)) && Distinguishes(sp)
    ensures a == b
  {
    hide Key, String, Strings, Kinds, Array, Object, Either, ModeWord, CodeUnits;
    StringsDiffer();
    var vs, ws := ReferenceFields(sp, a), ReferenceFields(sp, b);
    SameObjects(ReferenceNames(), vs, ws);
    assert Same(vs[0], ws[0]) && Same(vs[1], ws[1]);
  }

  function ReferenceList(sp: Spelling, s: seq<SourceRef>): seq<Json> { seq(|s|, i requires 0 <= i < |s| => ReferenceJson(sp, s[i])) }

  lemma ReferenceListUnique(sp: Spelling, s: seq<SourceRef>)
    ensures UniqueKeys(Array(ReferenceList(sp, s)))
  {
    hide ReferenceJson;
    forall i | 0 <= i < |s| ensures UniqueKeys(ReferenceList(sp, s)[i]) { ReferenceUnique(sp, s[i]); }
    ArrayUnique(ReferenceList(sp, s));
  }

  lemma ReferenceListDiffer(sp: Spelling, a: seq<SourceRef>, b: seq<SourceRef>)
    requires Same(Array(ReferenceList(sp, a)), Array(ReferenceList(sp, b))) && Distinguishes(sp)
    ensures a == b
  {
    SameArrays(ReferenceList(sp, a), ReferenceList(sp, b));
    forall i | 0 <= i < |a| ensures a[i] == b[i] {
      assert Same(ReferenceList(sp, a)[i], ReferenceList(sp, b)[i]);
      ReferencesDiffer(sp, a[i], b[i]);
    }
  }

  function ProvenanceNames(): seq<string> {
    ["provider", "source_region", "inference_profile_id", "request_id", "completed_at", "stop_reason",
     "prompt_sha256", "answer_sha256"]
  }

  function ProvenanceFields(sp: Spelling, x: Provenance): seq<Json> {
    [String("AWS_BEDROCK"), String(x.sourceRegion), String(x.profileId), String(x.requestId),
     Spelled(sp.date(x.completedAt)), String("end_turn"), Spelled(sp.digest(x.promptDigest)),
     Spelled(sp.digest(x.answerDigest))]
  }

  function ProvenanceJson(sp: Spelling, x: Provenance): Json { Object(ProvenanceNames(), ProvenanceFields(sp, x)) }

  lemma ProvenanceUnique(sp: Spelling, x: Provenance)
    ensures UniqueKeys(ProvenanceJson(sp, x))
  {
    hide Key, String, Spelled, Number, Truth, Either, Strings, Kinds, Array, Object;
    Scalars();
    ObjectUnique(ProvenanceNames(), ProvenanceFields(sp, x));
  }

  lemma ProvenancesDiffer(sp: Spelling, a: Provenance, b: Provenance)
    requires Same(ProvenanceJson(sp, a), ProvenanceJson(sp, b)) && Distinguishes(sp)
    ensures a == b
  {
    hide Key, String, Strings, Kinds, Array, Object, Either, ModeWord, CodeUnits;
    StringsDiffer();
    var vs, ws := ProvenanceFields(sp, a), ProvenanceFields(sp, b);
    SameObjects(ProvenanceNames(), vs, ws);
    assert Same(vs[0], ws[0]) && Same(vs[1], ws[1]) && Same(vs[2], ws[2]) && Same(vs[3], ws[3]) &&
      Same(vs[4], ws[4]) && Same(vs[5], ws[5]) && Same(vs[6], ws[6]) && Same(vs[7], ws[7]);
  }

  function SpanNames(): seq<string> { ["source_id", "start", "end"] }

  function SpanFields(x: Span): seq<Json> {
    [String(x.sourceId), Number(x.start), Number(x.end)]
  }

  function SpanJson(x: Span): Json { Object(SpanNames(), SpanFields(x)) }

  lemma SpanUnique(x: Span)
    ensures UniqueKeys(SpanJson(x))
  {
    hide Key, String, Spelled, Number, Truth, Either, Strings, Kinds, Array, Object;
    Scalars();
    ObjectUnique(SpanNames(), SpanFields(x));
  }

  lemma SpansDiffer(a: Span, b: Span)
    requires Same(SpanJson(a), SpanJson(b))
    ensures a == b
  {
    hide Key, String, Strings, Kinds, Array, Object, Either, ModeWord, CodeUnits;
    StringsDiffer();
    var vs, ws := SpanFields(a), SpanFields(b);
    SameObjects(SpanNames(), vs, ws);
    assert Same(vs[0], ws[0]) && Same(vs[1], ws[1]) && Same(vs[2], ws[2]);
  }

  function SpanList(s: seq<Span>): seq<Json> { seq(|s|, i requires 0 <= i < |s| => SpanJson(s[i])) }

  lemma SpanListUnique(s: seq<Span>)
    ensures UniqueKeys(Array(SpanList(s)))
  {
    hide SpanJson;
    forall i | 0 <= i < |s| ensures UniqueKeys(SpanList(s)[i]) { SpanUnique(s[i]); }
    ArrayUnique(SpanList(s));
  }

  lemma SpanListDiffer(a: seq<Span>, b: seq<Span>)
    requires Same(Array(SpanList(a)), Array(SpanList(b)))
    ensures a == b
  {
    SameArrays(SpanList(a), SpanList(b));
    forall i | 0 <= i < |a| ensures a[i] == b[i] {
      assert Same(SpanList(a)[i], SpanList(b)[i]);
      SpansDiffer(a[i], b[i]);
    }
  }

  function ClaimNames(): seq<string> { ["id", "start", "end", "support"] }

  function ClaimFields(x: Claim): seq<Json> {
    [String(x.id), Number(x.start), Number(x.end), Array(SpanList(x.support))]
  }

  function ClaimJson(x: Claim): Json { Object(ClaimNames(), ClaimFields(x)) }

  lemma ClaimUnique(x: Claim)
    ensures UniqueKeys(ClaimJson(x))
  {
    hide Key, String, Spelled, Number, Truth, Either, Strings, Kinds, Array, Object;
    Scalars();
    SpanListUnique(x.support);
    ObjectUnique(ClaimNames(), ClaimFields(x));
  }

  lemma ClaimsDiffer(a: Claim, b: Claim)
    requires Same(ClaimJson(a), ClaimJson(b))
    ensures a == b
  {
    hide Key, String, Strings, Kinds, Array, Object, Either, ModeWord, CodeUnits;
    StringsDiffer();
    var vs, ws := ClaimFields(a), ClaimFields(b);
    SameObjects(ClaimNames(), vs, ws);
    assert Same(vs[0], ws[0]) && Same(vs[1], ws[1]) && Same(vs[2], ws[2]) && Same(vs[3], ws[3]);
    SpanListDiffer(a.support, b.support);
  }

  function ClaimList(s: seq<Claim>): seq<Json> { seq(|s|, i requires 0 <= i < |s| => ClaimJson(s[i])) }

  lemma ClaimListUnique(s: seq<Claim>)
    ensures UniqueKeys(Array(ClaimList(s)))
  {
    hide ClaimJson;
    forall i | 0 <= i < |s| ensures UniqueKeys(ClaimList(s)[i]) { ClaimUnique(s[i]); }
    ArrayUnique(ClaimList(s));
  }

  lemma ClaimListDiffer(a: seq<Claim>, b: seq<Claim>)
    requires Same(Array(ClaimList(a)), Array(ClaimList(b)))
    ensures a == b
  {
    SameArrays(ClaimList(a), ClaimList(b));
    forall i | 0 <= i < |a| ensures a[i] == b[i] {
      assert Same(ClaimList(a)[i], ClaimList(b)[i]);
      ClaimsDiffer(a[i], b[i]);
    }
  }

  function SourceNames(): seq<string> {
    ["source_id", "content_sha256", "resource", "organization", "domain", "origin", "captured_at", "text"]
  }

  function SourceFields(sp: Spelling, x: Source): seq<Json> {
    [String(x.receipt.sourceId), Spelled(sp.digest(x.receipt.contentDigest)), String(x.receipt.resource),
     String(x.receipt.organization), String(x.receipt.domain), String(x.receipt.origin),
     Spelled(sp.date(x.receipt.capturedAt)), Spelled(CodeUnits(x.text))]
  }

  function SourceJson(sp: Spelling, x: Source): Json { Object(SourceNames(), SourceFields(sp, x)) }

  lemma SourceUnique(sp: Spelling, x: Source)
    ensures UniqueKeys(SourceJson(sp, x))
  {
    hide Key, String, Spelled, Number, Truth, Either, Strings, Kinds, Array, Object;
    Scalars();
    ObjectUnique(SourceNames(), SourceFields(sp, x));
  }

  lemma SourcesDiffer(sp: Spelling, a: Source, b: Source)
    requires Same(SourceJson(sp, a), SourceJson(sp, b)) && Distinguishes(sp)
    requires Proper(a.text) && Proper(b.text)
    ensures a == b
  {
    hide Key, String, Strings, Kinds, Array, Object, Either, ModeWord, CodeUnits;
    StringsDiffer();
    var vs, ws := SourceFields(sp, a), SourceFields(sp, b);
    SameObjects(SourceNames(), vs, ws);
    assert Same(vs[0], ws[0]) && Same(vs[1], ws[1]) && Same(vs[2], ws[2]) && Same(vs[3], ws[3]) &&
      Same(vs[4], ws[4]) && Same(vs[5], ws[5]) && Same(vs[6], ws[6]) && Same(vs[7], ws[7]);
    CodeUnitsDiffer(a.text, b.text);
  }

  function SourceList(sp: Spelling, s: seq<Source>): seq<Json> { seq(|s|, i requires 0 <= i < |s| => SourceJson(sp, s[i])) }

  lemma SourceListUnique(sp: Spelling, s: seq<Source>)
    ensures UniqueKeys(Array(SourceList(sp, s)))
  {
    hide SourceJson;
    forall i | 0 <= i < |s| ensures UniqueKeys(SourceList(sp, s)[i]) { SourceUnique(sp, s[i]); }
    ArrayUnique(SourceList(sp, s));
  }

  lemma SourceListDiffer(sp: Spelling, a: seq<Source>, b: seq<Source>)
    requires Same(Array(SourceList(sp, a)), Array(SourceList(sp, b))) && Distinguishes(sp)
    requires (forall x | x in a :: Proper(x.text)) && (forall x | x in b :: Proper(x.text))
    ensures a == b
  {
    SameArrays(SourceList(sp, a), SourceList(sp, b));
    forall i | 0 <= i < |a| ensures a[i] == b[i] {
      assert Same(SourceList(sp, a)[i], SourceList(sp, b)[i]);
      SourcesDiffer(sp, a[i], b[i]);
    }
  }

  function AnswerTextJson(x: AnswerCandidate): Json {
    Object(["text", "purpose"], [Spelled(CodeUnits(x.text)), String("INFORMATIONAL_DRAFT")])
  }

  lemma AnswerTextUnique(x: AnswerCandidate)
    ensures UniqueKeys(AnswerTextJson(x))
  {
    hide Key, String, Spelled;
    Scalars();
    ObjectUnique(["text", "purpose"], [Spelled(CodeUnits(x.text)), String("INFORMATIONAL_DRAFT")]);
  }

  lemma AnswerTextsDiffer(a: AnswerCandidate, b: AnswerCandidate)
    requires Same(AnswerTextJson(a), AnswerTextJson(b)) && Proper(a.text) && Proper(b.text)
    ensures a.text == b.text
  {
    hide Key, String, Object, CodeUnits;
    var vs, ws := [Spelled(CodeUnits(a.text)), String("INFORMATIONAL_DRAFT")], [Spelled(CodeUnits(b.text)), String("INFORMATIONAL_DRAFT")];
    SameObjects(["text", "purpose"], vs, ws);
    assert Same(vs[0], ws[0]);
    CodeUnitsDiffer(a.text, b.text);
  }

  function EvidenceJson(sp: Spelling, x: AnswerCandidate): Json {
    Object(["verification", "source_refs"], [String("UNVERIFIED"), Array(ReferenceList(sp, x.sourceRefs))])
  }

  lemma EvidenceUnique(sp: Spelling, x: AnswerCandidate)
    ensures UniqueKeys(EvidenceJson(sp, x))
  {
    hide Key, String, Array;
    Scalars();
    ReferenceListUnique(sp, x.sourceRefs);
    ObjectUnique(["verification", "source_refs"], [String("UNVERIFIED"), Array(ReferenceList(sp, x.sourceRefs))]);
  }

  lemma EvidencesDiffer(sp: Spelling, a: AnswerCandidate, b: AnswerCandidate)
    requires Same(EvidenceJson(sp, a), EvidenceJson(sp, b)) && Distinguishes(sp)
    ensures a.sourceRefs == b.sourceRefs
  {
    hide Key, String, Object, Array;
    var vs, ws := [String("UNVERIFIED"), Array(ReferenceList(sp, a.sourceRefs))], [String("UNVERIFIED"), Array(ReferenceList(sp, b.sourceRefs))];
    SameObjects(["verification", "source_refs"], vs, ws);
    assert Same(vs[1], ws[1]);
    ReferenceListDiffer(sp, a.sourceRefs, b.sourceRefs);
  }

  function PendingJson(): Json {
    Object(["authority_claims", "output_admissibility"], [String("PENDING"), String("PENDING")])
  }

  lemma PendingUnique()
    ensures UniqueKeys(PendingJson())
  {
    hide Key, String;
    Scalars();
    ObjectUnique(["authority_claims", "output_admissibility"], [String("PENDING"), String("PENDING")]);
  }

  function AnswerNames(): seq<string> {
    ["schema_version", "kind", "trace_id", "governance_manifest_id", "provenance", "answer", "evidence", "review",
     "release_authorized"]
  }

  function AnswerFields(sp: Spelling, x: AnswerCandidate): seq<Json> {
    [String(AnswerVersion()), String("GENERATED_ANSWER_CANDIDATE"), String(x.traceId),
     Spelled(sp.digest(x.manifestId)), ProvenanceJson(sp, x.provenance), AnswerTextJson(x), EvidenceJson(sp, x),
     PendingJson(), Truth(false)]
  }

  function AnswerJson(sp: Spelling, x: AnswerCandidate): Json { Object(AnswerNames(), AnswerFields(sp, x)) }

  lemma AnswerUnique(sp: Spelling, x: AnswerCandidate)
    ensures UniqueKeys(AnswerJson(sp, x))
  {
    hide Key, String, Spelled, Number, Truth, Either, Strings, Kinds, Array, Object, ProvenanceJson, AnswerTextJson,
      EvidenceJson, PendingJson;
    Scalars();
    ProvenanceUnique(sp, x.provenance);
    AnswerTextUnique(x);
    EvidenceUnique(sp, x);
    PendingUnique();
    ObjectUnique(AnswerNames(), AnswerFields(sp, x));
  }

  lemma AnswersDiffer(sp: Spelling, a: AnswerCandidate, b: AnswerCandidate)
    requires Same(AnswerJson(sp, a), AnswerJson(sp, b)) && Distinguishes(sp)
    requires Proper(a.text) && Proper(b.text)
    ensures a == b
  {
    hide Key, String, Strings, Kinds, Array, Object, Either, ModeWord, CodeUnits, ProvenanceJson, AnswerTextJson,
      EvidenceJson, PendingJson, Proper;
    StringsDiffer();
    var vs, ws := AnswerFields(sp, a), AnswerFields(sp, b);
    SameObjects(AnswerNames(), vs, ws);
    assert Same(vs[0], ws[0]) && Same(vs[1], ws[1]) && Same(vs[2], ws[2]) && Same(vs[3], ws[3]) &&
      Same(vs[4], ws[4]) && Same(vs[5], ws[5]) && Same(vs[6], ws[6]) && Same(vs[7], ws[7]) && Same(vs[8], ws[8]);
    ProvenancesDiffer(sp, a.provenance, b.provenance);
    AnswerTextsDiffer(a, b);
    EvidencesDiffer(sp, a, b);
  }

  /** The texts of a package are strings taken apart into code points. */
  ghost predicate ProperTexts(p: Package) {
    Proper(p.candidate.text) && forall x | x in p.sources :: Proper(x.text)
  }

  function PackageNames(): seq<string> { ["schema_version", "requirements", "candidate", "context_sha256", "sources", "claims"] }

  function PackageFields(sp: Spelling, x: Package): seq<Json> {
    [String(PackageVersion()), String("sourced-informational-review-v1"), AnswerJson(sp, x.candidate),
     Spelled(sp.digest(x.contextDigest)), Array(SourceList(sp, x.sources)), Array(ClaimList(x.claims))]
  }

  function PackageJson(sp: Spelling, x: Package): Json { Object(PackageNames(), PackageFields(sp, x)) }

  lemma PackageUnique(sp: Spelling, x: Package)
    ensures UniqueKeys(PackageJson(sp, x))
  {
    hide Key, String, Spelled, Number, Truth, Either, Strings, Kinds, Array, Object, AnswerJson, SourceList, ClaimList;
    Scalars();
    AnswerUnique(sp, x.candidate);
    SourceListUnique(sp, x.sources);
    ClaimListUnique(x.claims);
    ObjectUnique(PackageNames(), PackageFields(sp, x));
  }

  lemma PackagesDiffer(sp: Spelling, a: Package, b: Package)
    requires Same(PackageJson(sp, a), PackageJson(sp, b)) && Distinguishes(sp)
    requires ProperTexts(a) && ProperTexts(b)
    ensures a == b
  {
    hide Key, String, Strings, Kinds, Array, Object, Either, ModeWord, CodeUnits, AnswerJson, SourceList, ClaimList;
    StringsDiffer();
    var vs, ws := PackageFields(sp, a), PackageFields(sp, b);
    SameObjects(PackageNames(), vs, ws);
    assert Same(vs[0], ws[0]) && Same(vs[1], ws[1]) && Same(vs[2], ws[2]) && Same(vs[3], ws[3]) &&
      Same(vs[4], ws[4]) && Same(vs[5], ws[5]);
    AnswersDiffer(sp, a.candidate, b.candidate);
    SourceListDiffer(sp, a.sources, b.sources);
    ClaimListDiffer(a.claims, b.claims);
  }

  // ---------- review subjects ----------

  /** A candidate that is no package is some other JSON object. */
  function CandidateJson(sp: Spelling, c: Candidate): Json {
    match c
    case PackageCandidate(p) => PackageJson(sp, p)
    case OtherCandidate(claims, content) =>
      Object(["schema_version", "content"], [Either(claims, PackageVersion(), ""), String(content)])
  }

  ghost predicate ProperCandidate(c: Candidate) {
    c.PackageCandidate? ==> ProperTexts(c.pkg)
  }

  lemma CandidateUnique(sp: Spelling, c: Candidate)
    ensures UniqueKeys(CandidateJson(sp, c))
  {
    hide Key, String, Either;
    Scalars();
    match c
    case PackageCandidate(p) => PackageUnique(sp, p);
    case OtherCandidate(claims, content) =>
      ObjectUnique(["schema_version", "content"], [Either(claims, PackageVersion(), ""), String(content)]);
  }

  lemma CandidatesDiffer(sp: Spelling, a: Candidate, b: Candidate)
    requires Same(CandidateJson(sp, a), CandidateJson(sp, b)) && Distinguishes(sp) && ProperCandidate(a) && ProperCandidate(b)
    ensures a == b
  {
    hide Key, String, Either, Object, PackageFields;
    var names := ["schema_version", "content"];
    match (a, b)
    case (PackageCandidate(p), PackageCandidate(q)) => PackagesDiffer(sp, p, q);
    case (OtherCandidate(c, s), OtherCandidate(d, r)) =>
      var vs, ws := [Either(c, PackageVersion(), ""), String(s)], [Either(d, PackageVersion(), ""), String(r)];
      SameObjects(names, vs, ws);
      assert Same(vs[0], ws[0]) && Same(vs[1], ws[1]);
      StringsDiffer();
      EitherDiffers(c, d, PackageVersion(), "");
    case (PackageCandidate(p), OtherCandidate(d, r)) => PackageIsNoOther(sp, p, d, r);
    case (OtherCandidate(c, s), PackageCandidate(q)) => PackageIsNoOther(sp, q, c, s);
  }

  lemma PackageIsNoOther(sp: Spelling, p: Package, claims: bool, content: string)
    ensures !Same(PackageJson(sp, p), CandidateJson(sp, OtherCandidate(claims, content)))
    ensures !Same(CandidateJson(sp, OtherCandidate(claims, content)), PackageJson(sp, p))
  {
    hide Key, String, Either, Object;
    var names, vs, ws := ["schema_version", "content"], [Either(claims, PackageVersion(), ""), String(content)], PackageFields(sp, p);
    assert names[1] == "content" && "content" !in PackageNames();
    if Same(PackageJson(sp, p), CandidateJson(sp, OtherCandidate(claims, content))) { SameNames(PackageNames(), ws, names, vs, "content"); }
    if Same(CandidateJson(sp, OtherCandidate(claims, content)), PackageJson(sp, p)) { SameNames(names, vs, PackageNames(), ws, "content"); }
  }

  function SubjectNames(): seq<string> {
    ["candidate", "accessMode", "domain", "resource", "audience", "requester", "producer", "policyVersion", "purpose",
     "environment", "organization", "policy_digest"]
  }

  function SubjectFields(sp: Spelling, x: Subject): seq<Json> {
    [CandidateJson(sp, x.candidate), String(ModeWord(x.mode)), String(x.domain), String(x.resource),
     Strings(x.audience), String(x.requester), String(x.producer), String(x.policyVersion), String(x.purpose),
     String(x.environment), String(x.organization), Spelled(sp.digest(x.policyDigest))]
  }

  function SubjectJson(sp: Spelling, x: Subject): Json { Object(SubjectNames(), SubjectFields(sp, x)) }

  lemma SubjectUnique(sp: Spelling, x: Subject)
    ensures UniqueKeys(SubjectJson(sp, x))
  {
    hide Key, String, Spelled, Number, Truth, Either, Strings, Kinds, Array, Object, CandidateJson;
    Scalars();
    CandidateUnique(sp, x.candidate);
    StringsUnique(x.audience);
    ObjectUnique(SubjectNames(), SubjectFields(sp, x));
  }

  lemma SubjectsDiffer(sp: Spelling, a: Subject, b: Subject)
    requires Same(SubjectJson(sp, a), SubjectJson(sp, b)) && Distinguishes(sp)
    requires ProperCandidate(a.candidate) && ProperCandidate(b.candidate)
    ensures a == b
  {
    hide Key, String, Strings, Kinds, Array, Object, Either, ModeWord, CodeUnits, CandidateJson, ProperCandidate;
    StringsDiffer();
    var vs, ws := SubjectFields(sp, a), SubjectFields(sp, b);
    SameObjects(SubjectNames(), vs, ws);
    assert Same(vs[0], ws[0]) && Same(vs[1], ws[1]) && Same(vs[2], ws[2]) && Same(vs[3], ws[3]) &&
      Same(vs[4], ws[4]) && Same(vs[5], ws[5]) && Same(vs[6], ws[6]) && Same(vs[7], ws[7]) && Same(vs[8], ws[8]) &&
      Same(vs[9], ws[9]) && Same(vs[10], ws[10]) && Same(vs[11], ws[11]);
    CandidatesDiffer(sp, a.candidate, b.candidate);
    ModeWordsDiffer(a.mode, b.mode);
    StringListsDiffer(a.audience, b.audience);
  }

  // ---------- trusted keys ----------

  function KeyNames(): seq<string> { ["id", "organization", "principal", "publicKeyPem", "purposes", "notBefore", "expiresAt"] }

  function KeyFields(x: TrustedKey): seq<Json> {
    [String(x.id), String(x.organization), String(x.principal), String(x.publicKeyPem), Kinds(x.purposes),
     Number(x.notBefore), Number(x.expiresAt)]
  }

  function KeyJson(x: TrustedKey): Json { Object(KeyNames(), KeyFields(x)) }

  lemma KeyUnique(x: TrustedKey)
    ensures UniqueKeys(KeyJson(x))
  {
    hide Key, String, Spelled, Number, Truth, Either, Strings, Kinds, Array, Object;
    Scalars();
    KindsUnique(x.purposes);
    ObjectUnique(KeyNames(), KeyFields(x));
  }

  lemma KeysDiffer(a: TrustedKey, b: TrustedKey)
    requires Same(KeyJson(a), KeyJson(b))
    ensures a == b
  {
    hide Key, String, Strings, Kinds, Array, Object, Either, ModeWord, CodeUnits;
    StringsDiffer();
    var vs, ws := KeyFields(a), KeyFields(b);
    SameObjects(KeyNames(), vs, ws);
    assert Same(vs[0], ws[0]) && Same(vs[1], ws[1]) && Same(vs[2], ws[2]) && Same(vs[3], ws[3]) &&
      Same(vs[4], ws[4]) && Same(vs[5], ws[5]) && Same(vs[6], ws[6]);
    KindsDiffer(a.purposes, b.purposes);
  }

  function KeyList(s: seq<TrustedKey>): seq<Json> { seq(|s|, i requires 0 <= i < |s| => KeyJson(s[i])) }

  lemma KeyListUnique(s: seq<TrustedKey>)
    ensures UniqueKeys(Array(KeyList(s)))
  {
    hide KeyJson;
    forall i | 0 <= i < |s| ensures UniqueKeys(KeyList(s)[i]) { KeyUnique(s[i]); }
    ArrayUnique(KeyList(s));
  }

  lemma KeyListDiffer(a: seq<TrustedKey>, b: seq<TrustedKey>)
    requires Same(Array(KeyList(a)), Array(KeyList(b)))
    ensures a == b
  {
    SameArrays(KeyList(a), KeyList(b));
    forall i | 0 <= i < |a| ensures a[i] == b[i] {
      assert Same(KeyList(a)[i], KeyList(b)[i]);
      KeysDiffer(a[i], b[i]);
    }
  }

  // ---------- canonical text ----------

  lemma SubjectTextDetermines(sp: Spelling, a: Subject, b: Subject)
    requires Distinguishes(sp) && ProperCandidate(a.candidate) && ProperCandidate(b.candidate)
    ensures Canonical(SubjectJson(sp, a)) == Canonical(SubjectJson(sp, b)) <==> a == b
  {
    hide SubjectJson, Canonical, ProperCandidate;
    SubjectUnique(sp, a);
    SubjectUnique(sp, b);
    CanonicalDeterminesValue(SubjectJson(sp, a), SubjectJson(sp, b));
    if Same(SubjectJson(sp, a), SubjectJson(sp, b)) { SubjectsDiffer(sp, a, b); }
  }

  lemma PackageTextDetermines(sp: Spelling, a: Package, b: Package)
    requires Distinguishes(sp) && ProperTexts(a) && ProperTexts(b)
    ensures Canonical(PackageJson(sp, a)) == Canonical(PackageJson(sp, b)) <==> a == b
  {
    hide PackageJson, Canonical, ProperTexts;
    PackageUnique(sp, a);
    PackageUnique(sp, b);
    CanonicalDeterminesValue(PackageJson(sp, a), PackageJson(sp, b));
    if Same(PackageJson(sp, a), PackageJson(sp, b)) { PackagesDiffer(sp, a, b); }
  }

  lemma KeysTextDetermines(a: seq<TrustedKey>, b: seq<TrustedKey>)
    ensures Canonical(Array(KeyList(a))) == Canonical(Array(KeyList(b))) <==> a == b
  {
    hide KeyJson, Canonical, Array, KeyList;
    KeyListUnique(a);
    KeyListUnique(b);
    CanonicalDeterminesValue(Array(KeyList(a)), Array(KeyList(b)));
    if Same(Array(KeyList(a)), Array(KeyList(b))) { KeyListDiffer(a, b); }
  }
}
