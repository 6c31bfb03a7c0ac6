/** The answer candidate contract (runtime/answers/candidate.ts) and the evidence package built
    on it (scripts/review-policy/candidate-review.ts). */
module CandidateReview {
  import opened Collections
  import opened PolicyTypes

  // ---------- text ----------

  /** What `\s` matches; `\S` is the rest. */
  predicate Blank(c: CodePoint) {
    || 9 <= c <= 13 || c == 32 || c == 160 || c == 5760 || 8192 <= c <= 8202
    || c == 8232 || c == 8233 || c == 8239 || c == 8287 || c == 12288 || c == 65279
  }

  predicate HasInk(text: Text) {
    exists c | c in text :: !Blank(c)
  }

  // ---------- schemas ----------

  predicate ValidCandidate(c: AnswerCandidate) {
    && 8 <= |c.traceId| <= 128 && c.manifestId.WellFormed()
    && Short(c.provenance.sourceRegion, 64) && Short(c.provenance.profileId, 512) && Short(c.provenance.requestId, 256)
    && c.provenance.promptDigest.WellFormed() && c.provenance.answerDigest.WellFormed()
    && 1 <= |c.text| <= 16384 && HasInk(c.text)
    && |c.sourceRefs| <= 32 && Unique(c.sourceRefs)
    && forall r | r in c.sourceRefs :: Short(r.sourceId, 128) && r.contentDigest.WellFormed()
  }

  predicate ValidSource(s: Source) {
    && Short(s.receipt.sourceId, 256) && s.receipt.contentDigest.WellFormed() && Short(s.receipt.resource, 256)
    && Short(s.receipt.organization, 256) && Short(s.receipt.domain, 256) && Short(s.receipt.origin, 2048)
    && 1 <= |s.text| <= 32768 && HasInk(s.text)
  }

  predicate ValidClaim(c: Claim) {
    && Short(c.id, 128) && 0 <= c.start <= 16384 && 1 <= c.end <= 16384 && 1 <= |c.support| <= 16
    && forall s | s in c.support :: Short(s.sourceId, 256) && 0 <= s.start <= 32768 && 1 <= s.end <= 32768
  }

  predicate ValidPackage(p: Package) {
    && ValidCandidate(p.candidate) && p.contextDigest.WellFormed()
    && 1 <= |p.sources| <= 16 && (forall s | s in p.sources :: ValidSource(s))
    && 1 <= |p.claims| <= 64 && (forall c | c in p.claims :: ValidClaim(c))
  }

  // ---------- the answer candidate ----------

  function RefIds(rs: seq<SourceRef>): seq<string> { seq(|rs|, i requires 0 <= i < |rs| => rs[i].sourceId) }

  /** Receipts and references name each source once, and every reference is one of the receipts. */
  ghost predicate EvidenceAgrees(receipts: seq<SourceRef>, refs: seq<SourceRef>) {
    && Distinct(RefIds(receipts)) && Distinct(RefIds(refs))
    && forall r | r in refs :: r in receipts
  }

  ghost function AnswerRefusal(world: World, c: AnswerCandidate, ctx: CandidateContext): Option<Reason> {
    if !ValidCandidate(c) then Some(InvalidContract)
    else if !ctx.inputDecision.ok || !ctx.inputDecision.allow then Some(InputNotAllowed)
    else if c.traceId != ctx.inputDecision.traceId || c.manifestId != ctx.inputDecision.manifestId || c.manifestId != world.manifestId then
      Some(BindingMismatch)
    else if c.provenance != ctx.invocation then Some(ProvenanceMismatch)
    else if c.provenance.answerDigest != TextDigest(c.text) then Some(AnswerHashMismatch)
    else if !EvidenceAgrees(ctx.sourceReceipts, c.sourceRefs) then Some(EvidenceMismatch)
    else None
  }

  method ValidateAnswerCandidate(world: World, c: AnswerCandidate, ctx: CandidateContext) returns (refusal: Option<Reason>)
    ensures refusal == AnswerRefusal(world, c, ctx)
  {
    if !ValidCandidate(c) { return Some(InvalidContract); }
    if !ctx.inputDecision.ok || !ctx.inputDecision.allow { return Some(InputNotAllowed); }
    if c.traceId != ctx.inputDecision.traceId || c.manifestId != ctx.inputDecision.manifestId || c.manifestId != world.manifestId {
      return Some(BindingMismatch);
    }
    if c.provenance != ctx.invocation { return Some(ProvenanceMismatch); }
    if c.provenance.answerDigest != TextDigest(c.text) { return Some(AnswerHashMismatch); }
    var agrees := MatchEvidence(ctx.sourceReceipts, c.sourceRefs);
    return if agrees then None else Some(EvidenceMismatch);
  }

  /** The first loop: a map of the receipts, refused when an id repeats. */
  method FillReceipts(sources: seq<SourceRef>) returns (receipts: Option<map<string, Digest>>)
    ensures receipts.Some? <==> Distinct(RefIds(sources))
    ensures receipts.Some? ==> forall id, d :: (id in receipts.value && receipts.value[id] == d) <==> SourceRef(id, d) in sources
  {
    var table: map<string, Digest> := map[];
    for i := 0 to |sources|
      invariant Distinct(RefIds(sources[..i]))
      invariant forall id :: id in table <==> id in RefIds(sources[..i])
      invariant forall id, d :: (id in table && table[id] == d) <==> SourceRef(id, d) in sources[..i]
    {
      var source := sources[i];
      assert sources[..i + 1] == sources[..i] + [source];
      assert RefIds(sources[..i + 1]) == RefIds(sources[..i]) + [source.sourceId];
      if source.sourceId in table {
        var k :| 0 <= k < i && RefIds(sources[..i])[k] == source.sourceId;
        assert RefIds(sources)[k] == RefIds(sources)[i];
        return None;
      }
      table := table[source.sourceId := source.contentDigest];
    }
    assert sources[..|sources|] == sources;
    return Some(table);
  }

  /** The second loop: every reference is looked up, refused when an id repeats. */
  method CheckReferences(refs: seq<SourceRef>, receipts: map<string, Digest>) returns (ok: bool)
    ensures ok <==> Distinct(RefIds(refs)) && forall r | r in refs :: r.sourceId in receipts && receipts[r.sourceId] == r.contentDigest
  {
    var seen: set<string> := {};
    for i := 0 to |refs|
      invariant Distinct(RefIds(refs[..i]))
      invariant forall id :: id in seen <==> id in RefIds(refs[..i])
      invariant forall r | r in refs[..i] :: r.sourceId in receipts && receipts[r.sourceId] == r.contentDigest
    {
      var source := refs[i];
      assert refs[..i + 1] == refs[..i] + [source];
      assert RefIds(refs[..i + 1]) == RefIds(refs[..i]) + [source.sourceId];
      if source.sourceId in seen {
        var k :| 0 <= k < i && RefIds(refs[..i])[k] == source.sourceId;
        assert RefIds(refs)[k] == RefIds(refs)[i];
        return false;
      }
      if source.sourceId !in receipts || receipts[source.sourceId] != source.contentDigest {
        assert source in refs;
        return false;
      }
      seen := seen + {source.sourceId};
    }
    assert refs[..|refs|] == refs;
    return true;
  }

  method MatchEvidence(sourceReceipts: seq<SourceRef>, refs: seq<SourceRef>) returns (agrees: bool)
    ensures agrees <==> EvidenceAgrees(sourceReceipts, refs)
  {
    var receipts := FillReceipts(sourceReceipts);
    if receipts.None? { return false; }
    agrees := CheckReferences(refs, receipts.value);
    forall r | r in refs
      ensures (r.sourceId in receipts.value && receipts.value[r.sourceId] == r.contentDigest) <==> r in sourceReceipts
    {
      assert r == SourceRef(r.sourceId, r.contentDigest);
    }
  }

  // ---------- the sources ----------

  function ReceiptIds(rs: seq<Receipt>): seq<string> { seq(|rs|, i requires 0 <= i < |rs| => rs[i].sourceId) }
  function SourceIds(ss: seq<Source>): seq<string> { seq(|ss|, i requires 0 <= i < |ss| => ss[i].receipt.sourceId) }
  function ClaimIds(cs: seq<Claim>): seq<string> { seq(|cs|, i requires 0 <= i < |cs| => cs[i].id) }

  function SourceRefusal(s: Source, subject: Subject, receipts: seq<Receipt>, refs: seq<SourceRef>, now: int): Option<Reason> {
    var trusted := Find(receipts, (r: Receipt) => r.sourceId == s.receipt.sourceId);
    if trusted.None? || trusted.value != s.receipt then Some(SourceReceiptMismatch)
    else if s.receipt.organization != subject.organization || s.receipt.domain != subject.domain then Some(SourceScopeMismatch)
    else if s.receipt.capturedAt > now then Some(FutureSource)
    else if TextDigest(s.text) != s.receipt.contentDigest || SourceRef(s.receipt.sourceId, s.receipt.contentDigest) !in refs then
      Some(SourceContentMismatch)
    else None
  }

  function FirstSourceRefusal(ss: seq<Source>, subject: Subject, receipts: seq<Receipt>, refs: seq<SourceRef>, now: int): (r: Option<Reason>)
    ensures r.None? <==> forall s | s in ss :: SourceRefusal(s, subject, receipts, refs, now).None?
  {
    if ss == [] then None
    else if SourceRefusal(ss[0], subject, receipts, refs, now).Some? then SourceRefusal(ss[0], subject, receipts, refs, now)
    else FirstSourceRefusal(ss[1..], subject, receipts, refs, now)
  }

  method CheckSources(ss: seq<Source>, subject: Subject, receipts: seq<Receipt>, refs: seq<SourceRef>, now: int) returns (refusal: Option<Reason>)
    ensures refusal == FirstSourceRefusal(ss, subject, receipts, refs, now)
  {
    hide SourceRefusal;
    for i := 0 to |ss|
      invariant FirstSourceRefusal(ss, subject, receipts, refs, now) == FirstSourceRefusal(ss[i..], subject, receipts, refs, now)
    {
      assert ss[i..][0] == ss[i] && ss[i..][1..] == ss[i + 1..];
      refusal := SourceRefusal(ss[i], subject, receipts, refs, now);
      if refusal.Some? { return; }
    }
    return None;
  }

  // ---------- the claims ----------

  /** A half-open span lies inside the text and holds some ink. */
  predicate SpanOk(text: Text, start: int, end: int) {
    0 <= start < end <= |text| && HasInk(text[start..end])
  }

  function SupportRefusal(s: Span, sources: seq<Source>): Option<Reason> {
    var source := Find(sources, (x: Source) => x.receipt.sourceId == s.sourceId);
    if source.None? then Some(UnknownSupportSource)
    else if !SpanOk(source.value.text, s.start, s.end) then Some(InvalidSupportSpan)
    else None
  }

  function FirstSupportRefusal(spans: seq<Span>, sources: seq<Source>): (r: Option<Reason>)
    ensures r.None? <==> forall s | s in spans :: SupportRefusal(s, sources).None?
  {
    if spans == [] then None
    else if SupportRefusal(spans[0], sources).Some? then SupportRefusal(spans[0], sources)
    else FirstSupportRefusal(spans[1..], sources)
  }

  predicate InRange(o: int, lo: int, hi: int) { lo <= o < hi }

  function Range(lo: int, hi: int): set<int> { set o: int | lo <= o < hi && InRange(o, lo, hi) }

  function Offsets(c: Claim): set<int> { Range(c.start, c.end) }

  function Covered(claims: seq<Claim>): set<int> { set c, o | c in claims && o in Offsets(c) :: o }

  function Used(claims: seq<Claim>): set<string> { set c, s | c in claims && s in c.support :: s.sourceId }

  function ClaimRefusal(c: Claim, answer: Text, sources: seq<Source>, covered: set<int>): Option<Reason> {
    if !SpanOk(answer, c.start, c.end) then Some(InvalidClaimSpan)
    else if Offsets(c) * covered != {} then Some(OverlappingClaims)
    else if !Unique(c.support) then Some(DuplicateSupport)
    else FirstSupportRefusal(c.support, sources)
  }

  function FirstClaimRefusal(claims: seq<Claim>, answer: Text, sources: seq<Source>): Option<Reason> {
    if claims == [] then None else
    var front, c := claims[..|claims| - 1], claims[|claims| - 1];
    match FirstClaimRefusal(front, answer, sources)
    case Some(reason) => Some(reason)
    case None => ClaimRefusal(c, answer, sources, Covered(front))
  }

  method CoverSpan(start: int, end: int, covered: set<int>) returns (disjoint: bool, covered': set<int>)
    requires start <= end
    ensures disjoint <==> Range(start, end) * covered == {}
    ensures disjoint ==> covered' == covered + Range(start, end)
  {
    covered' := covered;
    for offset := start to end
      invariant covered' == covered + Range(start, offset)
      invariant forall o | InRange(o, start, offset) :: o !in covered
    {
      if offset in covered' {
        assert InRange(offset, start, end);
        assert offset in Range(start, end) * covered;
        return false, covered';
      }
      covered' := covered' + {offset};
      assert Range(start, offset + 1) == Range(start, offset) + {offset} by { assert InRange(offset, start, offset + 1); }
    }
    return true, covered';
  }

  method CheckSupport(spans: seq<Span>, sources: seq<Source>, used: set<string>) returns (refusal: Option<Reason>, used': set<string>)
    ensures refusal == FirstSupportRefusal(spans, sources)
    ensures refusal.None? ==> used' == used + (set s | s in spans :: s.sourceId)
  {
    hide SupportRefusal;
    used' := used;
    for i := 0 to |spans|
      invariant FirstSupportRefusal(spans, sources) == FirstSupportRefusal(spans[i..], sources)
      invariant used' == used + (set s | s in spans[..i] :: s.sourceId)
    {
      assert spans[i..][0] == spans[i] && spans[i..][1..] == spans[i + 1..];
      assert spans[..i + 1] == spans[..i] + [spans[i]];
      refusal := SupportRefusal(spans[i], sources);
      if refusal.Some? { return; }
      used' := used' + {spans[i].sourceId};
    }
    assert spans[..|spans|] == spans;
    refusal := None;
  }

  method CheckClaim(c: Claim, answer: Text, sources: seq<Source>, covered: set<int>, used: set<string>)
    returns (refusal: Option<Reason>, covered': set<int>, used': set<string>)
    ensures refusal == ClaimRefusal(c, answer, sources, covered)
    ensures refusal.None? ==> covered' == covered + Offsets(c) && used' == used + (set s | s in c.support :: s.sourceId)
  {
    hide Unique, SupportRefusal, Range, HasInk;
    if !SpanOk(answer, c.start, c.end) { return Some(InvalidClaimSpan), covered, used; }
    var disjoint, grown := CoverSpan(c.start, c.end, covered);
    if !disjoint { return Some(OverlappingClaims), covered, used; }
    if !Unique(c.support) { return Some(DuplicateSupport), covered, used; }
    covered' := grown;
    refusal, used' := CheckSupport(c.support, sources, used);
  }

  method CheckClaims(claims: seq<Claim>, answer: Text, sources: seq<Source>)
    returns (refusal: Option<Reason>, covered: set<int>, used: set<string>)
    ensures refusal == FirstClaimRefusal(claims, answer, sources)
    ensures refusal.None? ==> covered == Covered(claims) && used == Used(claims)
  {
    hide ClaimRefusal, Covered, Used;
    Nothing();
    covered, used := {}, {};
    for i := 0 to |claims|
      invariant FirstClaimRefusal(claims[..i], answer, sources).None?
      invariant covered == Covered(claims[..i]) && used == Used(claims[..i])
    {
      assert claims[..i + 1][..i] == claims[..i];
      assert claims[..i + 1] == claims[..i] + [claims[i]];
      OneMore(claims[..i], claims[i]);
      refusal, covered, used := CheckClaim(claims[i], answer, sources, covered, used);
      if refusal.Some? {
        RefusalStays(claims, i + 1, answer, sources);
        return;
      }
    }
    assert claims[..|claims|] == claims;
    refusal := None;
  }

  lemma Nothing()
    ensures Covered([]) == {} && Used([]) == {}
  {}

  lemma OneMore(front: seq<Claim>, c: Claim)
    ensures Covered(front + [c]) == Covered(front) + Offsets(c)
    ensures Used(front + [c]) == Used(front) + (set s | s in c.support :: s.sourceId)
  {
    forall x ensures x in front + [c] <==> x in front || x == c {}
  }

  lemma {:induction false} RefusalStays(claims: seq<Claim>, i: nat, answer: Text, sources: seq<Source>)
    requires i <= |claims| && FirstClaimRefusal(claims[..i], answer, sources).Some?
    ensures FirstClaimRefusal(claims, answer, sources) == FirstClaimRefusal(claims[..i], answer, sources)
  {
    if i == |claims| {
      assert claims[..i] == claims;
    } else {
      var front := claims[..|claims| - 1];
      assert front[..i] == claims[..i];
      RefusalStays(front, i, answer, sources);
    }
  }

  predicate AllInkCovered(answer: Text, covered: set<int>) {
    forall o | 0 <= o < |answer| :: Blank(answer[o]) || o in covered
  }

  // ---------- the package ----------

  ghost function CandidateRefusal(world: World, subject: Subject, ctx: EvidenceContext, now: int): (refusal: Option<Reason>)
    ensures refusal.None? ==> subject.candidate.PackageCandidate?
  {
    if !SafeInteger(now) || now < 0 then Some(InvalidReviewTime)
    else if !ValidSubject(subject) || !subject.candidate.PackageCandidate? || !ValidPackage(subject.candidate.pkg) then
      Some(InvalidCandidateReviewPackage)
    else
      var pkg := subject.candidate.pkg;
      if subject.policyVersion != DRAFT_POLICY_VERSION || subject.policyDigest != DraftPolicyDigest then Some(ScopeOrPolicyMismatch)
      else if AnswerRefusal(world, pkg.candidate, ctx.candidateContext).Some? then
        Some(CandidateRejected(AnswerRefusal(world, pkg.candidate, ctx.candidateContext).value))
      else if pkg.contextDigest != ContextDigest(ctx) then Some(CandidateContextMismatch)
      else if pkg.candidate.provenance.completedAt > now then Some(FutureCandidate)
      else if !ctx.candidateContext.inputDecision.ok || !world.admissible(ctx.candidateContext.inputDecision, pkg.candidate.text) then
        Some(CandidateOutputRefused)
      else if !Unique(ReceiptIds(ctx.evidenceReceipts)) then Some(InvalidSourceReceipts)
      else if !Unique(SourceIds(pkg.sources)) then Some(DuplicateSource)
      else if |pkg.candidate.sourceRefs| != |pkg.sources| || |ctx.evidenceReceipts| != |pkg.sources|
              || |ctx.candidateContext.sourceReceipts| != |pkg.sources| then
        Some(SourceSetMismatch)
      else if FirstSourceRefusal(pkg.sources, subject, ctx.evidenceReceipts, pkg.candidate.sourceRefs, now).Some? then
        FirstSourceRefusal(pkg.sources, subject, ctx.evidenceReceipts, pkg.candidate.sourceRefs, now)
      else if !Unique(ClaimIds(pkg.claims)) then Some(DuplicateClaim)
      else if FirstClaimRefusal(pkg.claims, pkg.candidate.text, pkg.sources).Some? then
        FirstClaimRefusal(pkg.claims, pkg.candidate.text, pkg.sources)
      else if !AllInkCovered(pkg.candidate.text, Covered(pkg.claims)) then Some(UncoveredAnswerText)
      else if |Used(pkg.claims)| != |pkg.sources| then Some(UnusedSource)
      else None
  }

  method ValidateCandidateReviewSubject(world: World, subject: Subject, ctx: EvidenceContext, now: int) returns (refusal: Option<Reason>)
    ensures refusal == CandidateRefusal(world, subject, ctx, now)
  {
    hide ValidPackage, ValidSubject, AnswerRefusal, Unique, FirstSourceRefusal, FirstClaimRefusal, AllInkCovered;
    if !SafeInteger(now) || now < 0 { return Some(InvalidReviewTime); }
    if !ValidSubject(subject) || !subject.candidate.PackageCandidate? || !ValidPackage(subject.candidate.pkg) {
      return Some(InvalidCandidateReviewPackage);
    }
    var pkg := subject.candidate.pkg;
    if subject.policyVersion != DRAFT_POLICY_VERSION || subject.policyDigest != DraftPolicyDigest { return Some(ScopeOrPolicyMismatch); }
    var checked := ValidateAnswerCandidate(world, pkg.candidate, ctx.candidateContext);
    if checked.Some? { return Some(CandidateRejected(checked.value)); }
    if pkg.contextDigest != ContextDigest(ctx) { return Some(CandidateContextMismatch); }
    if pkg.candidate.provenance.completedAt > now { return Some(FutureCandidate); }
    var input := ctx.candidateContext.inputDecision;
    if !input.ok || !world.admissible(input, pkg.candidate.text) { return Some(CandidateOutputRefused); }
    if !Unique(ReceiptIds(ctx.evidenceReceipts)) { return Some(InvalidSourceReceipts); }
    if !Unique(SourceIds(pkg.sources)) { return Some(DuplicateSource); }
    var refs := pkg.candidate.sourceRefs;
    if |refs| != |pkg.sources| || |ctx.evidenceReceipts| != |pkg.sources| || |ctx.candidateContext.sourceReceipts| != |pkg.sources| {
      return Some(SourceSetMismatch);
    }
    refusal := CheckSources(pkg.sources, subject, ctx.evidenceReceipts, refs, now);
    if refusal.Some? { return; }
    if !Unique(ClaimIds(pkg.claims)) { return Some(DuplicateClaim); }
    var covered, used;
    refusal, covered, used := CheckClaims(pkg.claims, pkg.candidate.text, pkg.sources);
    if refusal.Some? { return; }
    if !AllInkCovered(pkg.candidate.text, covered) { return Some(UncoveredAnswerText); }
    if |used| != |pkg.sources| { return Some(UnusedSource); }
  }

  // ---------- signed assessments ----------

  function CheckIds(cs: seq<ClaimCheck>): seq<string> { seq(|cs|, i requires 0 <= i < |cs| => cs[i].claimId) }

  function AssessmentRefusal(pkg: Package, r: ReviewRecord): Option<Reason> {
    if r.assessment.None? || !ValidAssessment(r.assessment.value) then Some(SignedCandidateAssessmentRequired) else
    var a := r.assessment.value;
    if a.packageDigest != PackageDigest(pkg) || a.answerDigest != pkg.candidate.provenance.answerDigest then
      Some(AssessmentBindingMismatch)
    else if r.reviewedAt < pkg.candidate.provenance.completedAt || exists s | s in pkg.sources :: r.reviewedAt < s.receipt.capturedAt then
      Some(AssessmentPredatesContent)
    else if !Unique(CheckIds(a.claimChecks)) || exists c | c in a.claimChecks :: c.claimId !in ClaimIds(pkg.claims) then
      Some(AssessmentClaimMismatch)
    else None
  }

  predicate AssessmentComplete(pkg: Package, r: ReviewRecord) {
    && AssessmentRefusal(pkg, r).None?
    && var a := r.assessment.value;
    && r.decision == Approve && r.evidenceVerified && r.authorityCleared && r.outputPass
    && a.coverageComplete && a.authorityClaims == Cleared && a.outputAdmissibility == Cleared
    && |a.claimChecks| == |pkg.claims|
    && forall c | c in a.claimChecks :: c.finding == Supported
  }
}
