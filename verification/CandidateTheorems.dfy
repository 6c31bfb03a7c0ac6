/** What an accepted candidate package and a complete assessment amount to. */
module CandidateTheorems {
  import opened Collections
  import opened PolicyTypes
  import opened CandidateReview

  // ---------- coverage ----------

  /** How many claims cover an offset. */
  function Hits(claims: seq<Claim>, o: int): nat {
    if claims == [] then 0
    else Hits(claims[..|claims| - 1], o) + (if claims[|claims| - 1].start <= o < claims[|claims| - 1].end then 1 else 0)
  }

  /** A span inside the text with a character in it that is not blank. */
  ghost predicate InkSpan(text: Text, start: int, end: int) {
    0 <= start < end <= |text| && exists o :: start <= o < end && !Blank(text[o])
  }

  lemma SpanMeaning(text: Text, start: int, end: int)
    ensures SpanOk(text, start, end) <==> InkSpan(text, start, end)
  {
    if 0 <= start < end <= |text| {
      var cut := text[start..end];
      if o :| start <= o < end && !Blank(text[o]) { assert cut[o - start] in cut; }
      if HasInk(cut) {
        var i :| 0 <= i < |cut| && !Blank(cut[i]);
        assert cut[i] == text[start + i];
      }
    }
  }

  ghost predicate SpansOk(claims: seq<Claim>, answer: Text) {
    forall c | c in claims :: InkSpan(answer, c.start, c.end)
  }

  ghost predicate NoOverlap(claims: seq<Claim>) {
    forall o :: Hits(claims, o) <= 1
  }

  /** Every claim's support is free of repetition and points into the sources. */
  ghost predicate SupportOk(claims: seq<Claim>, sources: seq<Source>) {
    forall c | c in claims :: Unique(c.support) && FirstSupportRefusal(c.support, sources).None?
  }

  /** Every claim is a span of the answer with ink in it, no offset is claimed twice and every
      character that is not blank is claimed exactly once. */
  ghost predicate CoversExactly(claims: seq<Claim>, answer: Text) {
    && SpansOk(claims, answer) && NoOverlap(claims)
    && forall o | 0 <= o < |answer| && !Blank(answer[o]) :: Hits(claims, o) == 1
  }

  lemma OffsetMeaning(c: Claim, o: int)
    ensures o in Offsets(c) <==> c.start <= o < c.end
  {
    assert InRange(o, c.start, c.end) <==> c.start <= o < c.end;
  }

  lemma {:induction false} HitsMeansCovered(claims: seq<Claim>, o: int)
    ensures o in Covered(claims) <==> Hits(claims, o) >= 1
  {
    if claims != [] {
      var front, c := claims[..|claims| - 1], claims[|claims| - 1];
      assert claims == front + [c];
      HitsMeansCovered(front, o);
      OffsetMeaning(c, o);
      assert o in Covered(claims) <==> o in Covered(front) || o in Offsets(c);
    }
  }

  lemma OverlapStep(claims: seq<Claim>)
    requires claims != []
    ensures var front, c := claims[..|claims| - 1], claims[|claims| - 1];
      NoOverlap(claims) <==> NoOverlap(front) && Offsets(c) * Covered(front) == {}
  {
    var front, c := claims[..|claims| - 1], claims[|claims| - 1];
    if NoOverlap(claims) {
      forall o ensures Hits(front, o) <= 1 { assert Hits(claims, o) <= 1; }
      forall o ensures o !in Offsets(c) * Covered(front) {
        HitsMeansCovered(front, o);
        OffsetMeaning(c, o);
        assert Hits(claims, o) <= 1;
      }
    }
    if NoOverlap(front) && Offsets(c) * Covered(front) == {} {
      forall o ensures Hits(claims, o) <= 1 {
        HitsMeansCovered(front, o);
        OffsetMeaning(c, o);
        assert o !in Offsets(c) * Covered(front);
      }
    }
  }

  lemma {:induction false} WalkMeaning(claims: seq<Claim>, answer: Text, sources: seq<Source>)
    ensures FirstClaimRefusal(claims, answer, sources).None?
       <==> SpansOk(claims, answer) && NoOverlap(claims) && SupportOk(claims, sources)
  {
    if claims != [] {
      var front, c := claims[..|claims| - 1], claims[|claims| - 1];
      assert claims == front + [c];
      WalkMeaning(front, answer, sources);
      OverlapStep(claims);
      SpanMeaning(answer, c.start, c.end);
      assert SpansOk(claims, answer) <==> SpansOk(front, answer) && InkSpan(answer, c.start, c.end);
      assert SupportOk(claims, sources) <==>
        SupportOk(front, sources) && Unique(c.support) && FirstSupportRefusal(c.support, sources).None?;
    }
  }

  /** The claim loop and the final sweep succeed exactly when the claims cover the answer exactly
      and are supported. */
  lemma CoverageIff(claims: seq<Claim>, answer: Text, sources: seq<Source>)
    ensures FirstClaimRefusal(claims, answer, sources).None? && AllInkCovered(answer, Covered(claims))
       <==> CoversExactly(claims, answer) && SupportOk(claims, sources)
  {
    WalkMeaning(claims, answer, sources);
    if NoOverlap(claims) {
      SweepMeaning(claims, answer);
    }
  }

  lemma SweepMeaning(claims: seq<Claim>, answer: Text)
    requires NoOverlap(claims)
    ensures AllInkCovered(answer, Covered(claims))
       <==> forall o | 0 <= o < |answer| && !Blank(answer[o]) :: Hits(claims, o) == 1
  {
    forall o ensures o in Covered(claims) <==> Hits(claims, o) == 1 {
      HitsMeansCovered(claims, o);
      assert Hits(claims, o) <= 1;
    }
  }

  lemma WithoutOne(s: seq<Claim>, k: nat)
    requires k < |s|
    ensures multiset(s[..k] + s[k + 1..]) == multiset(s) - multiset{s[k]}
  {
    assert s == s[..k] + [s[k]] + s[k + 1..];
    assert multiset(s) == multiset(s[..k]) + multiset{s[k]} + multiset(s[k + 1..]);
  }

  lemma {:induction false} HitsIgnoreOrder(a: seq<Claim>, b: seq<Claim>, o: int)
    requires multiset(a) == multiset(b)
    ensures Hits(a, o) == Hits(b, o)
    decreases |a|
  {
    assert |a| == |multiset(a)| == |multiset(b)| == |b|;
    if a != [] {
      var n := |a| - 1;
      assert a[n] in multiset(b);
      var k :| 0 <= k < |b| && b[k] == a[n];
      WithoutOne(a, n);
      WithoutOne(b, k);
      assert a[..n] + a[n + 1..] == a[..n];
      HitsWithout(b, k, o);
      HitsIgnoreOrder(a[..n], b[..k] + b[k + 1..], o);
    }
  }

  lemma HitsOfLast(front: seq<Claim>, c: Claim, o: int)
    ensures Hits(front + [c], o) == Hits(front, o) + (if c.start <= o < c.end then 1 else 0)
  {
    assert (front + [c])[..|front|] == front;
  }

  lemma {:induction false} HitsWithout(b: seq<Claim>, k: nat, o: int)
    requires k < |b|
    ensures Hits(b, o) == Hits(b[..k] + b[k + 1..], o) + (if b[k].start <= o < b[k].end then 1 else 0)
  {
    var front, last := b[..|b| - 1], b[|b| - 1];
    if k == |b| - 1 {
      assert b[..k] + b[k + 1..] == front;
    } else {
      HitsWithout(front, k, o);
      assert b[..k] + b[k + 1..] == (front[..k] + front[k + 1..]) + [last];
      HitsOfLast(front[..k] + front[k + 1..], last, o);
    }
  }

  /** The order of the claims does not matter. */
  lemma CoverageIgnoresOrder(a: seq<Claim>, b: seq<Claim>, answer: Text, sources: seq<Source>)
    requires multiset(a) == multiset(b)
    ensures FirstClaimRefusal(a, answer, sources).None? && AllInkCovered(answer, Covered(a))
       <==> FirstClaimRefusal(b, answer, sources).None? && AllInkCovered(answer, Covered(b))
  {
    CoverageIff(a, answer, sources);
    CoverageIff(b, answer, sources);
    forall o ensures Hits(a, o) == Hits(b, o) { HitsIgnoreOrder(a, b, o); }
    forall c ensures c in a <==> c in b { assert c in a <==> c in multiset(a); assert c in b <==> c in multiset(b); }
  }

  // ---------- the four source lists ----------

  function RefOf(r: Receipt): SourceRef { SourceRef(r.sourceId, r.contentDigest) }
  function SourceRefs(ss: seq<Source>): seq<SourceRef> { seq(|ss|, i requires 0 <= i < |ss| => RefOf(ss[i].receipt)) }
  function ReceiptRefs(rs: seq<Receipt>): seq<SourceRef> { seq(|rs|, i requires 0 <= i < |rs| => RefOf(rs[i])) }

  /** A list of references is a map from source id to content hash. */
  ghost predicate IsMap(refs: seq<SourceRef>) { Distinct(RefIds(refs)) }

  lemma DistinctIdsDistinctRefs(refs: seq<SourceRef>)
    requires IsMap(refs)
    ensures Unique(refs)
  {
    ToSetSize(refs);
    forall i, j | 0 <= i < j < |refs| ensures refs[i] != refs[j] {
      assert RefIds(refs)[i] != RefIds(refs)[j];
    }
  }

  /** One list inside another of the same length: the same map. */
  lemma SameMap(a: seq<SourceRef>, b: seq<SourceRef>)
    requires IsMap(a) && IsMap(b) && |a| == |b| && forall r | r in a :: r in b
    ensures ToSet(a) == ToSet(b)
  {
    DistinctIdsDistinctRefs(a);
    DistinctIdsDistinctRefs(b);
    SameSizeSameElements(a, ToSet(b));
  }

  lemma AcceptedPackage(world: World, subject: Subject, ctx: EvidenceContext, now: int)
    requires CandidateRefusal(world, subject, ctx, now).None?
    ensures subject.candidate.PackageCandidate? && ValidSubject(subject)
    ensures var pkg := subject.candidate.pkg;
      && EvidenceAgrees(ctx.candidateContext.sourceReceipts, pkg.candidate.sourceRefs)
      && Unique(ReceiptIds(ctx.evidenceReceipts)) && Unique(SourceIds(pkg.sources)) && Unique(ClaimIds(pkg.claims))
      && |pkg.candidate.sourceRefs| == |pkg.sources| == |ctx.evidenceReceipts| == |ctx.candidateContext.sourceReceipts|
      && FirstSourceRefusal(pkg.sources, subject, ctx.evidenceReceipts, pkg.candidate.sourceRefs, now).None?
      && FirstClaimRefusal(pkg.claims, pkg.candidate.text, pkg.sources).None?
      && AllInkCovered(pkg.candidate.text, Covered(pkg.claims))
      && |Used(pkg.claims)| == |pkg.sources|
  {
    hide ValidPackage, ValidCandidate, ValidSubject, FirstSourceRefusal, FirstClaimRefusal, AllInkCovered, EvidenceAgrees;
  }

  /** On acceptance the package's sources, the candidate's references and both lists of receipts
      are one map from source id to content hash. */
  lemma SourceListsAgree(world: World, subject: Subject, ctx: EvidenceContext, now: int)
    requires CandidateRefusal(world, subject, ctx, now).None?
    ensures var pkg := subject.candidate.pkg;
      && IsMap(SourceRefs(pkg.sources)) && IsMap(pkg.candidate.sourceRefs)
      && IsMap(ctx.candidateContext.sourceReceipts) && IsMap(ReceiptRefs(ctx.evidenceReceipts))
      && ToSet(SourceRefs(pkg.sources)) == ToSet(pkg.candidate.sourceRefs)
         == ToSet(ctx.candidateContext.sourceReceipts) == ToSet(ReceiptRefs(ctx.evidenceReceipts))
  {
    AcceptedPackage(world, subject, ctx, now);
    var pkg := subject.candidate.pkg;
    SourcesMatch(pkg.sources, subject, ctx.evidenceReceipts, pkg.candidate.sourceRefs, now);
    SameMap(SourceRefs(pkg.sources), pkg.candidate.sourceRefs);
    SameMap(SourceRefs(pkg.sources), ReceiptRefs(ctx.evidenceReceipts));
    SameMap(pkg.candidate.sourceRefs, ctx.candidateContext.sourceReceipts);
  }

  lemma SourcesMatch(ss: seq<Source>, subject: Subject, receipts: seq<Receipt>, refs: seq<SourceRef>, now: int)
    requires FirstSourceRefusal(ss, subject, receipts, refs, now).None?
    requires Unique(ReceiptIds(receipts)) && Unique(SourceIds(ss))
    ensures IsMap(SourceRefs(ss)) && IsMap(ReceiptRefs(receipts))
    ensures forall r | r in SourceRefs(ss) :: r in refs && r in ReceiptRefs(receipts)
  {
    ToSetSize(ReceiptIds(receipts));
    ToSetSize(SourceIds(ss));
    assert RefIds(SourceRefs(ss)) == SourceIds(ss);
    assert RefIds(ReceiptRefs(receipts)) == ReceiptIds(receipts);
    forall i | 0 <= i < |ss| ensures SourceRefs(ss)[i] in refs && SourceRefs(ss)[i] in ReceiptRefs(receipts) {
      assert SourceRefusal(ss[i], subject, receipts, refs, now).None?;
      assert ss[i].receipt in receipts;
      var k :| 0 <= k < |receipts| && receipts[k] == ss[i].receipt;
      assert ReceiptRefs(receipts)[k] == SourceRefs(ss)[i];
    }
  }

  /** Every source of an accepted package is cited by a claim: the sizes agree and nothing else is cited. */
  lemma EverySourceIsCited(world: World, subject: Subject, ctx: EvidenceContext, now: int)
    requires CandidateRefusal(world, subject, ctx, now).None?
    ensures Used(subject.candidate.pkg.claims) == ToSet(SourceIds(subject.candidate.pkg.sources))
  {
    AcceptedPackage(world, subject, ctx, now);
    var pkg := subject.candidate.pkg;
    WalkMeaning(pkg.claims, pkg.candidate.text, pkg.sources);
    CitedIsSubset(pkg.claims, pkg.sources);
    var ids := ToSet(SourceIds(pkg.sources));
    if Used(pkg.claims) != ids { SubsetSize(Used(pkg.claims), ids); }
  }

  lemma CitedIsSubset(claims: seq<Claim>, sources: seq<Source>)
    requires SupportOk(claims, sources)
    ensures Used(claims) <= ToSet(SourceIds(sources))
  {
    forall id | id in Used(claims) ensures id in ToSet(SourceIds(sources)) {
      var c, s :| c in claims && s in c.support && s.sourceId == id;
      CitedSourceExists(c.support, s, sources);
    }
  }

  lemma CitedSourceExists(spans: seq<Span>, s: Span, sources: seq<Source>)
    requires FirstSupportRefusal(spans, sources).None? && s in spans
    ensures s.sourceId in ToSet(SourceIds(sources))
  {
    assert SupportRefusal(s, sources).None?;
    var source := Find(sources, (x: Source) => x.receipt.sourceId == s.sourceId).value;
    var k :| 0 <= k < |sources| && sources[k] == source;
    assert SourceIds(sources)[k] == s.sourceId;
  }

  // ---------- assessments ----------

  /** A complete assessment checks every claim exactly once and finds it supported. */
  lemma CompleteAssessmentChecksEveryClaim(pkg: Package, r: ReviewRecord)
    requires AssessmentComplete(pkg, r) && Unique(ClaimIds(pkg.claims))
    ensures var checks := r.assessment.value.claimChecks;
      && Distinct(CheckIds(checks))
      && ToSet(CheckIds(checks)) == ToSet(ClaimIds(pkg.claims))
      && (forall c | c in pkg.claims :: ClaimCheck(c.id, Supported) in checks)
      && (forall k | k in checks :: k.finding == Supported)
  {
    var checks := r.assessment.value.claimChecks;
    ToSetSize(CheckIds(checks));
    forall id | id in CheckIds(checks) ensures id in ClaimIds(pkg.claims) {
      var k :| 0 <= k < |checks| && CheckIds(checks)[k] == id;
      assert checks[k] in checks;
    }
    SameSizeSameElements(CheckIds(checks), ToSet(ClaimIds(pkg.claims)));
    forall c | c in pkg.claims ensures ClaimCheck(c.id, Supported) in checks {
      var i :| 0 <= i < |pkg.claims| && pkg.claims[i] == c;
      assert ClaimIds(pkg.claims)[i] == c.id;
      assert c.id in ToSet(CheckIds(checks));
      var k :| 0 <= k < |checks| && CheckIds(checks)[k] == c.id;
      assert checks[k] in checks && checks[k] == ClaimCheck(c.id, Supported);
    }
  }

  /** The assessment speaks about this package, its answer and its claims, and was signed after all of them. */
  ghost predicate BoundAssessment(pkg: Package, r: ReviewRecord) {
    && r.assessment.Some? && ValidAssessment(r.assessment.value)
    && var a := r.assessment.value;
    && a.packageDigest == PackageDigest(pkg) && a.answerDigest == pkg.candidate.provenance.answerDigest
    && pkg.candidate.provenance.completedAt <= r.reviewedAt
    && (forall x | x in pkg.sources :: x.receipt.capturedAt <= r.reviewedAt)
    && (forall i, j | 0 <= i < j < |a.claimChecks| :: a.claimChecks[i].claimId != a.claimChecks[j].claimId)
    && (forall k | k in a.claimChecks :: exists c :: c in pkg.claims && c.id == k.claimId)
  }

  /** An approval with every flag, and a supporting check for every claim. */
  ghost predicate CompleteAssessment(pkg: Package, r: ReviewRecord) {
    && BoundAssessment(pkg, r)
    && r.decision == Approve && r.evidenceVerified && r.authorityCleared && r.outputPass
    && var a := r.assessment.value;
    && a.coverageComplete && a.authorityClaims == Cleared && a.outputAdmissibility == Cleared
    && (forall c | c in pkg.claims :: ClaimCheck(c.id, Supported) in a.claimChecks)
    && (forall k | k in a.claimChecks :: k.finding == Supported)
  }

  lemma CheckIdsDistinctIff(cs: seq<ClaimCheck>)
    ensures Unique(CheckIds(cs)) <==> forall i, j | 0 <= i < j < |cs| :: cs[i].claimId != cs[j].claimId
  {
    ToSetSize(CheckIds(cs));
    if Unique(CheckIds(cs)) {
      forall i, j | 0 <= i < j < |cs| ensures cs[i].claimId != cs[j].claimId { assert CheckIds(cs)[i] != CheckIds(cs)[j]; }
    }
  }

  lemma ClaimIdMeaning(claims: seq<Claim>, id: string)
    ensures id in ClaimIds(claims) <==> exists c :: c in claims && c.id == id
  {
    if c :| c in claims && c.id == id {
      var i :| 0 <= i < |claims| && claims[i] == c;
      assert ClaimIds(claims)[i] == id;
    }
    if id in ClaimIds(claims) {
      var i :| 0 <= i < |claims| && ClaimIds(claims)[i] == id;
      assert claims[i] in claims;
    }
  }

  lemma BoundAssessmentIff(pkg: Package, r: ReviewRecord)
    ensures AssessmentRefusal(pkg, r).None? <==> BoundAssessment(pkg, r)
  {
    hide Unique, ValidAssessment;
    if r.assessment.Some? {
      CheckIdsDistinctIff(r.assessment.value.claimChecks);
      forall k | k in r.assessment.value.claimChecks { ClaimIdMeaning(pkg.claims, k.claimId); }
    }
  }

  /** On distinct claims, counting the checks is checking every claim. */
  lemma CompleteAssessmentIff(pkg: Package, r: ReviewRecord)
    requires Unique(ClaimIds(pkg.claims))
    ensures AssessmentComplete(pkg, r) <==> CompleteAssessment(pkg, r)
  {
    hide AssessmentRefusal, Unique, ValidAssessment;
    BoundAssessmentIff(pkg, r);
    if AssessmentComplete(pkg, r) {
      CompleteAssessmentChecksEveryClaim(pkg, r);
    } else if CompleteAssessment(pkg, r) {
      var checks := r.assessment.value.claimChecks;
      CheckIdsDistinctIff(checks);
      forall id ensures id in CheckIds(checks) <==> id in ClaimIds(pkg.claims) { SameClaims(pkg, checks, id); }
      SameCount(CheckIds(checks), ClaimIds(pkg.claims));
    }
  }

  lemma SameClaims(pkg: Package, checks: seq<ClaimCheck>, id: string)
    requires forall c | c in pkg.claims :: ClaimCheck(c.id, Supported) in checks
    requires forall k | k in checks :: exists c :: c in pkg.claims && c.id == k.claimId
    ensures id in CheckIds(checks) <==> id in ClaimIds(pkg.claims)
  {
    ClaimIdMeaning(pkg.claims, id);
    if id in ClaimIds(pkg.claims) {
      var c :| c in pkg.claims && c.id == id;
      var k :| 0 <= k < |checks| && checks[k] == ClaimCheck(c.id, Supported);
      assert CheckIds(checks)[k] == id;
    }
    if id in CheckIds(checks) {
      var k :| 0 <= k < |checks| && CheckIds(checks)[k] == id;
      assert checks[k] in checks;
    }
  }

  lemma SameCount<T>(a: seq<T>, b: seq<T>)
    requires Unique(a) && Unique(b) && forall x :: x in a <==> x in b
    ensures |a| == |b|
  {
    assert ToSet(a) == ToSet(b);
  }

  // ---------- when a package is accepted ----------

  /** The answer is the one the input decision allowed, of the active manifest, and exactly what the invocation
      produced, text included. */
  ghost predicate AnswerBound(world: World, c: AnswerCandidate, ctx: CandidateContext) {
    && ctx.inputDecision.ok && ctx.inputDecision.allow
    && c.traceId == ctx.inputDecision.traceId && c.manifestId == ctx.inputDecision.manifestId && c.manifestId == world.manifestId
    && c.provenance == ctx.invocation && c.provenance.answerDigest == TextDigest(c.text)
  }

  /** The package's sources, the candidate's references and the receipts of both contexts are one set of sources,
      each named once. */
  ghost predicate OneSetOfSources(pkg: Package, ctx: EvidenceContext) {
    var refs, receipts, known := pkg.candidate.sourceRefs, ctx.evidenceReceipts, ctx.candidateContext.sourceReceipts;
    && (forall i, j | 0 <= i < j < |pkg.sources| :: pkg.sources[i].receipt.sourceId != pkg.sources[j].receipt.sourceId)
    && (forall i, j | 0 <= i < j < |receipts| :: receipts[i].sourceId != receipts[j].sourceId)
    && (forall i, j | 0 <= i < j < |refs| :: refs[i].sourceId != refs[j].sourceId)
    && (forall i, j | 0 <= i < j < |known| :: known[i].sourceId != known[j].sourceId)
    && (forall r :: r in receipts <==> exists x :: x in pkg.sources && x.receipt == r)
    && (forall r :: r in refs <==> exists x :: x in pkg.sources && SourceRef(x.receipt.sourceId, x.receipt.contentDigest) == r)
    && (forall r :: r in refs <==> r in known)
  }

  /** A source of the subject's organization and domain, captured by now, whose text is the one that was hashed. */
  ghost predicate SourceBound(x: Source, subject: Subject, now: int) {
    && x.receipt.organization == subject.organization && x.receipt.domain == subject.domain
    && x.receipt.capturedAt <= now && TextDigest(x.text) == x.receipt.contentDigest
  }

  ghost predicate PointsInto(span: Span, sources: seq<Source>) {
    exists x :: x in sources && x.receipt.sourceId == span.sourceId && InkSpan(x.text, span.start, span.end)
  }

  ghost predicate Cites(claims: seq<Claim>, id: string) {
    exists c, span :: c in claims && span in c.support && span.sourceId == id
  }

  /** Claims with distinct ids that cover the answer exactly, each supported by distinct spans of the sources,
      and every source cited. */
  ghost predicate ClaimsBound(pkg: Package) {
    && (forall i, j | 0 <= i < j < |pkg.claims| :: pkg.claims[i].id != pkg.claims[j].id)
    && CoversExactly(pkg.claims, pkg.candidate.text)
    && (forall c | c in pkg.claims ::
          && (forall i, j | 0 <= i < j < |c.support| :: c.support[i] != c.support[j])
          && forall span | span in c.support :: PointsInto(span, pkg.sources))
    && (forall x | x in pkg.sources :: Cites(pkg.claims, x.receipt.sourceId))
  }

  ghost predicate AcceptableCandidate(world: World, subject: Subject, ctx: EvidenceContext, now: int) {
    && 0 <= now <= 9007199254740991 && ValidSubject(subject)
    && subject.policyVersion == DRAFT_POLICY_VERSION && subject.policyDigest == DraftPolicyDigest
    && subject.candidate.PackageCandidate? && ValidPackage(subject.candidate.pkg)
    && var pkg := subject.candidate.pkg;
    && AnswerBound(world, pkg.candidate, ctx.candidateContext)
    && world.admissible(ctx.candidateContext.inputDecision, pkg.candidate.text)
    && pkg.contextDigest == ContextDigest(ctx) && pkg.candidate.provenance.completedAt <= now
    && OneSetOfSources(pkg, ctx) && (forall x | x in pkg.sources :: SourceBound(x, subject, now))
    && ClaimsBound(pkg)
  }

  /** What the checks of the sources amount to in the code's terms. */
  ghost predicate SourcesPass(pkg: Package, subject: Subject, ctx: EvidenceContext, now: int) {
    && EvidenceAgrees(ctx.candidateContext.sourceReceipts, pkg.candidate.sourceRefs)
    && Unique(ReceiptIds(ctx.evidenceReceipts)) && Unique(SourceIds(pkg.sources))
    && |pkg.candidate.sourceRefs| == |pkg.sources| == |ctx.evidenceReceipts| == |ctx.candidateContext.sourceReceipts|
    && FirstSourceRefusal(pkg.sources, subject, ctx.evidenceReceipts, pkg.candidate.sourceRefs, now).None?
  }

  ghost predicate ClaimsPass(pkg: Package) {
    && Unique(ClaimIds(pkg.claims))
    && FirstClaimRefusal(pkg.claims, pkg.candidate.text, pkg.sources).None?
    && AllInkCovered(pkg.candidate.text, Covered(pkg.claims))
    && |Used(pkg.claims)| == |pkg.sources|
  }

  lemma AnswerMeaning(world: World, c: AnswerCandidate, ctx: CandidateContext)
    requires ValidCandidate(c)
    ensures AnswerRefusal(world, c, ctx).None? <==> AnswerBound(world, c, ctx) && EvidenceAgrees(ctx.sourceReceipts, c.sourceRefs)
  {
    hide ValidCandidate, EvidenceAgrees;
  }

  lemma CandidateReduces(world: World, subject: Subject, ctx: EvidenceContext, now: int)
    ensures CandidateRefusal(world, subject, ctx, now).None? <==>
      && 0 <= now <= 9007199254740991 && ValidSubject(subject)
      && subject.policyVersion == DRAFT_POLICY_VERSION && subject.policyDigest == DraftPolicyDigest
      && subject.candidate.PackageCandidate? && ValidPackage(subject.candidate.pkg)
      && var pkg := subject.candidate.pkg;
      && AnswerBound(world, pkg.candidate, ctx.candidateContext)
      && world.admissible(ctx.candidateContext.inputDecision, pkg.candidate.text)
      && pkg.contextDigest == ContextDigest(ctx) && pkg.candidate.provenance.completedAt <= now
      && SourcesPass(pkg, subject, ctx, now) && ClaimsPass(pkg)
  {
    hide ValidCandidate, ValidSource, ValidClaim, ValidSubject, AnswerRefusal, EvidenceAgrees, Unique, FirstSourceRefusal,
      FirstClaimRefusal, AllInkCovered;
    if subject.candidate.PackageCandidate? && ValidPackage(subject.candidate.pkg) {
      AnswerMeaning(world, subject.candidate.pkg.candidate, ctx.candidateContext);
    }
  }

  function Receipts(ss: seq<Source>): seq<Receipt> { seq(|ss|, i requires 0 <= i < |ss| => ss[i].receipt) }

  lemma ListedSources(ss: seq<Source>)
    ensures forall r :: r in Receipts(ss) <==> exists x :: x in ss && x.receipt == r
    ensures forall r :: r in SourceRefs(ss) <==> exists x :: x in ss && SourceRef(x.receipt.sourceId, x.receipt.contentDigest) == r
  {
    forall i | 0 <= i < |ss| ensures Receipts(ss)[i] == ss[i].receipt && SourceRefs(ss)[i] == RefOf(ss[i].receipt) && ss[i] in ss {}
    forall x | x in ss ensures x.receipt in Receipts(ss) && RefOf(x.receipt) in SourceRefs(ss) {
      var i :| 0 <= i < |ss| && ss[i] == x;
      assert Receipts(ss)[i] == x.receipt && SourceRefs(ss)[i] == RefOf(x.receipt);
    }
  }

  ghost predicate NamedOnce(rs: seq<Receipt>) {
    forall i, j | 0 <= i < j < |rs| :: rs[i].sourceId != rs[j].sourceId
  }

  lemma NamedOnceIff(rs: seq<Receipt>)
    ensures Unique(ReceiptIds(rs)) <==> NamedOnce(rs)
    ensures NamedOnce(rs) ==> Unique(rs)
  {
    ToSetSize(ReceiptIds(rs));
    ToSetSize(rs);
    if Unique(ReceiptIds(rs)) {
      forall i, j | 0 <= i < j < |rs| ensures rs[i].sourceId != rs[j].sourceId { assert ReceiptIds(rs)[i] != ReceiptIds(rs)[j]; }
    }
  }

  lemma RefsNamedOnceIff(refs: seq<SourceRef>)
    ensures IsMap(refs) <==> forall i, j | 0 <= i < j < |refs| :: refs[i].sourceId != refs[j].sourceId
  {
    if IsMap(refs) {
      forall i, j | 0 <= i < j < |refs| ensures refs[i].sourceId != refs[j].sourceId { assert RefIds(refs)[i] != RefIds(refs)[j]; }
    }
  }

  /** Distinctness of the four lists, in the code's terms and over their entries. */
  lemma NamedOnceEverywhere(pkg: Package, ctx: EvidenceContext)
    ensures Unique(SourceIds(pkg.sources)) <==>
      forall i, j | 0 <= i < j < |pkg.sources| :: pkg.sources[i].receipt.sourceId != pkg.sources[j].receipt.sourceId
    ensures Unique(SourceIds(pkg.sources)) ==> Unique(Receipts(pkg.sources)) && IsMap(SourceRefs(pkg.sources))
    ensures Unique(ReceiptIds(ctx.evidenceReceipts)) <==> NamedOnce(ctx.evidenceReceipts)
    ensures Unique(ReceiptIds(ctx.evidenceReceipts)) ==> Unique(ctx.evidenceReceipts)
  {
    NamedOnceIff(ctx.evidenceReceipts);
    NamedOnceIff(Receipts(pkg.sources));
    assert ReceiptIds(Receipts(pkg.sources)) == SourceIds(pkg.sources);
    assert RefIds(SourceRefs(pkg.sources)) == SourceIds(pkg.sources);
    ToSetSize(SourceIds(pkg.sources));
    if Unique(SourceIds(pkg.sources)) {
      forall i, j | 0 <= i < j < |pkg.sources| ensures pkg.sources[i].receipt.sourceId != pkg.sources[j].receipt.sourceId {
        assert SourceIds(pkg.sources)[i] != SourceIds(pkg.sources)[j];
      }
    }
  }

  /** With distinct receipts, one source passes exactly when its receipt and its reference are known and it is bound. */
  lemma SourceMeaning(x: Source, subject: Subject, receipts: seq<Receipt>, refs: seq<SourceRef>, now: int)
    requires NamedOnce(receipts)
    ensures SourceRefusal(x, subject, receipts, refs, now).None? <==>
      x.receipt in receipts && SourceRef(x.receipt.sourceId, x.receipt.contentDigest) in refs && SourceBound(x, subject, now)
  {
    if x.receipt in receipts {
      var found := Find(receipts, (r: Receipt) => r.sourceId == x.receipt.sourceId).value;
      var i :| 0 <= i < |receipts| && receipts[i] == x.receipt;
      var j :| 0 <= j < |receipts| && receipts[j] == found;
      assert i == j;
    }
  }

  lemma SourcesAreOneSet(pkg: Package, subject: Subject, ctx: EvidenceContext, now: int)
    requires SourcesPass(pkg, subject, ctx, now)
    ensures OneSetOfSources(pkg, ctx) && forall x | x in pkg.sources :: SourceBound(x, subject, now)
  {
    hide SourceRefusal, SourceBound, FirstSourceRefusal, Unique, IsMap;
    var refs, receipts, known := pkg.candidate.sourceRefs, ctx.evidenceReceipts, ctx.candidateContext.sourceReceipts;
    NamedOnceEverywhere(pkg, ctx);
    ListedSources(pkg.sources);
    EvidenceIsMaps(known, refs);
    forall x | x in pkg.sources
      ensures x.receipt in receipts && SourceRef(x.receipt.sourceId, x.receipt.contentDigest) in refs && SourceBound(x, subject, now)
    {
      SourceMeaning(x, subject, receipts, refs, now);
    }
    SameMap(SourceRefs(pkg.sources), refs);
    SameMap(refs, known);
    SameSizeSameElements(Receipts(pkg.sources), ToSet(receipts));
    forall r ensures r in refs <==> r in SourceRefs(pkg.sources) { SetMembers(refs, r); SetMembers(SourceRefs(pkg.sources), r); }
    forall r ensures r in refs <==> r in known { SetMembers(refs, r); SetMembers(known, r); }
    forall r ensures r in receipts <==> r in Receipts(pkg.sources) { SetMembers(receipts, r); SetMembers(Receipts(pkg.sources), r); }
    RefsNamedOnceIff(refs);
    RefsNamedOnceIff(known);
  }

  lemma SetMembers<T>(s: seq<T>, x: T)
    ensures x in ToSet(s) <==> x in s
  {}

  lemma EvidenceIsMaps(known: seq<SourceRef>, refs: seq<SourceRef>)
    ensures EvidenceAgrees(known, refs) <==> IsMap(known) && IsMap(refs) && forall r | r in refs :: r in known
  {}

  lemma OneSetPasses(pkg: Package, subject: Subject, ctx: EvidenceContext, now: int)
    requires OneSetOfSources(pkg, ctx) && forall x | x in pkg.sources :: SourceBound(x, subject, now)
    ensures SourcesPass(pkg, subject, ctx, now)
  {
    hide SourceRefusal, SourceBound, Unique, IsMap;
    var refs, receipts, known := pkg.candidate.sourceRefs, ctx.evidenceReceipts, ctx.candidateContext.sourceReceipts;
    NamedOnceEverywhere(pkg, ctx);
    ListedSources(pkg.sources);
    EvidenceIsMaps(known, refs);
    RefsNamedOnceIff(refs);
    RefsNamedOnceIff(known);
    DistinctIdsDistinctRefs(refs);
    DistinctIdsDistinctRefs(known);
    DistinctIdsDistinctRefs(SourceRefs(pkg.sources));
    SameCount(refs, known);
    SameCount(refs, SourceRefs(pkg.sources));
    SameCount(receipts, Receipts(pkg.sources));
    forall x | x in pkg.sources ensures SourceRefusal(x, subject, receipts, refs, now).None? {
      SourceMeaning(x, subject, receipts, refs, now);
    }
  }

  // ---------- the claims of a package ----------

  lemma SupportMeaning(span: Span, sources: seq<Source>)
    requires Unique(SourceIds(sources))
    ensures SupportRefusal(span, sources).None? <==> PointsInto(span, sources)
  {
    hide SpanOk, InkSpan;
    ToSetSize(SourceIds(sources));
    forall x | x in sources ensures SpanOk(x.text, span.start, span.end) <==> InkSpan(x.text, span.start, span.end) {
      SpanMeaning(x.text, span.start, span.end);
    }
    if x :| x in sources && x.receipt.sourceId == span.sourceId {
      var found := Find(sources, (x: Source) => x.receipt.sourceId == span.sourceId).value;
      forall y | y in sources && y.receipt.sourceId == span.sourceId ensures y == found {
        var i :| 0 <= i < |sources| && sources[i] == y;
        var j :| 0 <= j < |sources| && sources[j] == found;
        assert SourceIds(sources)[i] == SourceIds(sources)[j];
      }
    }
  }

  lemma SupportOkIff(claims: seq<Claim>, sources: seq<Source>)
    requires Unique(SourceIds(sources))
    ensures SupportOk(claims, sources) <==> forall c | c in claims ::
      && (forall i, j | 0 <= i < j < |c.support| :: c.support[i] != c.support[j])
      && forall span | span in c.support :: PointsInto(span, sources)
  {
    hide PointsInto, SupportRefusal, Unique;
    forall c | c in claims
      ensures Unique(c.support) <==> forall i, j | 0 <= i < j < |c.support| :: c.support[i] != c.support[j]
      ensures FirstSupportRefusal(c.support, sources).None? <==> forall span | span in c.support :: PointsInto(span, sources)
    {
      ToSetSize(c.support);
      forall span | span in c.support { SupportMeaning(span, sources); }
    }
  }

  lemma CitesMeaning(claims: seq<Claim>, id: string)
    ensures id in Used(claims) <==> Cites(claims, id)
  {}

  lemma EverySourceCitedIff(pkg: Package)
    requires Unique(SourceIds(pkg.sources)) && Used(pkg.claims) <= ToSet(SourceIds(pkg.sources))
    ensures |Used(pkg.claims)| == |pkg.sources| <==> forall x | x in pkg.sources :: Cites(pkg.claims, x.receipt.sourceId)
  {
    hide Used, Cites;
    var used, ids := Used(pkg.claims), SourceIds(pkg.sources);
    forall id ensures id in used <==> Cites(pkg.claims, id) { CitesMeaning(pkg.claims, id); }
    assert |ToSet(ids)| == |pkg.sources|;
    if forall x | x in pkg.sources :: Cites(pkg.claims, x.receipt.sourceId) {
      forall id | id in ToSet(ids) ensures id in used {
        var i :| 0 <= i < |ids| && ids[i] == id;
        assert pkg.sources[i] in pkg.sources;
      }
      assert used == ToSet(ids);
    }
    if |used| == |pkg.sources| {
      if used != ToSet(ids) { SubsetSize(used, ToSet(ids)); }
      forall x | x in pkg.sources ensures Cites(pkg.claims, x.receipt.sourceId) {
        var i :| 0 <= i < |pkg.sources| && pkg.sources[i] == x;
        assert ids[i] in ToSet(ids);
      }
    }
  }

  lemma ClaimsMeaning(pkg: Package)
    requires Unique(SourceIds(pkg.sources))
    ensures ClaimsPass(pkg) <==> ClaimsBound(pkg)
  {
    hide Unique, FirstClaimRefusal, AllInkCovered, SupportOk, CoversExactly, Cites, PointsInto, Used, Covered;
    CoverageIff(pkg.claims, pkg.candidate.text, pkg.sources);
    SupportOkIff(pkg.claims, pkg.sources);
    ClaimIdsDistinctIff(pkg.claims);
    if SupportOk(pkg.claims, pkg.sources) {
      CitedIsSubset(pkg.claims, pkg.sources);
      EverySourceCitedIff(pkg);
    }
  }

  lemma ClaimIdsDistinctIff(claims: seq<Claim>)
    ensures Unique(ClaimIds(claims)) <==> forall i, j | 0 <= i < j < |claims| :: claims[i].id != claims[j].id
  {
    ToSetSize(ClaimIds(claims));
    if Unique(ClaimIds(claims)) {
      forall i, j | 0 <= i < j < |claims| ensures claims[i].id != claims[j].id { assert ClaimIds(claims)[i] != ClaimIds(claims)[j]; }
    }
  }

  /** The whole candidate check succeeds exactly under this condition, in which no list is walked and nothing is
      looked up. */
  lemma CandidateAcceptedIff(world: World, subject: Subject, ctx: EvidenceContext, now: int)
    ensures CandidateRefusal(world, subject, ctx, now).None? <==> AcceptableCandidate(world, subject, ctx, now)
  {
    hide CandidateRefusal, ValidSubject, ValidPackage, AnswerBound, SourcesPass, ClaimsPass, OneSetOfSources, SourceBound,
      ClaimsBound, Unique;
    CandidateReduces(world, subject, ctx, now);
    if subject.candidate.PackageCandidate? {
      var pkg := subject.candidate.pkg;
      if SourcesPass(pkg, subject, ctx, now) {
        SourcesAreOneSet(pkg, subject, ctx, now);
      } else if OneSetOfSources(pkg, ctx) && forall x | x in pkg.sources :: SourceBound(x, subject, now) {
        OneSetPasses(pkg, subject, ctx, now);
      }
      if SourcesPass(pkg, subject, ctx, now) {
        assert Unique(SourceIds(pkg.sources)) by { PassingSourcesUnique(pkg, subject, ctx, now); }
        ClaimsMeaning(pkg);
      }
    }
  }

  lemma PassingSourcesUnique(pkg: Package, subject: Subject, ctx: EvidenceContext, now: int)
    requires SourcesPass(pkg, subject, ctx, now)
    ensures Unique(SourceIds(pkg.sources))
  {}
}
