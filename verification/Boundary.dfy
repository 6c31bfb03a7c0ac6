/** Schema-checked, scoped access and review (scripts/review-policy/boundary.ts). */
module Boundary {
  import opened Collections
  import opened PolicyTypes
  import opened Evaluation

  /** What the signature verifier says about a snapshot it has accepted. */
  datatype SnapshotReceipt = SnapshotReceipt(snapshotId: string, snapshotDigest: Digest, organization: string, now: int)

  predicate CheckSnapshot(s: Snapshot, receipt: SnapshotReceipt) {
    && ValidSnapshot(s) && SafeInteger(receipt.now) && receipt.now >= 0
    && s.id == receipt.snapshotId && s.organization == receipt.organization
    && s.policyDigest == DraftPolicyDigest && SnapshotDigest(s) == receipt.snapshotDigest
    && s.issuedAt <= receipt.now < s.expiresAt
    && UniqueSnapshotIds(s)
  }

  /** The lists of a snapshot name nobody and nothing twice. */
  ghost predicate DistinctIds(s: Snapshot) {
    && (forall i, j | 0 <= i < j < |s.principals| :: s.principals[i].id != s.principals[j].id)
    && (forall i, j | 0 <= i < j < |s.resources| :: s.resources[i].id != s.resources[j].id)
    && (forall i, j | 0 <= i < j < |s.clearances| :: s.clearances[i].id != s.clearances[j].id)
    && (forall i, j | 0 <= i < j < |s.denials| :: s.denials[i].id != s.denials[j].id)
  }

  lemma DistinctIdsIff(s: Snapshot)
    ensures UniqueSnapshotIds(s) <==> DistinctIds(s)
  {
    ToSetSize(PrincipalIds(s.principals));
    ToSetSize(ResourceIds(s.resources));
    ToSetSize(ClearanceIds(s.clearances));
    ToSetSize(DenialIds(s.denials));
    if UniqueSnapshotIds(s) {
      forall i, j | 0 <= i < j < |s.principals| ensures s.principals[i].id != s.principals[j].id {
        assert PrincipalIds(s.principals)[i] != PrincipalIds(s.principals)[j];
      }
      forall i, j | 0 <= i < j < |s.resources| ensures s.resources[i].id != s.resources[j].id {
        assert ResourceIds(s.resources)[i] != ResourceIds(s.resources)[j];
      }
      forall i, j | 0 <= i < j < |s.clearances| ensures s.clearances[i].id != s.clearances[j].id {
        assert ClearanceIds(s.clearances)[i] != ClearanceIds(s.clearances)[j];
      }
      forall i, j | 0 <= i < j < |s.denials| ensures s.denials[i].id != s.denials[j].id {
        assert DenialIds(s.denials)[i] != DenialIds(s.denials)[j];
      }
    }
  }

  predicate Matches(values: seq<string>, value: string) { "*" in values || value in values }

  predicate Applies(d: Denial, r: Request) {
    && Matches(d.actors, r.actor) && Matches(d.domains, r.domain) && Matches(d.resources, r.resource)
    && r.mode in d.modes && r.operation in d.operations
    && Matches(d.purposes, r.purpose) && Matches(d.environments, r.environment)
  }

  predicate Denied(r: Request, s: Snapshot) {
    exists d | d in s.denials :: Applies(d, r)
  }

  predicate ScopeMatches(r: Request, s: Snapshot) {
    && r.organization == s.organization && r.policyDigest == DraftPolicyDigest
    && exists x | x in s.resources :: x.id == r.resource && x.environment == r.environment
  }

  predicate InScope(c: Clearance, r: Request) {
    r.purpose in c.purposes && r.environment in c.environments
  }

  function InScopeTest(r: Request): Clearance -> bool {
    c => InScope(c, r)
  }

  function ContextFor(r: Request, s: Snapshot, now: int): Context {
    Context(s.principals, s.resources, Filter(s.clearances, InScopeTest(r)), s.mandates, now)
  }

  function AccessOf(r: Request): Access {
    Access(r.actor, r.mode, r.domain, r.resource, r.operation)
  }

  function ScopedAccess(r: Request, s: Snapshot, receipt: SnapshotReceipt): Verdict {
    if !ValidRequest(r) then Verdict(false, InvalidRequest)
    else if !CheckSnapshot(s, receipt) then Verdict(false, InvalidOrStaleSnapshot)
    else if !ScopeMatches(r, s) then Verdict(false, ScopeOrPolicyMismatch)
    else if Denied(r, s) then Verdict(false, ExplicitDenial)
    else SimulateAccess(AccessOf(r), ContextFor(r, s, receipt.now))
  }

  function ReviewRequest(s: Subject): Request {
    Request(s.requester, s.mode, s.domain, s.resource, ReviewRelease, s.purpose, s.environment, s.organization, s.policyDigest)
  }

  function ReadRequest(s: Subject, actor: string): Request {
    ReviewRequest(s).(actor := actor, operation := Read)
  }

  /** A denial of review_release takes away the reviewer's clearances, not the reviewer's records. */
  predicate Standing(c: Clearance, r: Request, s: Snapshot) {
    !Denied(r.(actor := c.subject), s)
  }

  function StandingTest(r: Request, s: Snapshot): Clearance -> bool {
    c => Standing(c, r, s)
  }

  function ReviewContext(subject: Subject, s: Snapshot, now: int): Context {
    var r := ReviewRequest(subject);
    var ctx := ContextFor(r, s, now);
    ctx.(clearances := Filter(ctx.clearances, StandingTest(r, s)))
  }

  predicate AudienceMayRead(subject: Subject, s: Snapshot, receipt: SnapshotReceipt) {
    forall a | a in subject.audience :: ScopedAccess(ReadRequest(subject, a), s, receipt).yes
  }

  function ScopedReviewRefusal(subject: Subject, records: seq<ReviewRecord>, s: Snapshot, receipt: SnapshotReceipt): Option<Reason> {
    if !ValidSubject(subject) || !ValidRecords(records) then Some(InvalidReviewContract)
    else if !CheckSnapshot(s, receipt) then Some(InvalidOrStaleSnapshot)
    else if !ScopeMatches(ReviewRequest(subject), s) then Some(ScopeOrPolicyMismatch)
    else if !AudienceMayRead(subject, s, receipt) then Some(AudienceAccessDenied)
    else if Denied(ReviewRequest(subject), s) then Some(ExplicitDenial)
    else None
  }

  function ScopedReview(subject: Subject, records: seq<ReviewRecord>, s: Snapshot, receipt: SnapshotReceipt): Verdict {
    match ScopedReviewRefusal(subject, records, s, receipt)
    case Some(reason) => Verdict(false, reason)
    case None => ReleaseReview(subject, records, ReviewContext(subject, s, receipt.now))
  }

  method CheckAudience(subject: Subject, s: Snapshot, receipt: SnapshotReceipt) returns (mayRead: bool)
    ensures mayRead == AudienceMayRead(subject, s, receipt)
  {
    hide ScopedAccess;
    for i := 0 to |subject.audience|
      invariant forall k | 0 <= k < i :: ScopedAccess(ReadRequest(subject, subject.audience[k]), s, receipt).yes
    {
      var access := ScopedAccess(ReadRequest(subject, subject.audience[i]), s, receipt);
      if !access.yes { return false; }
    }
    return true;
  }

  method CheckScopedReview(subject: Subject, records: seq<ReviewRecord>, s: Snapshot, receipt: SnapshotReceipt)
    returns (verdict: Verdict)
    ensures verdict == ScopedReview(subject, records, s, receipt)
  {
    if !ValidSubject(subject) || !ValidRecords(records) { return Verdict(false, InvalidReviewContract); }
    if !CheckSnapshot(s, receipt) { return Verdict(false, InvalidOrStaleSnapshot); }
    var request := ReviewRequest(subject);
    if !ScopeMatches(request, s) { return Verdict(false, ScopeOrPolicyMismatch); }
    var mayRead := CheckAudience(subject, s, receipt);
    if !mayRead { return Verdict(false, AudienceAccessDenied); }
    if Denied(request, s) { return Verdict(false, ExplicitDenial); }
    var context := ContextFor(request, s, receipt.now);
    context := context.(clearances := Filter(context.clearances, StandingTest(request, s)));
    verdict := SimulateReleaseReview(subject, records, context);
  }

  /** The reviewer may read every listed resource in the role the record names. */
  predicate ReviewerCanReadSources(subject: Subject, record: ReviewRecord, resources: seq<string>, s: Snapshot, receipt: SnapshotReceipt) {
    var principal := FindPrincipal(s.principals, record.reviewer);
    && CheckSnapshot(s, receipt)
    && principal.Some? && record.role in principal.value.roles && subject.domain in principal.value.domains
    && record.role in ReviewerRoles(subject.mode)
    && forall resource | resource in resources :: ReviewerCanRead(subject, record, resource, s, receipt.now)
  }

  predicate ReviewerCanRead(subject: Subject, record: ReviewRecord, resource: string, s: Snapshot, now: int) {
    var request := ReadRequest(subject, record.reviewer).(resource := resource);
    var target := FindResource(s.resources, resource);
    && ScopeMatches(request, s)
    && target.Some? && target.value.domain == subject.domain && target.value.classification != Protected
    && target.value.classification in ModeClasses(subject.mode)
    && !Denied(request, s)
    && HasClearance(AccessOf(request), record.role, ContextFor(request, s, now))
  }
}
