/** Clearances, access and release review (scripts/review-policy/simulate.ts). */
module Evaluation {
  import opened Collections
  import opened PolicyTypes

  datatype Context = Context(
    principals: seq<Principal>, resources: seq<Resource>, clearances: seq<Clearance>,
    mandates: seq<Mandate>, now: int)

  /** What one access decision is about; purpose and environment have been applied already. */
  datatype Access = Access(actor: string, mode: Mode, domain: string, resource: string, operation: Operation)

  function FindPrincipal(ps: seq<Principal>, id: string): Option<Principal> {
    Find(ps, (p: Principal) => p.id == id)
  }

  function FindResource(rs: seq<Resource>, id: string): Option<Resource> {
    Find(rs, (r: Resource) => r.id == id)
  }

  /** The issuer is another principal, an access administrator of the domain, and holds a mandate. */
  predicate IssuerMandated(a: Access, role: Role, issuer: string, ctx: Context) {
    var found := FindPrincipal(ctx.principals, issuer);
    && issuer != a.actor
    && found.Some?
    && AccessAdministrator in found.value.roles
    && a.domain in found.value.domains
    && exists m | m in ctx.mandates :: m.issuer == issuer && a.domain in m.domains && role in m.roles && a.mode in m.modes
  }

  predicate Grants(c: Clearance, a: Access, role: Role, ctx: Context) {
    && c.subject == a.actor && c.role == role && c.domain == a.domain
    && a.mode in c.modes && a.resource in c.resources && a.operation in c.operations
    && !c.revoked && c.issuedAt <= ctx.now < c.expiresAt
    && IssuerMandated(a, role, c.issuer, ctx)
  }

  predicate HasClearance(a: Access, role: Role, ctx: Context) {
    exists c | c in ctx.clearances :: Grants(c, a, role, ctx)
  }

  predicate UniqueContextIds(ctx: Context) {
    Unique(PrincipalIds(ctx.principals)) && Unique(ResourceIds(ctx.resources)) && Unique(ClearanceIds(ctx.clearances))
  }

  function SimulateAccess(a: Access, ctx: Context): Verdict {
    if !UniqueContextIds(ctx) then Verdict(false, InvalidContext) else
    var actor := FindPrincipal(ctx.principals, a.actor);
    var resource := FindResource(ctx.resources, a.resource);
    if actor.None? || resource.None? then Verdict(false, UnknownPrincipalOrResource)
    else if resource.value.classification == Protected then Verdict(false, ProtectedResource)
    else if resource.value.domain != a.domain || a.domain !in actor.value.domains then Verdict(false, DomainMismatch)
    else if resource.value.classification !in ModeClasses(a.mode) || a.operation !in ModeOperations(a.mode) then
      Verdict(false, ModeScopeDenied)
    else if forall r | r in actor.value.roles :: r !in ModeRoles(a.mode) then Verdict(false, RoleDenied)
    else if forall r | r in actor.value.roles && r in ModeRoles(a.mode) :: !HasClearance(a, r, ctx) then
      Verdict(false, ClearanceRequired)
    else Verdict(true, WithinExplicitClearance)
  }

  // ---------- release review ----------

  /** Whether one record can fill one required role; the distinct-reviewer test is left to the caller. */
  predicate Qualified(r: ReviewRecord, role: Role, s: Subject, ctx: Context) {
    var reviewer := FindPrincipal(ctx.principals, r.reviewer);
    && r.role == role && r.decision == Approve && r.evidenceVerified && r.authorityCleared && r.outputPass && !r.revoked
    && r.reviewedAt <= ctx.now < r.expiresAt
    && r.reviewer != s.requester && r.reviewer != s.producer
    && reviewer.Some? && role in reviewer.value.roles && s.domain in reviewer.value.domains
    && HasClearance(Access(r.reviewer, s.mode, s.domain, s.resource, ReviewRelease), role, ctx)
  }

  type Test = (ReviewRecord, Role) -> bool

  function Qualification(s: Subject, ctx: Context): Test {
    (r, role) => Qualified(r, role, s, ctx)
  }

  /** The first record that passes the test for this role and whose reviewer is not used yet. */
  function Pick(reviews: seq<ReviewRecord>, q: Test, role: Role, used: set<string>): (r: Option<ReviewRecord>)
    ensures r.None? <==> forall x | x in reviews :: !(q(x, role) && x.reviewer !in used)
    ensures r.Some? ==> r.value in reviews && q(r.value, role) && r.value.reviewer !in used
  {
    if reviews == [] then None
    else if q(reviews[0], role) && reviews[0].reviewer !in used then Some(reviews[0])
    else Pick(reviews[1..], q, role, used)
  }

  lemma {:induction false} PickIsFirst(reviews: seq<ReviewRecord>, q: Test, role: Role, used: set<string>, k: nat)
    requires k < |reviews| && q(reviews[k], role) && reviews[k].reviewer !in used
    requires forall j | 0 <= j < k :: !(q(reviews[j], role) && reviews[j].reviewer !in used)
    ensures Pick(reviews, q, role, used) == Some(reviews[k])
  {
    if k > 0 { PickIsFirst(reviews[1..], q, role, used, k - 1); }
  }

  /** The greedy choice, one record per role in the order the roles are listed. */
  function Choose(roles: seq<Role>, reviews: seq<ReviewRecord>, q: Test, used: set<string>): Option<seq<ReviewRecord>>
  {
    if roles == [] then Some([]) else
    match Pick(reviews, q, roles[0], used)
    case None => None
    case Some(review) =>
      match Choose(roles[1..], reviews, q, used + {review.reviewer})
      case None => None
      case Some(rest) => Some([review] + rest)
  }

  function ForSubject(records: seq<ReviewRecord>, binding: Digest): seq<ReviewRecord> {
    Filter(records, (r: ReviewRecord) => r.subjectHash == binding)
  }

  /** Everything that is decided before reviewers are chosen. */
  function ReviewRefusal(s: Subject, records: seq<ReviewRecord>, ctx: Context): Option<Reason> {
    var resource := FindResource(ctx.resources, s.resource);
    if s.policyVersion != DRAFT_POLICY_VERSION || !UniqueContextIds(ctx) || !Unique(RecordIds(records)) || s.audience == [] then
      Some(InvalidContext)
    else if resource.None? || resource.value.classification == Protected || resource.value.domain != s.domain
            || resource.value.classification !in ModeClasses(s.mode) then
      Some(ResourceDenied)
    else if exists r | r in records :: r.subjectHash == SubjectDigest(s) && r.decision == Reject then
      Some(ReviewRejected)
    else None
  }

  function ReleaseReview(s: Subject, records: seq<ReviewRecord>, ctx: Context): Verdict {
    match ReviewRefusal(s, records, ctx)
    case Some(reason) => Verdict(false, reason)
    case None =>
      if Choose(ReviewerRoles(s.mode), ForSubject(records, SubjectDigest(s)), Qualification(s, ctx), {}).Some?
      then Verdict(true, ReviewCompleteNotReleaseAuthority)
      else Verdict(false, QualifiedReviewRequired)
  }

  /** simulateReleaseReview: a loop over the required roles that grows the set of used reviewers. */
  method SimulateReleaseReview(s: Subject, records: seq<ReviewRecord>, ctx: Context) returns (verdict: Verdict)
    ensures verdict == ReleaseReview(s, records, ctx)
  {
    var refusal := ReviewRefusal(s, records, ctx);
    if refusal.Some? {
      return Verdict(false, refusal.value);
    }
    var reviews := ForSubject(records, SubjectDigest(s));
    var required := ReviewerRoles(s.mode);
    var q := Qualification(s, ctx);
    var reviewers: set<string> := {};
    for i := 0 to |required|
      invariant Choose(required, reviews, q, {}).Some? <==> Choose(required[i..], reviews, q, reviewers).Some?
    {
      assert required[i..][0] == required[i] && required[i..][1..] == required[i + 1..];
      var review := Pick(reviews, q, required[i], reviewers);
      if review.None? {
        return Verdict(false, QualifiedReviewRequired);
      }
      reviewers := reviewers + {review.value.reviewer};
    }
    return Verdict(true, ReviewCompleteNotReleaseAuthority);
  }

  // ---------- what the greedy choice means ----------

  ghost predicate DistinctReviewers(panel: seq<ReviewRecord>) {
    forall i, j | 0 <= i < j < |panel| :: panel[i].reviewer != panel[j].reviewer
  }

  /** A panel fills every required role with a record that passes the test, no reviewer twice. */
  ghost predicate Panel(panel: seq<ReviewRecord>, roles: seq<Role>, reviews: seq<ReviewRecord>, q: Test) {
    && |panel| == |roles|
    && DistinctReviewers(panel)
    && forall i | 0 <= i < |roles| :: panel[i] in reviews && q(panel[i], roles[i])
  }

  /** Sound on every list of records: a successful choice is a panel. */
  lemma {:induction false} ChoiceIsPanel(roles: seq<Role>, reviews: seq<ReviewRecord>, q: Test, used: set<string>)
    requires Choose(roles, reviews, q, used).Some?
    ensures Panel(Choose(roles, reviews, q, used).value, roles, reviews, q)
    ensures forall r | r in Choose(roles, reviews, q, used).value :: r.reviewer !in used
  {
    if roles != [] {
      var review := Pick(reviews, q, roles[0], used).value;
      ChoiceIsPanel(roles[1..], reviews, q, used + {review.reviewer});
      var rest := Choose(roles[1..], reviews, q, used + {review.reviewer}).value;
      var panel := [review] + rest;
      forall i | 0 <= i < |roles| ensures panel[i] in reviews && q(panel[i], roles[i]) {
        if i > 0 { assert panel[i] == rest[i - 1] && roles[i] == roles[1..][i - 1]; }
      }
      forall i, j | 0 <= i < j < |panel| ensures panel[i].reviewer != panel[j].reviewer {
        assert panel[j] == rest[j - 1];
        if i > 0 { assert panel[i] == rest[i - 1]; } else { assert panel[j] in rest; }
      }
    }
  }

  ghost predicate OneRecordPerReviewer(reviews: seq<ReviewRecord>) {
    forall x, y | x in reviews && y in reviews && x.reviewer == y.reviewer :: x == y
  }

  ghost predicate EveryRoleServed(roles: seq<Role>, reviews: seq<ReviewRecord>, q: Test) {
    forall role | role in roles :: exists r :: r in reviews && q(r, role)
  }

  /** The test looks at the role the record was filed under, as Qualified does. */
  ghost predicate RoleBound(q: Test) {
    forall r: ReviewRecord, role :: q(r, role) ==> r.role == role
  }

  /** Exact when no reviewer has two records: then the order of the records does not matter
      and nothing is lost by choosing greedily. */
  lemma {:induction false} ChoiceIsExact(roles: seq<Role>, reviews: seq<ReviewRecord>, q: Test, used: set<string>)
    requires OneRecordPerReviewer(reviews) && Distinct(roles) && RoleBound(q)
    requires forall r | r in reviews && r.reviewer in used :: r.role !in roles
    ensures Choose(roles, reviews, q, used).Some? <==> EveryRoleServed(roles, reviews, q)
  {
    if roles != [] {
      var pick := Pick(reviews, q, roles[0], used);
      assert roles[0] in roles && forall role :: role in roles <==> role == roles[0] || role in roles[1..];
      if pick.Some? {
        assert forall role | role in roles[1..] :: role != roles[0];
        ChoiceIsExact(roles[1..], reviews, q, used + {pick.value.reviewer});
      }
    }
  }

  lemma ReviewerRolesDistinct(mode: Mode)
    ensures Distinct(ReviewerRoles(mode)) && 1 <= |ReviewerRoles(mode)| <= 2
  {}

  /** With two roles the outcome on any list whatever: the first record that passes for the first
      role must leave another reviewer for the second. */
  lemma GreedyWithTwoRoles(first: Role, second: Role, reviews: seq<ReviewRecord>, q: Test, k: nat)
    requires k < |reviews| && q(reviews[k], first)
    requires forall j | 0 <= j < k :: !q(reviews[j], first)
    ensures Choose([first, second], reviews, q, {}).Some?
       <==> exists r :: r in reviews && q(r, second) && r.reviewer != reviews[k].reviewer
  {
    PickIsFirst(reviews, q, first, {}, k);
    assert [first, second][1..] == [second];
    LastRole(second, reviews, q, {} + {reviews[k].reviewer});
  }

  lemma LastRole(role: Role, reviews: seq<ReviewRecord>, q: Test, used: set<string>)
    ensures Choose([role], reviews, q, used).Some? <==> exists r :: r in reviews && q(r, role) && r.reviewer !in used
  {
    assert [role][1..] == [];
    if r :| r in reviews && q(r, role) && r.reviewer !in used {
      assert Pick(reviews, q, role, used).Some?;
    }
  }

  /** So a panel that exists can be missed: one reviewer who holds both roles and is listed first is
      spent on the first role. This is why the log admits one record per reviewer and subject. */
  lemma GreedyCanMissAPanel(a: ReviewRecord, a2: ReviewRecord, b: ReviewRecord, q: Test)
    requires q(a, DomainReviewer) && q(a2, GovernanceOfficer) && q(b, DomainReviewer)
    requires RoleBound(q) && a.reviewer == a2.reviewer != b.reviewer
    ensures Panel([b, a2], ReviewerRoles(GovernanceMode), [a, a2, b], q)
    ensures Choose(ReviewerRoles(GovernanceMode), [a, a2, b], q, {}).None?
  {
    GreedyWithTwoRoles(DomainReviewer, GovernanceOfficer, [a, a2, b], q, 0);
  }

  // One such list: ann may review as domain reviewer and as governance officer, bob as domain reviewer.

  function ExampleClearance(id: string, subject: string, role: Role): Clearance {
    Clearance(id, subject, role, "admin", "health", [GovernanceMode], ["draft"], [ReviewRelease], 0, 100, false, ["care"], ["dev"])
  }

  function ExampleContext(): Context {
    Context(
      [Principal("ann", [DomainReviewer, GovernanceOfficer], ["health"]), Principal("bob", [DomainReviewer], ["health"]),
       Principal("admin", [AccessAdministrator], ["health"])],
      [Resource("draft", "health", Public, "dev")],
      [ExampleClearance("c1", "ann", DomainReviewer), ExampleClearance("c2", "ann", GovernanceOfficer),
       ExampleClearance("c3", "bob", DomainReviewer)],
      [Mandate("admin", ["health"], [DomainReviewer, GovernanceOfficer], [GovernanceMode])], 10)
  }

  function ExampleSubject(): Subject {
    Subject(OtherCandidate(false, "draft"), GovernanceMode, "health", "draft", ["pat"], "pat", "model", DRAFT_POLICY_VERSION,
            "care", "dev", "team", DraftPolicyDigest)
  }

  function ExampleRecord(id: string, reviewer: string, role: Role): ReviewRecord {
    ReviewRecord(id, reviewer, role, SubjectDigest(ExampleSubject()), Approve, true, true, true, 5, 50, false, None)
  }

  function ExampleRecords(): seq<ReviewRecord> {
    [ExampleRecord("r1", "ann", DomainReviewer), ExampleRecord("r2", "ann", GovernanceOfficer), ExampleRecord("r3", "bob", DomainReviewer)]
  }

  lemma ExampleQualifies(id: string, reviewer: string, role: Role, i: nat)
    requires i < 3 && ExampleContext().clearances[i].subject == reviewer && ExampleContext().clearances[i].role == role
    requires ExampleContext().principals[if i == 2 then 1 else 0].id == reviewer
    ensures Qualified(ExampleRecord(id, reviewer, role), role, ExampleSubject(), ExampleContext())
  {
    var ctx := ExampleContext();
    var a := Access(reviewer, GovernanceMode, "health", "draft", ReviewRelease);
    FindIsFirst(ctx.principals, (p: Principal) => p.id == "admin", 2);
    FindIsFirst(ctx.principals, (p: Principal) => p.id == reviewer, if i == 2 then 1 else 0);
    assert ctx.mandates[0] in ctx.mandates;
    assert IssuerMandated(a, role, "admin", ctx);
    assert ctx.clearances[i] in ctx.clearances && Grants(ctx.clearances[i], a, role, ctx);
  }

  lemma ExampleIdsUnique()
    ensures UniqueContextIds(ExampleContext()) && Unique(RecordIds(ExampleRecords()))
  {
    var ctx := ExampleContext();
    ToSetSize(PrincipalIds(ctx.principals));
    ToSetSize(ResourceIds(ctx.resources));
    ToSetSize(ClearanceIds(ctx.clearances));
    ToSetSize(RecordIds(ExampleRecords()));
  }

  lemma ExampleIsOpen()
    ensures ReviewRefusal(ExampleSubject(), ExampleRecords(), ExampleContext()).None?
    ensures ForSubject(ExampleRecords(), SubjectDigest(ExampleSubject())) == ExampleRecords()
  {
    hide UniqueContextIds, Unique;
    ExampleIdsUnique();
    AllForSubject(ExampleRecords(), SubjectDigest(ExampleSubject()));
    FindIsFirst(ExampleContext().resources, (r: Resource) => r.id == "draft", 0);
  }

  /** A complete panel is on the list, and simulateReleaseReview asks for more reviews. */
  lemma ReleaseReviewMissesAPanel()
    ensures var s, ctx, records := ExampleSubject(), ExampleContext(), ExampleRecords();
      && Panel([records[2], records[1]], ReviewerRoles(s.mode), ForSubject(records, SubjectDigest(s)), Qualification(s, ctx))
      && ReleaseReview(s, records, ctx) == Verdict(false, QualifiedReviewRequired)
  {
    hide Qualified, ReviewRefusal, Choose, Panel, ForSubject, ExampleContext;
    var records := ExampleRecords();
    ExampleIsOpen();
    QualifiedExamples();
    assert RoleBound(Qualification(ExampleSubject(), ExampleContext())) by { ExampleRoleBound(); }
    GreedyCanMissAPanel(records[0], records[1], records[2], Qualification(ExampleSubject(), ExampleContext()));
  }

  lemma QualifiedExamples()
    ensures Qualified(ExampleRecords()[0], DomainReviewer, ExampleSubject(), ExampleContext())
    ensures Qualified(ExampleRecords()[1], GovernanceOfficer, ExampleSubject(), ExampleContext())
    ensures Qualified(ExampleRecords()[2], DomainReviewer, ExampleSubject(), ExampleContext())
  {
    hide Qualified;
    ExampleQualifies("r1", "ann", DomainReviewer, 0);
    ExampleQualifies("r2", "ann", GovernanceOfficer, 1);
    ExampleQualifies("r3", "bob", DomainReviewer, 2);
  }

  lemma ExampleRoleBound()
    ensures RoleBound(Qualification(ExampleSubject(), ExampleContext()))
  {
    hide ExampleContext, HasClearance;
  }

  lemma {:induction false} AllForSubject(records: seq<ReviewRecord>, binding: Digest)
    requires forall r | r in records :: r.subjectHash == binding
    ensures ForSubject(records, binding) == records
  {
    if records != [] { AllForSubject(records[1..], binding); }
  }
}
