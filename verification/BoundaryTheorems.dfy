/** What scoped access and scoped review mean, and how they react to new grants and new denials. */
module BoundaryTheorems {
  import opened Collections
  import opened PolicyTypes
  import opened Evaluation
  import opened Boundary

  // ---------- lookups in lists with unique ids ----------

  lemma PrincipalLookup(ps: seq<Principal>, p: Principal)
    requires Unique(PrincipalIds(ps)) && p in ps
    ensures FindPrincipal(ps, p.id) == Some(p)
  {
    ToSetSize(PrincipalIds(ps));
    var found := FindPrincipal(ps, p.id).value;
    var i :| 0 <= i < |ps| && ps[i] == p;
    var j :| 0 <= j < |ps| && ps[j] == found;
    assert PrincipalIds(ps)[i] == PrincipalIds(ps)[j];
  }

  lemma ResourceLookup(rs: seq<Resource>, r: Resource)
    requires Unique(ResourceIds(rs)) && r in rs
    ensures FindResource(rs, r.id) == Some(r)
  {
    ToSetSize(ResourceIds(rs));
    var found := FindResource(rs, r.id).value;
    var i :| 0 <= i < |rs| && rs[i] == r;
    var j :| 0 <= j < |rs| && rs[j] == found;
    assert ResourceIds(rs)[i] == ResourceIds(rs)[j];
  }

  lemma ClearancesDistinctIff(cs: seq<Clearance>)
    ensures Unique(ClearanceIds(cs)) <==> DistinctKeys(cs, (c: Clearance) => c.id)
  {
    ToSetSize(ClearanceIds(cs));
    if Unique(ClearanceIds(cs)) {
      forall i, j | 0 <= i < j < |cs| ensures cs[i].id != cs[j].id {
        assert ClearanceIds(cs)[i] != ClearanceIds(cs)[j];
      }
    }
  }

  lemma FilteredClearancesStayUnique(cs: seq<Clearance>, test: Clearance -> bool)
    requires Unique(ClearanceIds(cs))
    ensures Unique(ClearanceIds(Filter(cs, test)))
  {
    ClearancesDistinctIff(cs);
    var key := (c: Clearance) => c.id;
    FilterKeepsDistinct(cs, test, key);
    ClearancesDistinctIff(Filter(cs, test));
  }

  lemma ContextIdsStayUnique(r: Request, s: Snapshot, now: int)
    requires UniqueSnapshotIds(s)
    ensures UniqueContextIds(ContextFor(r, s, now))
  {
    FilteredClearancesStayUnique(s.clearances, InScopeTest(r));
  }

  lemma ReviewContextIdsStayUnique(subject: Subject, s: Snapshot, now: int)
    requires UniqueSnapshotIds(s)
    ensures UniqueContextIds(ReviewContext(subject, s, now))
  {
    ContextIdsStayUnique(ReviewRequest(subject), s, now);
    FilteredClearancesStayUnique(ContextFor(ReviewRequest(subject), s, now).clearances, StandingTest(ReviewRequest(subject), s));
  }

  /** The draft policy, read by role, class and operation instead of by mode. */
  lemma DraftPolicyByColumn(m: Mode, role: Role, c: ResourceClass, op: Operation)
    ensures role in ModeRoles(m) <==>
      || m == DefaultMode || (m == GovernanceMode && role in {DomainReviewer, GovernanceOfficer})
      || (m == ArchitectMode && role == EngineeringMaintainer)
    ensures c in ModeClasses(m) <==>
      c == Public || (c == DomainRestricted && m == GovernanceMode) || (c == EngineeringSandbox && m == ArchitectMode)
    ensures op in ModeOperations(m) <==>
      || op in {Read, RequestReview} || (op == ReviewEvidence && m == GovernanceMode)
      || (op == ReviewRelease && m != DefaultMode) || (op in {Test, Debug, ProposeChange} && m == ArchitectMode)
    ensures role in ReviewerRoles(m) <==>
      || (role == DomainReviewer && m != ArchitectMode) || (role == GovernanceOfficer && m != DefaultMode)
      || (role == EngineeringMaintainer && m == ArchitectMode)
  {}

  /** The boundary's own snapshot check, over the fields: a well-formed snapshot of this draft policy that names
      nobody and nothing twice, is the one the receipt was given for, and is in its lifetime. */
  lemma SnapshotCheckIff(s: Snapshot, receipt: SnapshotReceipt)
    ensures CheckSnapshot(s, receipt) <==>
      && ValidSnapshot(s) && DistinctIds(s) && s.policyDigest == DraftPolicyDigest
      && receipt == SnapshotReceipt(s.id, SnapshotDigest(s), s.organization, receipt.now)
      && 0 <= receipt.now <= 9007199254740991 && s.issuedAt <= receipt.now < s.expiresAt
  {
    hide ValidSnapshot, UniqueSnapshotIds, DistinctIds;
    DistinctIdsIff(s);
  }

  // ---------- access without lookups, filters and orders ----------

  /** Another principal, an access administrator of the domain with a mandate, stands behind the grant. */
  ghost predicate Mandated(issuer: string, r: Request, role: Role, s: Snapshot) {
    && issuer != r.actor
    && (exists p :: p in s.principals && p.id == issuer && AccessAdministrator in p.roles && r.domain in p.domains)
    && (exists m :: m in s.mandates && m.issuer == issuer && r.domain in m.domains && role in m.roles && r.mode in m.modes)
  }

  /** One denial covers the request: "*" stands for every value of a list of names, and modes and
      operations are listed one by one. */
  ghost predicate Forbids(d: Denial, r: Request) {
    && ("*" in d.actors || r.actor in d.actors) && ("*" in d.domains || r.domain in d.domains)
    && ("*" in d.resources || r.resource in d.resources)
    && ("*" in d.purposes || r.purpose in d.purposes) && ("*" in d.environments || r.environment in d.environments)
    && r.mode in d.modes && r.operation in d.operations
  }

  lemma DenialMeaning(r: Request, s: Snapshot)
    ensures Denied(r, s) <==> exists d :: d in s.denials && Forbids(d, r)
  {
    forall d ensures Applies(d, r) <==> Forbids(d, r) {}
    if d :| d in s.denials && Forbids(d, r) { assert Applies(d, r); }
  }

  ghost predicate QualifyingGrant(c: Clearance, r: Request, role: Role, s: Snapshot, now: int) {
    && c.subject == r.actor && c.role == role && c.domain == r.domain
    && r.mode in c.modes && r.resource in c.resources && r.operation in c.operations
    && r.purpose in c.purposes && r.environment in c.environments
    && !c.revoked && c.issuedAt <= now < c.expiresAt
    && Mandated(c.issuer, r, role, s)
  }

  ghost predicate Granted(r: Request, role: Role, s: Snapshot, now: int) {
    exists c :: c in s.clearances && QualifyingGrant(c, r, role, s, now)
  }

  ghost predicate ReachableResource(r: Request, s: Snapshot) {
    exists x :: x in s.resources && x.id == r.resource && x.environment == r.environment && x.domain == r.domain
             && x.classification != Protected && x.classification in ModeClasses(r.mode)
  }

  ghost predicate GrantedActor(r: Request, s: Snapshot, now: int) {
    exists p, role :: p in s.principals && p.id == r.actor && r.domain in p.domains
                   && role in p.roles && role in ModeRoles(r.mode) && Granted(r, role, s, now)
  }

  /** The declarative condition: the request is in scope, a qualifying grant exists and no denial applies. */
  ghost predicate MayAccess(r: Request, s: Snapshot, now: int) {
    && r.organization == s.organization && r.policyDigest == DraftPolicyDigest
    && (forall d | d in s.denials :: !Forbids(d, r))
    && r.operation in ModeOperations(r.mode)
    && ReachableResource(r, s)
    && GrantedActor(r, s, now)
  }

  lemma MandateMeaning(issuer: string, r: Request, role: Role, s: Snapshot, ctx: Context)
    requires Unique(PrincipalIds(s.principals)) && ctx.principals == s.principals && ctx.mandates == s.mandates
    ensures IssuerMandated(AccessOf(r), role, issuer, ctx) <==> Mandated(issuer, r, role, s)
  {
    if Mandated(issuer, r, role, s) {
      var p :| p in s.principals && p.id == issuer && AccessAdministrator in p.roles && r.domain in p.domains;
      PrincipalLookup(s.principals, p);
    }
  }

  lemma ClearanceMeaning(r: Request, role: Role, s: Snapshot, now: int)
    requires Unique(PrincipalIds(s.principals))
    ensures HasClearance(AccessOf(r), role, ContextFor(r, s, now)) <==> Granted(r, role, s, now)
  {
    var a, ctx := AccessOf(r), ContextFor(r, s, now);
    forall c ensures c in ctx.clearances && Grants(c, a, role, ctx) <==> c in s.clearances && QualifyingGrant(c, r, role, s, now) {
      MandateMeaning(c.issuer, r, role, s, ctx);
      assert InScopeTest(r)(c) == InScope(c, r);
    }
  }

  /** simulateAccess, once the scope and the denials have been looked at. */
  lemma SimulationMeaning(r: Request, s: Snapshot, now: int)
    requires UniqueSnapshotIds(s)
    requires exists x :: x in s.resources && x.id == r.resource && x.environment == r.environment
    ensures SimulateAccess(AccessOf(r), ContextFor(r, s, now)).yes
       <==> r.operation in ModeOperations(r.mode) && ReachableResource(r, s) && GrantedActor(r, s, now)
  {
    hide HasClearance, Granted, Find, UniqueSnapshotIds, UniqueContextIds;
    var a, ctx := AccessOf(r), ContextFor(r, s, now);
    ContextIdsStayUnique(r, s, now);
    var x :| x in s.resources && x.id == r.resource && x.environment == r.environment;
    ResourceLookup(s.resources, x);
    forall role ensures HasClearance(a, role, ctx) <==> Granted(r, role, s, now) {
      ClearanceMeaning(r, role, s, now);
    }
    forall y | y in s.resources && y.id == r.resource ensures y == x { ResourceLookup(s.resources, y); }
    forall p | p in s.principals && p.id == r.actor ensures FindPrincipal(s.principals, r.actor) == Some(p) {
      PrincipalLookup(s.principals, p);
    }
  }

  lemma ReachableIsListed(r: Request, s: Snapshot)
    requires ReachableResource(r, s)
    ensures exists x :: x in s.resources && x.id == r.resource && x.environment == r.environment
  {}

  lemma AccessIffGrantedAndNotDenied(r: Request, s: Snapshot, receipt: SnapshotReceipt)
    ensures ScopedAccess(r, s, receipt).yes <==> ValidRequest(r) && CheckSnapshot(s, receipt) && MayAccess(r, s, receipt.now)
  {
    hide CheckSnapshot, ValidRequest, SimulateAccess, Applies, Forbids, GrantedActor, ReachableResource;
    DenialMeaning(r, s);
    if CheckSnapshot(s, receipt) && ScopeMatches(r, s) {
      ScopedSnapshotIds(s, receipt);
      SimulationMeaning(r, s, receipt.now);
    }
    if ReachableResource(r, s) { ReachableIsListed(r, s); }
  }

  /** In scope and not denied, the answer for a known principal and resource names the first thing that fails: the
      resource is protected, a domain differs, the mode does not reach class or operation, the actor has no role of
      the mode, or no role of the mode with a grant. */
  lemma AccessReasons(r: Request, s: Snapshot, receipt: SnapshotReceipt, p: Principal, x: Resource)
    requires ValidRequest(r) && CheckSnapshot(s, receipt)
    requires r.organization == s.organization && r.policyDigest == DraftPolicyDigest
    requires x in s.resources && x.id == r.resource && x.environment == r.environment
    requires p in s.principals && p.id == r.actor && forall d | d in s.denials :: !Forbids(d, r)
    ensures ScopedAccess(r, s, receipt) ==
      if x.classification == Protected then Verdict(false, ProtectedResource)
      else if !(x.domain == r.domain && r.domain in p.domains) then Verdict(false, DomainMismatch)
      else if !(x.classification in ModeClasses(r.mode) && r.operation in ModeOperations(r.mode)) then Verdict(false, ModeScopeDenied)
      else if !exists role :: role in p.roles && role in ModeRoles(r.mode) then Verdict(false, RoleDenied)
      else if !exists role :: role in p.roles && role in ModeRoles(r.mode) && Granted(r, role, s, receipt.now) then
        Verdict(false, ClearanceRequired)
      else Verdict(true, WithinExplicitClearance)
  {
    hide CheckSnapshot, ValidRequest, Forbids, Denied, Find, HasClearance, Granted, UniqueSnapshotIds, UniqueContextIds;
    ScopedSnapshotIds(s, receipt);
    DenialMeaning(r, s);
    ContextIdsStayUnique(r, s, receipt.now);
    PrincipalLookup(s.principals, p) by { ListsAreUnique(s); }
    ResourceLookup(s.resources, x) by { ListsAreUnique(s); }
    forall role ensures HasClearance(AccessOf(r), role, ContextFor(r, s, receipt.now)) <==> Granted(r, role, s, receipt.now) {
      ClearanceMeaning(r, role, s, receipt.now);
    }
  }

  lemma ListsAreUnique(s: Snapshot)
    requires UniqueSnapshotIds(s)
    ensures Unique(PrincipalIds(s.principals)) && Unique(ResourceIds(s.resources))
  {}

  /** Past request, snapshot and scope, a request is refused as denied exactly when some denial covers it, and as
      unknown exactly when none does and nobody has the actor's id. */
  lemma ExplicitDenialIff(r: Request, s: Snapshot, receipt: SnapshotReceipt)
    requires ValidRequest(r) && CheckSnapshot(s, receipt)
    requires r.organization == s.organization && r.policyDigest == DraftPolicyDigest
    requires exists x :: x in s.resources && x.id == r.resource && x.environment == r.environment
    ensures ScopedAccess(r, s, receipt) == Verdict(false, ExplicitDenial) <==> exists d :: d in s.denials && Forbids(d, r)
    ensures ScopedAccess(r, s, receipt) == Verdict(false, UnknownPrincipalOrResource) <==>
      (forall d | d in s.denials :: !Forbids(d, r)) && forall p | p in s.principals :: p.id != r.actor
  {
    hide CheckSnapshot, ValidRequest, Applies, Forbids, Find, HasClearance, UniqueSnapshotIds, UniqueContextIds;
    ScopedSnapshotIds(s, receipt);
    ContextIdsStayUnique(r, s, receipt.now);
    DenialMeaning(r, s);
    assert ScopeMatches(r, s);
  }

  /** Read access of a reviewer in the role of the review: like MayAccess, but the one role counts and the
      operations and roles of the mode do not. */
  ghost predicate MayReadAs(r: Request, role: Role, s: Snapshot, now: int) {
    && r.organization == s.organization && r.policyDigest == DraftPolicyDigest
    && (forall d | d in s.denials :: !Forbids(d, r))
    && ReachableResource(r, s)
    && Granted(r, role, s, now)
  }

  lemma ReviewerReadMeaning(subject: Subject, record: ReviewRecord, resource: string, s: Snapshot, now: int)
    requires UniqueSnapshotIds(s)
    ensures ReviewerCanRead(subject, record, resource, s, now)
       <==> MayReadAs(ReadBy(subject, record.reviewer, resource), record.role, s, now)
  {
    hide HasClearance, Granted, Find, Forbids, Applies;
    var r := ReadRequest(subject, record.reviewer).(resource := resource);
    assert r == ReadBy(subject, record.reviewer, resource);
    DenialMeaning(r, s);
    ClearanceMeaning(r, record.role, s, now);
    forall x | x in s.resources && x.id == resource ensures FindResource(s.resources, resource) == Some(x) {
      ResourceLookup(s.resources, x);
    }
  }

  /** The reviewer's evidence clearance, without lookups: a valid snapshot, a principal who holds the record's
      role in the domain, a role the mode asks for, and read access to every resource in that role. */
  lemma ReviewerCanReadSourcesIff(subject: Subject, record: ReviewRecord, resources: seq<string>, s: Snapshot, receipt: SnapshotReceipt)
    ensures ReviewerCanReadSources(subject, record, resources, s, receipt) <==>
      && CheckSnapshot(s, receipt) && record.role in ReviewerRoles(subject.mode)
      && (exists p :: p in s.principals && p.id == record.reviewer && record.role in p.roles && subject.domain in p.domains)
      && forall x | x in resources :: MayReadAs(ReadBy(subject, record.reviewer, x), record.role, s, receipt.now)
  {
    hide ReviewerCanRead, MayReadAs, Find;
    if CheckSnapshot(s, receipt) {
      ScopedSnapshotIds(s, receipt);
      forall x | x in resources { ReviewerReadMeaning(subject, record, x, s, receipt.now); }
      forall p | p in s.principals && p.id == record.reviewer ensures FindPrincipal(s.principals, record.reviewer) == Some(p) {
        PrincipalLookup(s.principals, p);
      }
    }
  }

  /** `more` says everything `s` says, except that it may hold further grants. */
  ghost predicate MoreGrants(s: Snapshot, more: Snapshot) {
    && more == s.(clearances := more.clearances)
    && forall c | c in s.clearances :: c in more.clearances
  }

  lemma MoreGrantsGrantMore(r: Request, s: Snapshot, more: Snapshot, now: int)
    requires MoreGrants(s, more) && GrantedActor(r, s, now)
    ensures GrantedActor(r, more, now)
  {
    var p, role :| p in s.principals && p.id == r.actor && r.domain in p.domains
      && role in p.roles && role in ModeRoles(r.mode) && Granted(r, role, s, now);
    var c :| c in s.clearances && QualifyingGrant(c, r, role, s, now);
    assert QualifyingGrant(c, r, role, more, now);
    assert Granted(r, role, more, now);
  }

  lemma NewGrantsNeverRevokeAccess(r: Request, s: Snapshot, more: Snapshot, receipt: SnapshotReceipt, receipt2: SnapshotReceipt)
    requires MoreGrants(s, more) && CheckSnapshot(more, receipt2) && receipt.now == receipt2.now
    requires ScopedAccess(r, s, receipt).yes
    ensures ScopedAccess(r, more, receipt2).yes
  {
    hide ScopedAccess, CheckSnapshot, ValidRequest, GrantedActor;
    assert ValidRequest(r) && MayAccess(r, s, receipt.now) by { AccessIffGrantedAndNotDenied(r, s, receipt); }
    MoreGrantsGrantMore(r, s, more, receipt.now);
    assert MayAccess(r, more, receipt.now);
    AccessIffGrantedAndNotDenied(r, more, receipt2);
  }

  ghost predicate MoreDenials(s: Snapshot, more: Snapshot) {
    && more == s.(denials := more.denials)
    && forall d | d in s.denials :: d in more.denials
  }

  lemma GrantsIgnoreDenials(r: Request, role: Role, s: Snapshot, more: Snapshot, now: int)
    requires more == s.(denials := more.denials)
    ensures Granted(r, role, s, now) == Granted(r, role, more, now)
  {
    forall c ensures QualifyingGrant(c, r, role, s, now) == QualifyingGrant(c, r, role, more, now) {}
  }

  lemma FewerDenialsAllowMore(r: Request, s: Snapshot, more: Snapshot, now: int)
    requires MoreDenials(s, more) && MayAccess(r, more, now)
    ensures MayAccess(r, s, now)
  {
    forall role ensures Granted(r, role, s, now) == Granted(r, role, more, now) {
      GrantsIgnoreDenials(r, role, s, more, now);
    }
    var p, role :| p in more.principals && p.id == r.actor && r.domain in p.domains
      && role in p.roles && role in ModeRoles(r.mode) && Granted(r, role, more, now);
    assert Granted(r, role, s, now);
  }

  lemma NewDenialsNeverGrantAccess(r: Request, s: Snapshot, more: Snapshot, receipt: SnapshotReceipt, receipt2: SnapshotReceipt)
    requires MoreDenials(s, more) && CheckSnapshot(s, receipt) && receipt.now == receipt2.now
    requires ScopedAccess(r, more, receipt2).yes
    ensures ScopedAccess(r, s, receipt).yes
  {
    assert ValidRequest(r) && MayAccess(r, more, receipt.now) by { AccessIffGrantedAndNotDenied(r, more, receipt2); }
    FewerDenialsAllowMore(r, s, more, receipt.now);
    AccessIffGrantedAndNotDenied(r, s, receipt);
  }

  // ---------- review ----------

  /** The request to release this subject, and the request to read one of its resources, by a given person. */
  ghost function ReleaseBy(s: Subject, actor: string): Request {
    Request(actor, s.mode, s.domain, s.resource, ReviewRelease, s.purpose, s.environment, s.organization, s.policyDigest)
  }

  ghost function ReadBy(s: Subject, actor: string, resource: string): Request {
    Request(actor, s.mode, s.domain, resource, Read, s.purpose, s.environment, s.organization, s.policyDigest)
  }

  ghost predicate ReviewGranted(subject: Subject, reviewer: string, role: Role, s: Snapshot, now: int) {
    && Granted(ReleaseBy(subject, reviewer), role, s, now)
    && forall d | d in s.denials :: !Forbids(d, ReleaseBy(subject, reviewer))
  }

  /** Qualified, without lookups and filters. */
  ghost predicate Eligible(r: ReviewRecord, role: Role, subject: Subject, s: Snapshot, now: int) {
    && r.role == role && r.decision == Approve && r.evidenceVerified && r.authorityCleared && r.outputPass && !r.revoked
    && r.reviewedAt <= now < r.expiresAt
    && r.reviewer != subject.requester && r.reviewer != subject.producer
    && (exists p :: p in s.principals && p.id == r.reviewer && role in p.roles && subject.domain in p.domains)
    && ReviewGranted(subject, r.reviewer, role, s, now)
  }

  lemma ReviewClearanceMeaning(subject: Subject, reviewer: string, role: Role, s: Snapshot, now: int)
    requires Unique(PrincipalIds(s.principals))
    ensures HasClearance(Access(reviewer, subject.mode, subject.domain, subject.resource, ReviewRelease), role, ReviewContext(subject, s, now))
       <==> ReviewGranted(subject, reviewer, role, s, now)
  {
    var mine := ReviewRequest(subject);
    var r := mine.(actor := reviewer);
    var a, ctx := AccessOf(r), ReviewContext(subject, s, now);
    assert r == ReleaseBy(subject, reviewer);
    DenialMeaning(r, s);
    assert a == Access(reviewer, subject.mode, subject.domain, subject.resource, ReviewRelease);
    var denied := Denied(r, s);
    forall c ensures c in ctx.clearances && Grants(c, a, role, ctx)
                 <==> !denied && c in s.clearances && QualifyingGrant(c, r, role, s, now) {
      MandateMeaning(c.issuer, r, role, s, ctx);
      assert InScopeTest(mine)(c) == InScope(c, mine);
      assert StandingTest(mine, s)(c) == Standing(c, mine, s);
      if c.subject == reviewer { assert Standing(c, mine, s) == !denied; }
    }
  }

  lemma QualificationMeaning(r: ReviewRecord, role: Role, subject: Subject, s: Snapshot, now: int)
    requires Unique(PrincipalIds(s.principals))
    ensures Qualified(r, role, subject, ReviewContext(subject, s, now)) <==> Eligible(r, role, subject, s, now)
  {
    ReviewClearanceMeaning(subject, r.reviewer, role, s, now);
    forall p | p in s.principals && p.id == r.reviewer ensures FindPrincipal(s.principals, r.reviewer) == Some(p) {
      PrincipalLookup(s.principals, p);
    }
  }

  /** A denial speaks about a person, not about one of the person's records: new denials shrink
      what is qualified, and take a reviewer away for all roles at once. */
  lemma DenialsTakeReviewersAway(subject: Subject, s: Snapshot, more: Snapshot, now: int)
    requires MoreDenials(s, more) && Unique(PrincipalIds(s.principals))
    ensures forall r, role | Qualified(r, role, subject, ReviewContext(subject, more, now)) ::
              Qualified(r, role, subject, ReviewContext(subject, s, now))
    ensures forall r, role, r2: ReviewRecord, role2: Role | Qualified(r, role, subject, ReviewContext(subject, more, now))
                                && Qualified(r2, role2, subject, ReviewContext(subject, s, now)) && r.reviewer == r2.reviewer ::
              Qualified(r2, role2, subject, ReviewContext(subject, more, now))
  {
    forall r, role | Qualified(r, role, subject, ReviewContext(subject, more, now))
      ensures Qualified(r, role, subject, ReviewContext(subject, s, now))
    {
      OneStanding(r, role, r, role, subject, s, more, now);
    }
    forall r, role, r2: ReviewRecord, role2: Role | Qualified(r, role, subject, ReviewContext(subject, more, now))
         && Qualified(r2, role2, subject, ReviewContext(subject, s, now)) && r.reviewer == r2.reviewer
      ensures Qualified(r2, role2, subject, ReviewContext(subject, more, now))
    {
      OneStanding(r, role, r2, role2, subject, s, more, now);
    }
  }

  lemma OneStanding(r: ReviewRecord, role: Role, r2: ReviewRecord, role2: Role, subject: Subject, s: Snapshot, more: Snapshot, now: int)
    requires MoreDenials(s, more) && Unique(PrincipalIds(s.principals)) && r.reviewer == r2.reviewer
    requires Qualified(r, role, subject, ReviewContext(subject, more, now))
    ensures Qualified(r, role, subject, ReviewContext(subject, s, now))
    ensures Qualified(r2, role2, subject, ReviewContext(subject, s, now)) ==> Qualified(r2, role2, subject, ReviewContext(subject, more, now))
  {
    hide Qualified, ReviewContext, Granted;
    QualificationMeaning(r, role, subject, s, now);
    QualificationMeaning(r, role, subject, more, now);
    QualificationMeaning(r2, role2, subject, s, now);
    QualificationMeaning(r2, role2, subject, more, now);
    GrantsIgnoreDenials(ReleaseBy(subject, r.reviewer), role, s, more, now);
    GrantsIgnoreDenials(ReleaseBy(subject, r.reviewer), role2, s, more, now);
  }

  /** Shrinking a two-role test person by person cannot turn a failed greedy choice into a success. */
  lemma {:induction false} ChoiceShrinks(roles: seq<Role>, reviews: seq<ReviewRecord>, big: Test, small: Test)
    requires |roles| <= 2
    requires forall r, role | small(r, role) :: big(r, role)
    requires forall r, role, r2: ReviewRecord, role2: Role | small(r, role) && big(r2, role2) && r.reviewer == r2.reviewer :: small(r2, role2)
    requires Choose(roles, reviews, small, {}).Some?
    ensures Choose(roles, reviews, big, {}).Some?
  {
    if |roles| == 1 {
      assert roles == [roles[0]];
      LastRole(roles[0], reviews, small, {});
      LastRole(roles[0], reviews, big, {});
    } else if |roles| == 2 {
      assert roles == [roles[0], roles[1]];
      ChoiceIsPanel(roles, reviews, small, {});
      var panel := Choose(roles, reviews, small, {}).value;
      var k := FirstPassing(reviews, big, roles[0], panel[0]);
      GreedyWithTwoRoles(roles[0], roles[1], reviews, big, k);
      if panel[1].reviewer == reviews[k].reviewer {
        // then the first passing record also passed the smaller test, so it was the one chosen
        assert small(reviews[k], roles[0]);
        PickIsFirst(reviews, small, roles[0], {}, k);
        assert false;
      }
    }
  }

  lemma {:induction false} FirstPassing(reviews: seq<ReviewRecord>, q: Test, role: Role, known: ReviewRecord) returns (k: nat)
    requires known in reviews && q(known, role)
    ensures k < |reviews| && q(reviews[k], role) && forall j | 0 <= j < k :: !q(reviews[j], role)
  {
    k := 0;
    while !q(reviews[k], role)
      invariant k < |reviews| && forall j | 0 <= j < k :: !q(reviews[j], role)
      decreases |reviews| - k
    {
      if k + 1 == |reviews| {
        var i :| 0 <= i < |reviews| && reviews[i] == known;
        assert false;
      }
      k := k + 1;
    }
  }

  lemma ScopedSnapshotIds(s: Snapshot, receipt: SnapshotReceipt)
    requires CheckSnapshot(s, receipt)
    ensures UniqueSnapshotIds(s) && Unique(PrincipalIds(s.principals))
  {}

  lemma NewDenialsNeverCompleteAReview(
      subject: Subject, records: seq<ReviewRecord>, s: Snapshot, more: Snapshot, receipt: SnapshotReceipt, receipt2: SnapshotReceipt)
    requires MoreDenials(s, more) && CheckSnapshot(s, receipt) && receipt.now == receipt2.now
    requires ScopedReview(subject, records, more, receipt2).yes
    ensures ScopedReview(subject, records, s, receipt).yes
  {
    hide CheckSnapshot, ValidSubject, ValidRecords, SimulateAccess, Qualified, UniqueContextIds, ValidRequest;
    ScopedSnapshotIds(s, receipt);
    forall a | a in subject.audience ensures ScopedAccess(ReadRequest(subject, a), s, receipt).yes {
      NewDenialsNeverGrantAccess(ReadRequest(subject, a), s, more, receipt, receipt2);
    }
    var ctx, ctx2 := ReviewContext(subject, s, receipt.now), ReviewContext(subject, more, receipt.now);
    ReviewContextIdsStayUnique(subject, s, receipt.now);
    assert ReviewRefusal(subject, records, ctx).None?;
    DenialsTakeReviewersAway(subject, s, more, receipt.now);
    ReviewerRolesDistinct(subject.mode);
    ChoiceShrinks(ReviewerRoles(subject.mode), ForSubject(records, SubjectDigest(subject)),
                  Qualification(subject, ctx), Qualification(subject, ctx2));
  }

  // ---------- when a scoped review is complete ----------

  /** Everything a review asks besides its reviewers: the draft policy, its scope, a resource the mode reaches,
      read access for every recipient, and no denial that covers the requester. */
  ghost predicate ReviewOpen(subject: Subject, s: Snapshot, now: int) {
    && subject.policyVersion == DRAFT_POLICY_VERSION
    && subject.organization == s.organization && subject.policyDigest == DraftPolicyDigest
    && ReachableResource(ReleaseBy(subject, subject.requester), s)
    && (forall a | a in subject.audience :: MayAccess(ReadBy(subject, a, subject.resource), s, now))
    && (forall d | d in s.denials :: !Forbids(d, ReleaseBy(subject, subject.requester)))
  }

  ghost predicate DistinctRecords(records: seq<ReviewRecord>) {
    forall i, j | 0 <= i < j < |records| :: records[i].id != records[j].id
  }

  lemma RecipientMayAsk(subject: Subject, a: string)
    requires ValidSubject(subject) && a in subject.audience
    ensures ValidRequest(ReadBy(subject, a, subject.resource))
  {}

  lemma ReadersMeaning(subject: Subject, s: Snapshot, receipt: SnapshotReceipt)
    requires ValidSubject(subject) && CheckSnapshot(s, receipt)
    ensures AudienceMayRead(subject, s, receipt) <==> forall a | a in subject.audience :: MayAccess(ReadBy(subject, a, subject.resource), s, receipt.now)
  {
    hide ValidSubject, CheckSnapshot, ScopedAccess, MayAccess, ValidRequest;
    forall a | a in subject.audience
      ensures ScopedAccess(ReadRequest(subject, a), s, receipt).yes <==> MayAccess(ReadBy(subject, a, subject.resource), s, receipt.now)
    {
      assert ReadRequest(subject, a) == ReadBy(subject, a, subject.resource);
      RecipientMayAsk(subject, a);
      AccessIffGrantedAndNotDenied(ReadBy(subject, a, subject.resource), s, receipt);
    }
  }

  /** Once the requester's scope is matched, the resource test of simulateReleaseReview is reachability. */
  lemma ReviewedResourceMeaning(subject: Subject, s: Snapshot)
    requires Unique(ResourceIds(s.resources))
    ensures ReachableResource(ReleaseBy(subject, subject.requester), s) <==>
      && (exists x :: x in s.resources && x.id == subject.resource && x.environment == subject.environment)
      && var found := FindResource(s.resources, subject.resource);
      found.Some? && found.value.classification != Protected && found.value.domain == subject.domain
      && found.value.classification in ModeClasses(subject.mode)
  {
    hide Find;
    forall x | x in s.resources && x.id == subject.resource ensures FindResource(s.resources, subject.resource) == Some(x) {
      ResourceLookup(s.resources, x);
    }
  }

  lemma DistinctRecordsIff(records: seq<ReviewRecord>)
    ensures Unique(RecordIds(records)) <==> DistinctRecords(records)
  {
    ToSetSize(RecordIds(records));
    if Unique(RecordIds(records)) {
      forall i, j | 0 <= i < j < |records| ensures records[i].id != records[j].id {
        assert RecordIds(records)[i] != RecordIds(records)[j];
      }
    }
  }

  /** A complete review: valid inputs, an open review, distinct ids, no rejection, and the greedy choice succeeds. */
  lemma ReviewReduces(subject: Subject, records: seq<ReviewRecord>, s: Snapshot, receipt: SnapshotReceipt)
    ensures ScopedReview(subject, records, s, receipt).yes <==>
      && ValidSubject(subject) && ValidRecords(records) && CheckSnapshot(s, receipt) && ReviewOpen(subject, s, receipt.now)
      && DistinctRecords(records)
      && (forall r | r in records && r.subjectHash == SubjectDigest(subject) :: r.decision != Reject)
      && Choose(ReviewerRoles(subject.mode), ForSubject(records, SubjectDigest(subject)),
                Qualification(subject, ReviewContext(subject, s, receipt.now)), {}).Some?
  {
    hide ValidRecords, CheckSnapshot, AudienceMayRead, MayAccess, Forbids, Denied, ReachableResource, UniqueContextIds,
      Choose, ForSubject, Find, DistinctRecords, Unique, Names;
    if ValidSubject(subject) && CheckSnapshot(s, receipt) {
      ScopedSnapshotIds(s, receipt);
      ReadersMeaning(subject, s, receipt);
      DenialMeaning(ReleaseBy(subject, subject.requester), s);
      ReviewedResourceMeaning(subject, s);
      DistinctRecordsIff(records);
      ReviewContextIdsStayUnique(subject, s, receipt.now);
      AudienceIsNamed(subject);
      assert ReviewRequest(subject) == ReleaseBy(subject, subject.requester);
    }
  }

  lemma AudienceIsNamed(subject: Subject)
    requires ValidSubject(subject)
    ensures subject.audience != []
  {}

  /** Choosing from the records of a subject is choosing from all records with the binding as part of the test. */
  ghost function Bound(q: Test, binding: Digest): Test {
    (r: ReviewRecord, role) => r.subjectHash == binding && q(r, role)
  }

  lemma {:induction false} PickFromAll(records: seq<ReviewRecord>, binding: Digest, q: Test, role: Role, used: set<string>)
    ensures Pick(ForSubject(records, binding), q, role, used) == Pick(records, Bound(q, binding), role, used)
  {
    hide ForSubject, Bound;
    if records != [] {
      PickFromAll(records[1..], binding, q, role, used);
      FirstForSubject(records, binding);
      assert Bound(q, binding)(records[0], role) == (records[0].subjectHash == binding && q(records[0], role)) by {
        BoundMeaning(q, binding, records[0], role);
      }
      if records[0].subjectHash == binding {
        assert ForSubject(records, binding) == [records[0]] + ForSubject(records[1..], binding);
      } else {
        assert ForSubject(records, binding) == ForSubject(records[1..], binding);
      }
    } else {
      NoRecords(binding);
    }
  }

  lemma BoundMeaning(q: Test, binding: Digest, r: ReviewRecord, role: Role)
    ensures Bound(q, binding)(r, role) <==> r.subjectHash == binding && q(r, role)
  {}

  lemma NoRecords(binding: Digest)
    ensures ForSubject([], binding) == []
  {}

  lemma FirstForSubject(records: seq<ReviewRecord>, binding: Digest)
    requires records != []
    ensures ForSubject(records, binding)
         == (if records[0].subjectHash == binding then [records[0]] else []) + ForSubject(records[1..], binding)
  {}

  lemma {:induction false} ChooseFromAll(roles: seq<Role>, records: seq<ReviewRecord>, binding: Digest, q: Test, used: set<string>)
    ensures Choose(roles, ForSubject(records, binding), q, used) == Choose(roles, records, Bound(q, binding), used)
  {
    hide ForSubject, Bound;
    if roles != [] {
      PickFromAll(records, binding, q, roles[0], used);
      var pick := Pick(records, Bound(q, binding), roles[0], used);
      if pick.Some? { ChooseFromAll(roles[1..], records, binding, q, used + {pick.value.reviewer}); }
    }
  }

  ghost predicate Serves(r: ReviewRecord, role: Role, subject: Subject, s: Snapshot, now: int) {
    r.subjectHash == SubjectDigest(subject) && Eligible(r, role, subject, s, now)
  }

  /** The first record of the list that serves the first role, and for a second role a record by somebody else. */
  ghost predicate Seated(subject: Subject, records: seq<ReviewRecord>, s: Snapshot, now: int) {
    var roles := ReviewerRoles(subject.mode);
    exists k :: 0 <= k < |records| && Serves(records[k], roles[0], subject, s, now)
             && (forall j | 0 <= j < k :: !Serves(records[j], roles[0], subject, s, now))
             && (|roles| == 2 ==> exists r :: r in records && Serves(r, roles[1], subject, s, now) && r.reviewer != records[k].reviewer)
  }

  lemma SeatedIff(subject: Subject, records: seq<ReviewRecord>, s: Snapshot, now: int)
    requires Unique(PrincipalIds(s.principals))
    ensures Choose(ReviewerRoles(subject.mode), ForSubject(records, SubjectDigest(subject)),
                   Qualification(subject, ReviewContext(subject, s, now)), {}).Some?
       <==> Seated(subject, records, s, now)
  {
    hide Qualified, Eligible, ReviewContext, ForSubject, Choose, Unique;
    var roles, binding := ReviewerRoles(subject.mode), SubjectDigest(subject);
    var q := Bound(Qualification(subject, ReviewContext(subject, s, now)), binding);
    ChooseFromAll(roles, records, binding, Qualification(subject, ReviewContext(subject, s, now)), {});
    forall r, role ensures q(r, role) <==> Serves(r, role, subject, s, now) {
      QualificationMeaning(r, role, subject, s, now);
    }
    FirstRoleDecides(roles, records, q);
  }

  /** The greedy choice for one or two roles, by the first record that passes for the first role. */
  lemma FirstRoleDecides(roles: seq<Role>, records: seq<ReviewRecord>, q: Test)
    requires 1 <= |roles| <= 2
    ensures Choose(roles, records, q, {}).Some? <==>
      exists k :: 0 <= k < |records| && q(records[k], roles[0]) && (forall j | 0 <= j < k :: !q(records[j], roles[0]))
               && (|roles| == 2 ==> exists r :: r in records && q(r, roles[1]) && r.reviewer != records[k].reviewer)
  {
    if known :| known in records && q(known, roles[0]) {
      var k := FirstPassing(records, q, roles[0], known);
      if |roles| == 2 {
        assert roles == [roles[0], roles[1]];
        GreedyWithTwoRoles(roles[0], roles[1], records, q, k);
        forall i | 0 <= i < |records| && q(records[i], roles[0]) && (forall j | 0 <= j < i :: !q(records[j], roles[0])) ensures i == k {}
      } else {
        assert roles == [roles[0]];
        LastRole(roles[0], records, q, {});
      }
    } else {
      assert Pick(records, q, roles[0], {}).None?;
    }
  }

  /** On every list of records whatever, a scoped review is complete exactly under this condition. */
  lemma ScopedReviewIff(subject: Subject, records: seq<ReviewRecord>, s: Snapshot, receipt: SnapshotReceipt)
    ensures ScopedReview(subject, records, s, receipt).yes <==>
      && ValidSubject(subject) && ValidRecords(records) && CheckSnapshot(s, receipt) && ReviewOpen(subject, s, receipt.now)
      && DistinctRecords(records)
      && (forall r | r in records && r.subjectHash == SubjectDigest(subject) :: r.decision != Reject)
      && Seated(subject, records, s, receipt.now)
  {
    hide ScopedReview, CheckSnapshot, ValidSubject, ValidRecords, ReviewOpen, DistinctRecords, Seated, Choose, ForSubject, ReviewContext;
    ReviewReduces(subject, records, s, receipt);
    if CheckSnapshot(s, receipt) {
      ScopedSnapshotIds(s, receipt);
      SeatedIff(subject, records, s, receipt.now);
    }
  }

  /** Past contract, snapshot, scope and readers, a review is refused as denied exactly when some denial covers
      the requester. */
  lemma RequesterDenialIff(subject: Subject, records: seq<ReviewRecord>, s: Snapshot, receipt: SnapshotReceipt)
    requires ValidSubject(subject) && ValidRecords(records) && CheckSnapshot(s, receipt)
    requires subject.organization == s.organization && subject.policyDigest == DraftPolicyDigest
    requires exists x :: x in s.resources && x.id == subject.resource && x.environment == subject.environment
    requires forall a | a in subject.audience :: MayAccess(ReadBy(subject, a, subject.resource), s, receipt.now)
    ensures ScopedReview(subject, records, s, receipt) == Verdict(false, ExplicitDenial)
       <==> exists d :: d in s.denials && Forbids(d, ReleaseBy(subject, subject.requester))
  {
    hide ValidSubject, ValidRecords, CheckSnapshot, AudienceMayRead, MayAccess, Forbids, Denied, ReviewContext, Choose, Find,
      UniqueContextIds, ForSubject;
    ReadersMeaning(subject, s, receipt);
    DenialMeaning(ReleaseBy(subject, subject.requester), s);
    assert ReviewRequest(subject) == ReleaseBy(subject, subject.requester);
  }

  /** What a complete review amounts to, for any list of records: a panel of distinct eligible
      reviewers, readers for every recipient, and no rejection in the list. */
  ghost predicate ReviewStands(subject: Subject, records: seq<ReviewRecord>, panel: seq<ReviewRecord>, s: Snapshot, now: int) {
    && |panel| == |ReviewerRoles(subject.mode)|
    && DistinctReviewers(panel)
    && (forall i | 0 <= i < |panel| ::
          panel[i] in records && panel[i].subjectHash == SubjectDigest(subject)
          && Eligible(panel[i], ReviewerRoles(subject.mode)[i], subject, s, now))
    && (forall a | a in subject.audience :: MayAccess(ReadBy(subject, a, subject.resource), s, now))
    && (forall r | r in records && r.subjectHash == SubjectDigest(subject) :: r.decision != Reject)
  }

  lemma ChosenPanelStands(subject: Subject, records: seq<ReviewRecord>, s: Snapshot, now: int) returns (panel: seq<ReviewRecord>)
    requires Unique(PrincipalIds(s.principals))
    requires Choose(ReviewerRoles(subject.mode), ForSubject(records, SubjectDigest(subject)),
                    Qualification(subject, ReviewContext(subject, s, now)), {}).Some?
    ensures |panel| == |ReviewerRoles(subject.mode)| && DistinctReviewers(panel)
    ensures forall i | 0 <= i < |panel| ::
      panel[i] in records && panel[i].subjectHash == SubjectDigest(subject)
      && Eligible(panel[i], ReviewerRoles(subject.mode)[i], subject, s, now)
  {
    var roles, q := ReviewerRoles(subject.mode), Qualification(subject, ReviewContext(subject, s, now));
    var reviews := ForSubject(records, SubjectDigest(subject));
    ChoiceIsPanel(roles, reviews, q, {});
    panel := Choose(roles, reviews, q, {}).value;
    forall i | 0 <= i < |panel|
      ensures panel[i] in records && panel[i].subjectHash == SubjectDigest(subject)
           && Eligible(panel[i], roles[i], subject, s, now)
    {
      assert panel[i] in reviews && q(panel[i], roles[i]);
      QualificationMeaning(panel[i], roles[i], subject, s, now);
    }
  }

  lemma CompleteReviewStands(subject: Subject, records: seq<ReviewRecord>, s: Snapshot, receipt: SnapshotReceipt)
    requires ScopedReview(subject, records, s, receipt).yes
    ensures exists panel :: ReviewStands(subject, records, panel, s, receipt.now)
  {
    hide ScopedReview, CheckSnapshot, ValidSubject, ValidRecords, ReachableResource, Forbids, Eligible, MayAccess, Choose, ForSubject, ReviewContext;
    ReviewReduces(subject, records, s, receipt);
    ScopedSnapshotIds(s, receipt);
    var panel := ChosenPanelStands(subject, records, s, receipt.now);
    assert ReviewStands(subject, records, panel, s, receipt.now);
  }
}
