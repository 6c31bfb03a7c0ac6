/** The local review workbench (scripts/review-policy/workbench.ts over workbench-fixture.ts):
    reviewers submit against the revision they have seen. */
module Workbench {
  import opened Collections
  import opened PolicyTypes
  import opened Verifier
  import opened Projections
  import opened Admission
  import opened HistoryStore
  import opened EventLog
  import opened CandidateReview
  import opened CandidateTheorems
  import opened Durable
  import opened DurableTheorems
  import opened ReviewSafety

  /** What a session is made with: the prepared subject, its snapshot, a fixed clock and the reviewers' signing keys. */
  datatype Fixture = Fixture(
    mode: Mode, subject: Subject, context: EvidenceContext, snapshot: SignedArtifact, now: int, sign: Unsigned -> string)

  datatype Submission = Submission(
    reviewer: string, subjectHash: Digest, expectedRevision: int, decision: Decision,
    claimChecks: seq<ClaimCheck>, authorityClaims: Flag, outputAdmissibility: Flag)

  datatype Answer = Refused(status: int, reason: Reason) | Unavailable | State(result: Verdict, history: seq<Event>)

  const ORGANIZATION := "team-a"
  const REVISION_LIMIT: int := 10000

  function RequiredReviewers(mode: Mode): seq<string> {
    match mode
    case DefaultMode => ["reviewer"]
    case GovernanceMode => ["reviewer", "officer"]
    case ArchitectMode => ["maintainer", "officer"]
  }

  function RoleOfReviewer(who: string): Role {
    if who == "reviewer" then DomainReviewer else if who == "officer" then GovernanceOfficer else EngineeringMaintainer
  }

  function RecordId(who: string): string { who + "-record" }

  predicate ValidSubmission(s: Submission) {
    && |s.reviewer| <= 32 && s.subjectHash.WellFormed() && 0 <= s.expectedRevision <= REVISION_LIMIT
    && 1 <= |s.claimChecks| <= 64 && forall c | c in s.claimChecks :: |c.claimId| <= 128
  }

  predicate ClaimSetMatches(s: Submission, claims: seq<Claim>) {
    && |s.claimChecks| == |claims| && |ToSet(CheckIds(s.claimChecks))| == |claims|
    && forall c | c in s.claimChecks :: c.claimId in ClaimIds(claims)
  }

  function RecordFor(f: Fixture, s: Submission): ReviewRecord
    requires f.subject.candidate.PackageCandidate?
  {
    var pkg := f.subject.candidate.pkg;
    ReviewRecord(
      RecordId(s.reviewer), s.reviewer, RoleOfReviewer(s.reviewer), SubjectDigest(f.subject), s.decision,
      (forall c | c in s.claimChecks :: c.finding == Supported), s.authorityClaims == Cleared, s.outputAdmissibility == Cleared,
      f.now, f.now + 5000, false,
      Some(Assessment(PackageDigest(pkg), pkg.candidate.provenance.answerDigest, true, s.claimChecks, s.authorityClaims, s.outputAdmissibility)))
  }

  function SignedReviewFor(f: Fixture, s: Submission, revision: int): SignedArtifact
    requires f.subject.candidate.PackageCandidate?
  {
    var u := Unsigned(ReviewKind, s.reviewer, ORGANIZATION, RecordId(s.reviewer), revision, f.now, f.now + 5000, ReviewPayload(RecordFor(f, s)));
    SignedArtifact(u, f.sign(u))
  }

  /** The revisions of one reviewer's logged reviews, in log order. */
  function Revisions(h: seq<Event>, who: string): seq<int> {
    if h == [] then [] else
    var front, e := h[..|h| - 1], h[|h| - 1];
    Revisions(front, who) + (if IsReview(e) && RecordOf(e).reviewer == who then [e.artifact.unsigned.revision] else [])
  }

  function CurrentRevision(h: seq<Event>, who: string): int {
    var revisions := Revisions(h, who);
    if revisions == [] then 0 else revisions[|revisions| - 1]
  }

  function LoggedReviews(h: seq<Event>): seq<Event> {
    Filter(h, (e: Event) => IsReview(e))
  }

  /** What is wrong with a submission before anything is signed, the log being h. */
  function SubmissionError(f: Fixture, h: seq<Event>, s: Submission): Option<Answer>
    requires f.subject.candidate.PackageCandidate?
  {
    if InputError(f, s).Some? then InputError(f, s)
    else if s.expectedRevision != CurrentRevision(h, s.reviewer) then Some(Refused(409, ReviewChangedRefreshRequired))
    else None
  }

  function InputError(f: Fixture, s: Submission): (r: Option<Answer>)
    requires f.subject.candidate.PackageCandidate?
    ensures r.Some? ==> r.value.Refused?
  {
    if !ValidSubmission(s) then Some(Refused(400, InvalidAssessment))
    else if s.reviewer !in RequiredReviewers(f.mode) then Some(Refused(400, InvalidTestReviewer))
    else if s.subjectHash != SubjectDigest(f.subject) then Some(Refused(409, SubjectChanged))
    else if !ClaimSetMatches(s, f.subject.candidate.pkg.claims) then Some(Refused(400, ClaimSetMismatch))
    else None
  }

  function StateCommand(f: Fixture): Command { CheckCandidate(f.subject, f.context, f.snapshot, f.now) }

  function AcceptCommand(f: Fixture, s: Submission, revision: int): Command
    requires f.subject.candidate.PackageCandidate?
  {
    AcceptCandidate(f.subject, f.context, SignedReviewFor(f, s, revision), f.now)
  }

  ghost function ShowState(t: Trust, f: Fixture, h: seq<Event>): (seq<Event>, Answer) {
    var (h1, result) := Step(t, h, StateCommand(f));
    (h1, if result.reason == StoreUnavailableOrCorrupt then Refused(503, StoreUnavailableOrCorrupt) else State(result, LoggedReviews(h1)))
  }

  ghost function Submit(t: Trust, f: Fixture, h: seq<Event>, s: Submission): (seq<Event>, Answer)
    requires f.subject.candidate.PackageCandidate?
  {
    var error := SubmissionError(f, h, s);
    if error.Some? then (h, error.value) else
    var (h1, accepted) := Step(t, h, AcceptCommand(f, s, CurrentRevision(h, s.reviewer) + 1));
    if !accepted.yes then (h1, Refused(422, accepted.reason)) else ShowState(t, f, h1)
  }

  lemma SubmitUnfolds(t: Trust, f: Fixture, h: seq<Event>, s: Submission)
    requires f.subject.candidate.PackageCandidate?
    ensures InputError(f, s).Some? ==> Submit(t, f, h, s) == (h, InputError(f, s).value)
    ensures InputError(f, s).None? && s.expectedRevision != CurrentRevision(h, s.reviewer) ==>
      Submit(t, f, h, s) == (h, Refused(409, ReviewChangedRefreshRequired))
    ensures InputError(f, s).None? && s.expectedRevision == CurrentRevision(h, s.reviewer) ==>
      var accepted := Step(t, h, AcceptCommand(f, s, CurrentRevision(h, s.reviewer) + 1));
      Submit(t, f, h, s) == if accepted.1.yes then ShowState(t, f, accepted.0) else (accepted.0, Refused(422, accepted.1.reason))
  {
    hide Step, InputError, ShowState, CurrentRevision, AcceptCommand;
  }

  datatype Asked = Look | Send(submission: Submission)

  ghost function Serve(t: Trust, f: Fixture, h: seq<Event>, asked: Asked): (seq<Event>, Answer)
    requires f.subject.candidate.PackageCandidate?
  {
    match asked
    case Look => ShowState(t, f, h)
    case Send(s) => Submit(t, f, h, s)
  }

  /** The log of a session after some requests, from a new store. */
  ghost function SessionRun(t: Trust, f: Fixture, asked: seq<Asked>): seq<Event>
    requires f.subject.candidate.PackageCandidate?
  {
    if asked == [] then [] else Serve(t, f, SessionRun(t, f, asked[..|asked| - 1]), asked[|asked| - 1]).0
  }

  // ---------- the session object ----------

  class Session {
    const f: Fixture
    const simulation: DurablePolicySimulation

    constructor (f: Fixture, simulation: DurablePolicySimulation)
      ensures this.f == f && this.simulation == simulation
    {
      this.f, this.simulation := f, simulation;
    }

    /** A transaction that only reads. */
    method Records() returns (history: Option<seq<Event>>)
      modifies simulation.store, simulation.store.file
      ensures forall h | old(simulation.Ready(h)) :: simulation.Ready(h) && history == Some(h)
      ensures (forall h :: !old(simulation.Ready(h))) ==> history.None? && simulation.Untouched()
    {
      hide Holds, Decodes;
      var store, world := simulation.store, simulation.trust.world;
      LogsOpen(world, store.config, store.file.rows, store.file.meta);
      var begun := store.Begin();
      if begun.None? { return None; }
      LogOf(world, store.config, store.file.rows, store.file.meta, begun.value);
      history := Decoded(world, begun.value);
      DecodedMeaning(world, begun.value);
      store.Commit(begun.value);
    }

    method GetState() returns (answer: Answer)
      requires simulation.Valid()
      modifies simulation.store, simulation.store.file
      ensures forall h | old(simulation.Ready(h)) ::
        simulation.Ready(ShowState(simulation.trust, f, h).0) && answer == ShowState(simulation.trust, f, h).1
      ensures (forall h :: !old(simulation.Ready(h))) ==> !answer.State? && simulation.Untouched()
    {
      hide Step, Stands, Preliminary;
      var result := simulation.CheckCandidateReview(f.subject, f.context, f.snapshot, f.now);
      if forall h :: !old(simulation.Ready(h)) { simulation.UntouchedIsAsReady(); }
      if result.reason == StoreUnavailableOrCorrupt { return Refused(503, StoreUnavailableOrCorrupt); }
      var history := Records();
      answer := if history.Some? then State(result, LoggedReviews(history.value)) else Unavailable;
    }

    method SubmitReview(s: Submission) returns (answer: Answer)
      requires simulation.Valid() && f.subject.candidate.PackageCandidate?
      modifies simulation.store, simulation.store.file
      ensures forall h | old(simulation.Ready(h)) ::
        simulation.Ready(Submit(simulation.trust, f, h, s).0) && answer == Submit(simulation.trust, f, h, s).1
      ensures (forall h :: !old(simulation.Ready(h))) ==> !answer.State? && simulation.Untouched()
    {
      hide Step, InputError, ShowState, Stands, Preliminary, Submit, SignedReviewFor, CurrentRevision;
      forall h { SubmitUnfolds(simulation.trust, f, h, s); }
      var error := InputError(f, s);
      if error.Some? { return error.value; }
      var history := Records();
      if history.None? { return Unavailable; }
      var current := CurrentRevision(history.value, s.reviewer);
      if s.expectedRevision != current { return Refused(409, ReviewChangedRefreshRequired); }
      var accepted := simulation.AcceptCandidateReview(f.subject, f.context, SignedReviewFor(f, s, current + 1), f.now);
      if !accepted.yes { return Refused(422, accepted.reason); }
      answer := GetState();
    }

    method Close()
      modifies simulation.store`closed
      ensures simulation.store.closed && forall h :: !simulation.Ready(h)
    {
      simulation.store.Close();
    }
  }

  // ---------- no lost updates ----------

  /** What the fixture provides: a subject whose preparation succeeded, and for every required reviewer a
      pinned review key that is valid at the fixed time and verifies what its holder signs. */
  ghost predicate FixtureOk(t: Trust, f: Fixture) {
    && t.organization == ORGANIZATION && 0 <= f.now && SafeInteger(f.now + 5000)
    && f.snapshot.unsigned.kind == SnapshotKind && f.subject.mode == f.mode
    && CandidateRefusal(t.world, f.subject, f.context, f.now).None?
    && forall who | who in RequiredReviewers(f.mode) :: KeyServes(t, f, who)
  }

  ghost predicate KeyServes(t: Trust, f: Fixture, who: string) {
    && who in t.keys && t.keys[who].principal == who && ReviewKind in t.keys[who].purposes
    && t.keys[who].notBefore <= f.now && f.now + 5000 <= t.keys[who].expiresAt
    && forall u: Unsigned | u.keyId == who :: ValidSignatureText(f.sign(u)) && t.world.verifies(t.keys[who].publicKeyPem, u, f.sign(u))
  }

  predicate OwnReview(f: Fixture, e: Event) {
    && IsReview(e) && RecordOf(e).reviewer in RequiredReviewers(f.mode)
    && RecordOf(e).id == RecordId(RecordOf(e).reviewer) == e.artifact.unsigned.artifactId
    && RecordOf(e).subjectHash == SubjectDigest(f.subject)
  }

  ghost predicate Gapless(revisions: seq<int>) {
    forall i | 0 <= i < |revisions| :: revisions[i] == i + 1
  }

  /** The event of a well-formed submission. */
  ghost predicate Submitted(f: Fixture, e: Event, s: Submission) {
    && f.subject.candidate.PackageCandidate? && InputError(f, s).None? && IsReview(e)
    && e == EventOf(AcceptCommand(f, s, e.artifact.unsigned.revision))
  }

  ghost predicate SessionEvent(f: Fixture, e: Event) {
    && e.ArtifactEvent? && e.now == f.now
    && (e == EventOf(StateCommand(f)) || (OwnReview(f, e) && exists s :: Submitted(f, e, s)))
  }

  /** What every session log looks like. */
  ghost predicate SessionLog(t: Trust, f: Fixture, h: seq<Event>) {
    && GoodLog(t, h)
    && (forall e | e in h :: SessionEvent(f, e))
    && forall who :: Gapless(Revisions(h, who))
  }

  lemma RevisionsGrow(h: seq<Event>, e: Event, who: string)
    ensures Revisions(h + [e], who)
         == Revisions(h, who) + (if IsReview(e) && RecordOf(e).reviewer == who then [e.artifact.unsigned.revision] else [])
  {
    assert (h + [e])[..|h|] == h;
  }

  lemma {:induction false} RevisionsListed(h: seq<Event>, e: Event)
    requires e in h && IsReview(e)
    ensures e.artifact.unsigned.revision in Revisions(h, RecordOf(e).reviewer)
  {
    if e != h[|h| - 1] {
      assert e in h[..|h| - 1];
      RevisionsListed(h[..|h| - 1], e);
    }
  }

  lemma {:induction false} FewRevisions(h: seq<Event>, who: string)
    ensures |Revisions(h, who)| <= |h|
  {
    if h != [] { FewRevisions(h[..|h| - 1], who); }
  }

  /** In a gapless list the current revision is the number of submissions, and nothing logged is above it. */
  lemma CurrentIsCount(t: Trust, f: Fixture, h: seq<Event>, who: string)
    requires SessionLog(t, f, h)
    ensures CurrentRevision(h, who) == |Revisions(h, who)| <= |h|
    ensures forall e | e in h && IsReview(e) && RecordOf(e).reviewer == who :: e.artifact.unsigned.revision <= CurrentRevision(h, who)
  {
    FewRevisions(h, who);
    forall e | e in h && IsReview(e) && RecordOf(e).reviewer == who
      ensures e.artifact.unsigned.revision <= CurrentRevision(h, who)
    {
      RevisionsListed(h, e);
    }
  }

  /** The event of a submission against the current revision. */
  function EventFor(f: Fixture, h: seq<Event>, s: Submission): Event
    requires f.subject.candidate.PackageCandidate?
  {
    EventOf(AcceptCommand(f, s, CurrentRevision(h, s.reviewer) + 1))
  }

  lemma PreparedPackage(t: Trust, f: Fixture)
    requires FixtureOk(t, f)
    ensures f.subject.candidate.PackageCandidate?
    ensures var pkg := f.subject.candidate.pkg;
      && ValidPackage(pkg) && pkg.candidate.provenance.completedAt <= f.now
      && (forall x | x in pkg.sources :: x.receipt.capturedAt <= f.now)
  {
    hide ValidCandidate, ValidSource, ValidClaim, ValidSubject, FirstSourceRefusal, FirstClaimRefusal, AnswerRefusal;
    AcceptedPackage(t.world, f.subject, f.context, f.now);
    var pkg := f.subject.candidate.pkg;
    forall x | x in pkg.sources ensures x.receipt.capturedAt <= f.now {
      assert SourceRefusal(x, f.subject, f.context.evidenceReceipts, pkg.candidate.sourceRefs, f.now).None?;
    }
  }

  lemma AssessmentFits(t: Trust, f: Fixture, s: Submission)
    requires FixtureOk(t, f) && f.subject.candidate.PackageCandidate? && InputError(f, s).None?
    ensures ValidAssessment(RecordFor(f, s).assessment.value)
    ensures AssessmentRefusal(f.subject.candidate.pkg, RecordFor(f, s)).None?
  {
    hide CandidateRefusal, ValidSource;
    PreparedPackage(t, f);
    var pkg := f.subject.candidate.pkg;
    forall c | c in s.claimChecks ensures Short(c.claimId, 128) {
      assert c.claimId in ClaimIds(pkg.claims);
      var i :| 0 <= i < |pkg.claims| && ClaimIds(pkg.claims)[i] == c.claimId;
      assert ValidClaim(pkg.claims[i]);
    }
  }

  lemma SubmissionIsGenuine(t: Trust, f: Fixture, h: seq<Event>, s: Submission)
    requires FixtureOk(t, f) && f.subject.candidate.PackageCandidate? && SessionLog(t, f, h)
    requires SubmissionError(f, h, s).None?
    ensures Genuine(t, SignedReviewFor(f, s, CurrentRevision(h, s.reviewer) + 1), SubjectDigest(f.subject))
  {
    hide CandidateRefusal, ValidAssessment, ValidSignatureText;
    AssessmentFits(t, f, s);
    CurrentIsCount(t, f, h, s.reviewer);
    assert KeyServes(t, f, s.reviewer);
  }

  lemma RecordIdsDiffer(a: string, b: string)
    ensures RecordId(a) == RecordId(b) ==> a == b
  {
    if RecordId(a) == RecordId(b) {
      assert a == RecordId(a)[..|RecordId(a)| - 7] && b == RecordId(b)[..|RecordId(b)| - 7];
    }
  }

  /** A logged review of the session under this reviewer's record id is this reviewer's, of a revision seen before. */
  lemma LoggedUnderRecordId(t: Trust, f: Fixture, h: seq<Event>, who: string, e: Event)
    requires SessionLog(t, f, h) && f.snapshot.unsigned.kind == SnapshotKind && e in h && IsReview(e)
    ensures RecordOf(e).subjectHash == SubjectDigest(f.subject) && RecordOf(e).id == e.artifact.unsigned.artifactId
    ensures RecordOf(e).id == RecordId(who) <==> RecordOf(e).reviewer == who
    ensures RecordOf(e).reviewer == who ==> e.artifact.unsigned.revision <= CurrentRevision(h, who)
  {
    hide CurrentRevision, Replay, Gapless, Submitted;
    assert SessionEvent(f, e) && OwnReview(f, e);
    RecordIdsDiffer(RecordOf(e).reviewer, who);
    CurrentIsCount(t, f, h, who);
  }

  lemma SessionTimes(t: Trust, f: Fixture, h: seq<Event>, e: Event)
    requires SessionLog(t, f, h) && e in h
    ensures e.now == f.now && e.ArtifactEvent? && (IsReview(e) || e == EventOf(StateCommand(f)))
  {
    assert SessionEvent(f, e);
  }

  /** A session log admits the next submission of each reviewer. */
  lemma SubmissionIsAdmitted(t: Trust, f: Fixture, h: seq<Event>, s: Submission)
    requires FixtureOk(t, f) && f.subject.candidate.PackageCandidate? && SessionLog(t, f, h)
    requires SubmissionError(f, h, s).None?
    ensures Admits(t, Replay(t, h).value, EventFor(f, h, s)) && EventFor(f, h, s) !in h
  {
    hide CandidateRefusal, InputError, Genuine, Replay, SessionLog, CurrentRevision, KeyServes;
    var e := EventFor(f, h, s);
    LogOfSession(t, f, h);
    SubmissionIsGenuine(t, f, h, s);
    forall x | x in h ensures x.now == f.now && x.ArtifactEvent? && (IsReview(x) || x == EventOf(StateCommand(f))) {
      SessionTimes(t, f, h, x);
    }
    forall x | x in h && IsReview(x)
      ensures RecordOf(x).subjectHash == SubjectDigest(f.subject) && RecordOf(x).id == x.artifact.unsigned.artifactId
      ensures RecordOf(x).id == RecordId(s.reviewer) <==> RecordOf(x).reviewer == s.reviewer
      ensures RecordOf(x).reviewer == s.reviewer ==> x.artifact.unsigned.revision <= CurrentRevision(h, s.reviewer)
    {
      LoggedUnderRecordId(t, f, h, s.reviewer, x);
    }
    assert Unrevoked(h, e.artifact.unsigned) && RevisionNext(h, e.artifact.unsigned) && OneIdentity(h, RecordFor(f, s));
    AdmittedIff(t, h, e);
  }

  lemma GaplessMore(revisions: seq<int>)
    requires Gapless(revisions)
    ensures Gapless(revisions + [|revisions| + 1])
  {}

  /** A command of the session leaves the log alone or adds its event, which is a session event. */
  lemma SessionGrows(t: Trust, f: Fixture, h: seq<Event>, cmd: Command)
    requires SessionLog(t, f, h) && SessionEvent(f, EventOf(cmd))
    requires IsReview(EventOf(cmd)) ==>
      EventOf(cmd).artifact.unsigned.revision == CurrentRevision(h, RecordOf(EventOf(cmd)).reviewer) + 1
    ensures SessionLog(t, f, Step(t, h, cmd).0)
  {
    hide Step, SessionEvent, Gapless, Revisions, CurrentRevision, Replay;
    var e := EventOf(cmd);
    StepKeepsLog(t, h, cmd);
    forall who ensures Gapless(Revisions(h + [e], who)) {
      RevisionsGrow(h, e, who);
      CurrentIsCount(t, f, h, who);
      GaplessMore(Revisions(h, who));
      assert Gapless(Revisions(h, who)) && Revisions(h, who) + [] == Revisions(h, who);
    }
  }

  lemma ShowKeeps(t: Trust, f: Fixture, h: seq<Event>)
    requires FixtureOk(t, f) && SessionLog(t, f, h)
    ensures SessionLog(t, f, ShowState(t, f, h).0)
    ensures h <= ShowState(t, f, h).0
    ensures forall who :: Revisions(ShowState(t, f, h).0, who) == Revisions(h, who)
  {
    hide Step, CandidateRefusal, KeyServes, SessionLog;
    SessionGrows(t, f, h, StateCommand(f));
    assert GoodLog(t, h) by { LogOfSession(t, f, h); }
    StepKeepsLog(t, h, StateCommand(f));
    forall who ensures Revisions(ShowState(t, f, h).0, who) == Revisions(h, who) {
      RevisionsGrow(h, EventOf(StateCommand(f)), who);
    }
  }

  lemma LogOfSession(t: Trust, f: Fixture, h: seq<Event>)
    requires SessionLog(t, f, h)
    ensures GoodLog(t, h)
  {}

  lemma AcceptStep(t: Trust, f: Fixture, h: seq<Event>, s: Submission)
    requires FixtureOk(t, f) && f.subject.candidate.PackageCandidate? && SessionLog(t, f, h)
    requires SubmissionError(f, h, s).None?
    ensures var cmd := AcceptCommand(f, s, CurrentRevision(h, s.reviewer) + 1);
      Step(t, h, cmd) == if |h| < CAPACITY then (h + [EventFor(f, h, s)], Verdict(true, Recorded)) else (h, UNAVAILABLE)
  {
    hide CandidateRefusal, InputError, Outcome, AssessmentRefusal, KeyServes, SessionLog, CurrentRevision;
    SubmissionIsAdmitted(t, f, h, s);
    InputIsFine(f, h, s);
    AssessmentFits(t, f, s);
    LogOfSession(t, f, h);
  }

  lemma InputIsFine(f: Fixture, h: seq<Event>, s: Submission)
    requires f.subject.candidate.PackageCandidate? && SubmissionError(f, h, s).None?
    ensures InputError(f, s).None?
    ensures s.reviewer in RequiredReviewers(f.mode) && s.expectedRevision == CurrentRevision(h, s.reviewer)
  {}

  /** A well-shaped submission by a required reviewer, about this subject, with one check for each of its claims. */
  ghost predicate Answerable(f: Fixture, s: Submission)
    requires f.subject.candidate.PackageCandidate?
  {
    var claims := f.subject.candidate.pkg.claims;
    && ValidSubmission(s) && s.reviewer in RequiredReviewers(f.mode) && s.subjectHash == SubjectDigest(f.subject)
    && ChecksEachClaim(s.claimChecks, claims)
  }

  /** One check for every claim and no other. */
  ghost predicate ChecksEachClaim(checks: seq<ClaimCheck>, claims: seq<Claim>) {
    && (forall i, j | 0 <= i < j < |checks| :: checks[i].claimId != checks[j].claimId)
    && (forall k | k in checks :: exists c :: c in claims && c.id == k.claimId)
    && (forall c | c in claims :: exists k :: k in checks && k.claimId == c.id)
  }

  lemma CheckIdMeaning(cs: seq<ClaimCheck>, id: string)
    ensures id in CheckIds(cs) <==> exists k :: k in cs && k.claimId == id
  {
    if k :| k in cs && k.claimId == id {
      var i :| 0 <= i < |cs| && cs[i] == k;
      assert CheckIds(cs)[i] == id;
    }
    if id in CheckIds(cs) {
      var i :| 0 <= i < |cs| && CheckIds(cs)[i] == id;
      assert cs[i] in cs;
    }
  }

  /** On distinct claims, equal sizes and known ids mean one check for each claim. */
  lemma ClaimSetMeaning(s: Submission, claims: seq<Claim>)
    requires Unique(ClaimIds(claims))
    ensures ClaimSetMatches(s, claims) <==> ChecksEachClaim(s.claimChecks, claims)
  {
    hide Unique;
    var checks := s.claimChecks;
    CheckIdsDistinctIff(checks);
    forall id
      ensures id in CheckIds(checks) <==> exists k :: k in checks && k.claimId == id
      ensures id in ClaimIds(claims) <==> exists c :: c in claims && c.id == id
    {
      CheckIdMeaning(checks, id);
      ClaimIdMeaning(claims, id);
    }
    if ClaimSetMatches(s, claims) {
      MatchingChecks(s, claims);
      forall c | c in claims ensures exists k :: k in checks && k.claimId == c.id { assert c.id in ClaimIds(claims); }
    } else if ChecksEachClaim(checks, claims) {
      forall id ensures id in CheckIds(checks) <==> id in ClaimIds(claims) {}
      SameCount(CheckIds(checks), ClaimIds(claims));
      EveryCheckKnown(s, claims);
    }
  }

  lemma MatchingChecks(s: Submission, claims: seq<Claim>)
    requires ClaimSetMatches(s, claims) && Unique(ClaimIds(claims))
    ensures Unique(CheckIds(s.claimChecks)) && forall id :: id in CheckIds(s.claimChecks) <==> id in ClaimIds(claims)
  {
    var ids := CheckIds(s.claimChecks);
    forall id | id in ids ensures id in ClaimIds(claims) { CheckIdMeaning(s.claimChecks, id); }
    assert |ids| == |claims| == |ToSet(ids)|;
    assert |ToSet(ClaimIds(claims))| == |claims|;
    SameSizeSameElements(ids, ToSet(ClaimIds(claims)));
    forall id ensures id in ids <==> id in ClaimIds(claims) {
      SetMembers(ids, id);
      SetMembers(ClaimIds(claims), id);
    }
  }

  lemma EveryCheckKnown(s: Submission, claims: seq<Claim>)
    requires Unique(CheckIds(s.claimChecks)) && |s.claimChecks| == |claims|
    requires forall id :: id in CheckIds(s.claimChecks) <==> id in ClaimIds(claims)
    ensures ClaimSetMatches(s, claims)
  {
    forall c | c in s.claimChecks ensures c.claimId in ClaimIds(claims) { CheckIdMeaning(s.claimChecks, c.claimId); }
  }

  /** A submission goes through to signing exactly when it is answerable and names the reviewer's current revision. */
  lemma SubmissionErrorIff(t: Trust, f: Fixture, h: seq<Event>, s: Submission)
    requires FixtureOk(t, f) && f.subject.candidate.PackageCandidate?
    ensures SubmissionError(f, h, s).None? <==> Answerable(f, s) && s.expectedRevision == CurrentRevision(h, s.reviewer)
  {
    hide CandidateRefusal, ClaimSetMatches, Unique, CurrentRevision, ValidSubmission, KeyServes;
    AcceptedPackage(t.world, f.subject, f.context, f.now);
    ClaimSetMeaning(s, f.subject.candidate.pkg.claims);
  }

  /** The review is the submitter's own, under the next revision, and says exactly what was submitted. */
  ghost predicate SaysWhatWasSubmitted(f: Fixture, e: Event, s: Submission)
    requires f.subject.candidate.PackageCandidate?
  {
    && IsReview(e) && e.now == f.now && e.subjectHash == Some(SubjectDigest(f.subject))
    && e.artifact.unsigned.keyId == s.reviewer && e.artifact.unsigned.revision == s.expectedRevision + 1
    && var r, pkg := RecordOf(e), f.subject.candidate.pkg;
    && r.reviewer == s.reviewer && r.subjectHash == SubjectDigest(f.subject) && r.decision == s.decision && !r.revoked
    && (r.evidenceVerified <==> forall k | k in s.claimChecks :: k.finding == Supported)
    && (r.authorityCleared <==> s.authorityClaims == Cleared) && (r.outputPass <==> s.outputAdmissibility == Cleared)
    && r.assessment == Some(Assessment(PackageDigest(pkg), pkg.candidate.provenance.answerDigest, true,
                                       s.claimChecks, s.authorityClaims, s.outputAdmissibility))
  }

  lemma RecordedContent(t: Trust, f: Fixture, h: seq<Event>, s: Submission)
    requires FixtureOk(t, f) && f.subject.candidate.PackageCandidate? && SessionLog(t, f, h)
    requires SubmissionError(f, h, s).None? && |h| < 10000
    ensures var later := Submit(t, f, h, s).0; |h| < |later| && h <= later && SaysWhatWasSubmitted(f, later[|h|], s)
  {
    hide FixtureOk, SessionLog, ShowState, CurrentRevision, Submit, SubmissionError;
    SubmissionOutcome(t, f, h, s);
    InputIsFine(f, h, s);
    assert SaysWhatWasSubmitted(f, EventFor(f, h, s), s);
    assert (h + [EventFor(f, h, s)])[|h|] == EventFor(f, h, s);
  }

  lemma AcceptedSubmission(t: Trust, f: Fixture, h: seq<Event>, s: Submission)
    requires FixtureOk(t, f) && f.subject.candidate.PackageCandidate? && SessionLog(t, f, h)
    requires SubmissionError(f, h, s).None?
    ensures |h| < CAPACITY ==> Submit(t, f, h, s) == ShowState(t, f, h + [EventFor(f, h, s)])
    ensures |h| >= CAPACITY ==> Submit(t, f, h, s) == (h, Refused(422, StoreUnavailableOrCorrupt))
  {
    hide FixtureOk, SubmissionError, Step, SessionLog, ShowState, CurrentRevision;
    AcceptStep(t, f, h, s);
  }

  lemma RefusedSubmission(t: Trust, f: Fixture, h: seq<Event>, s: Submission)
    requires f.subject.candidate.PackageCandidate? && SubmissionError(f, h, s).Some?
    ensures Submit(t, f, h, s) == (h, SubmissionError(f, h, s).value)
  {
    hide Step, SubmissionError;
  }

  lemma EventForIsOwn(f: Fixture, h: seq<Event>, s: Submission)
    requires f.subject.candidate.PackageCandidate? && SubmissionError(f, h, s).None?
    ensures SessionEvent(f, EventFor(f, h, s)) && IsReview(EventFor(f, h, s)) && RecordOf(EventFor(f, h, s)).reviewer == s.reviewer
    ensures EventFor(f, h, s).artifact.unsigned.revision == CurrentRevision(h, s.reviewer) + 1 == s.expectedRevision + 1
  {
    hide ClaimSetMatches, ValidSubmission;
    assert Submitted(f, EventFor(f, h, s), s);
  }

  lemma RecordedSubmission(t: Trust, f: Fixture, h: seq<Event>, s: Submission)
    requires FixtureOk(t, f) && f.subject.candidate.PackageCandidate? && SessionLog(t, f, h)
    requires SubmissionError(f, h, s).None? && |h| < CAPACITY
    ensures SessionLog(t, f, h + [EventFor(f, h, s)])
    ensures forall who :: Revisions(h + [EventFor(f, h, s)], who)
                       == Revisions(h, who) + (if who == s.reviewer then [s.expectedRevision + 1] else [])
  {
    hide FixtureOk, Step, SessionLog, CurrentRevision, SubmissionError, SessionEvent, Revisions, SignedReviewFor;
    InputIsFine(f, h, s);
    AcceptStep(t, f, h, s);
    EventForIsOwn(f, h, s);
    SessionGrows(t, f, h, AcceptCommand(f, s, CurrentRevision(h, s.reviewer) + 1));
    forall who { RevisionsGrow(h, EventFor(f, h, s), who); }
  }

  /** What a submission does, in full: refused without a trace when it is malformed or stale; otherwise
      recorded under the next revision of its reviewer, unless the store is full. The schema's bound on
      the expected revision is never what stops it. */
  lemma SubmissionOutcome(t: Trust, f: Fixture, h: seq<Event>, s: Submission)
    requires FixtureOk(t, f) && f.subject.candidate.PackageCandidate? && SessionLog(t, f, h)
    ensures SubmissionError(f, h, s).Some? ==> Submit(t, f, h, s) == (h, SubmissionError(f, h, s).value)
    ensures SubmissionError(f, h, s).None? && |h| >= CAPACITY ==> Submit(t, f, h, s) == (h, Refused(422, StoreUnavailableOrCorrupt))
    ensures SubmissionError(f, h, s).None? && |h| < CAPACITY ==>
      && h + [EventFor(f, h, s)] <= Submit(t, f, h, s).0
      && Revisions(Submit(t, f, h, s).0, s.reviewer) == Revisions(h, s.reviewer) + [s.expectedRevision + 1]
      && (forall who | who != s.reviewer :: Revisions(Submit(t, f, h, s).0, who) == Revisions(h, who))
    ensures SessionLog(t, f, Submit(t, f, h, s).0)
    ensures CurrentRevision(h, s.reviewer) <= |h|
  {
    hide FixtureOk, SessionLog, ShowState, CurrentRevision, SubmissionError, Submit;
    CurrentIsCount(t, f, h, s.reviewer);
    if SubmissionError(f, h, s).Some? {
      RefusedSubmission(t, f, h, s);
    } else {
      AcceptedSubmission(t, f, h, s);
      if |h| < CAPACITY {
        RecordedSubmission(t, f, h, s);
        ShowKeeps(t, f, h + [EventFor(f, h, s)]);
      }
    }
  }

  /** In every session each reviewer's accepted submissions carry the revisions 1, 2, 3 and so on. */
  lemma {:induction false} SessionsAreGapless(t: Trust, f: Fixture, asked: seq<Asked>)
    requires FixtureOk(t, f) && f.subject.candidate.PackageCandidate?
    ensures SessionLog(t, f, SessionRun(t, f, asked))
    ensures forall who :: Gapless(Revisions(SessionRun(t, f, asked), who))
  {
    hide FixtureOk, Submit, ShowState;
    if asked == [] {
    } else {
      SessionsAreGapless(t, f, asked[..|asked| - 1]);
      var h := SessionRun(t, f, asked[..|asked| - 1]);
      match asked[|asked| - 1]
      case Look => ShowKeeps(t, f, h);
      case Send(s) => SubmissionOutcome(t, f, h, s);
    }
  }

  lemma {:induction false} RevisionsNeverShrink(t: Trust, f: Fixture, asked: seq<Asked>, i: nat, who: string)
    requires FixtureOk(t, f) && f.subject.candidate.PackageCandidate? && i <= |asked|
    ensures |Revisions(SessionRun(t, f, asked[..i]), who)| <= |Revisions(SessionRun(t, f, asked), who)|
    decreases |asked|
  {
    hide FixtureOk, Submit, ShowState, SessionLog;
    if i == |asked| {
      assert asked[..i] == asked;
    } else {
      var front := asked[..|asked| - 1];
      assert front[..i] == asked[..i];
      RevisionsNeverShrink(t, f, front, i, who);
      SessionsAreGapless(t, f, front);
      match asked[|asked| - 1]
      case Look => ShowKeeps(t, f, SessionRun(t, f, front));
      case Send(s) => SubmissionOutcome(t, f, SessionRun(t, f, front), s);
    }
  }

  /** No lost update: of all submissions of one reviewer against one revision, at most one is ever accepted;
      every later one is refused as stale and changes nothing, whatever happened in between. */
  lemma NoLostUpdate(t: Trust, f: Fixture, asked: seq<Asked>, i: nat, first: Submission, second: Submission)
    requires FixtureOk(t, f) && f.subject.candidate.PackageCandidate? && i < |asked| && asked[i] == Send(first)
    requires SubmissionError(f, SessionRun(t, f, asked[..i]), first).None? && |SessionRun(t, f, asked[..i])| < CAPACITY
    requires InputError(f, second).None? && second.reviewer == first.reviewer && second.expectedRevision == first.expectedRevision
    ensures Submit(t, f, SessionRun(t, f, asked), second) == (SessionRun(t, f, asked), Refused(409, ReviewChangedRefreshRequired))
  {
    hide FixtureOk, InputError, ShowState, SessionLog, Step, Revisions;
    var h, g := SessionRun(t, f, asked[..i]), SessionRun(t, f, asked);
    SessionsAreGapless(t, f, asked[..i]);
    SubmissionOutcome(t, f, h, first);
    assert asked[..i + 1][..i] == asked[..i];
    assert SessionRun(t, f, asked[..i + 1]) == Submit(t, f, h, first).0;
    RevisionsNeverShrink(t, f, asked, i + 1, first.reviewer);
    SessionsAreGapless(t, f, asked);
    CurrentIsCount(t, f, g, first.reviewer);
    CurrentIsCount(t, f, h, first.reviewer);
    InputIsFine(f, h, first);
  }

  // ---------- what a completed session means ----------

  /** The reviewer's newest submission approves the package, supports every claim and clears both flags. */
  ghost predicate Endorsed(f: Fixture, h: seq<Event>, who: string) {
    exists s, e :: e in h && Submitted(f, e, s) && Newest(h, e) && s.reviewer == who && Endorses(s)
  }

  predicate Endorses(s: Submission) {
    && s.decision == Approve && s.authorityClaims == Cleared && s.outputAdmissibility == Cleared
    && forall c | c in s.claimChecks :: c.finding == Supported
  }

  lemma ApprovalEndorses(t: Trust, f: Fixture, h: seq<Event>, r: ReviewRecord)
    requires SessionLog(t, f, h) && f.snapshot.unsigned.kind == SnapshotKind && f.subject.candidate.PackageCandidate?
    requires StandingApproval(t, h, r, f.now) && CompleteAssessment(f.subject.candidate.pkg, r)
    ensures r.role == RoleOfReviewer(r.reviewer) && r.reviewer in RequiredReviewers(f.mode) && Endorsed(f, h, r.reviewer)
  {
    hide Unlapsed, Gapless, InputError;
    var e :| e in h && IsReview(e) && RecordOf(e) == r && Unlapsed(t, h, e.artifact, f.now) && Newest(h, e);
    assert SessionEvent(f, e);
    var s :| Submitted(f, e, s);
    assert r == RecordFor(f, s);
    assert Endorses(s);
  }

  /** Every session mode has one reviewer for each role that mode requires, and no other. */
  lemma RequiredReviewersByRole(mode: Mode)
    ensures |RequiredReviewers(mode)| == |ReviewerRoles(mode)|
    ensures forall i | 0 <= i < |ReviewerRoles(mode)| :: RoleOfReviewer(RequiredReviewers(mode)[i]) == ReviewerRoles(mode)[i]
  {}

  lemma EachReviewerOneRole(f: Fixture, who: string, other: string)
    requires who in RequiredReviewers(f.mode) && other in RequiredReviewers(f.mode) && RoleOfReviewer(who) == RoleOfReviewer(other)
    ensures who == other
  {}

  lemma RoleOfEachReviewer(f: Fixture, who: string) returns (i: nat)
    requires who in RequiredReviewers(f.mode)
    ensures i < |ReviewerRoles(f.mode)| && ReviewerRoles(f.mode)[i] == RoleOfReviewer(who)
  {
    i := if who == RequiredReviewers(f.mode)[0] then 0 else 1;
  }

  /** When a session reports its review complete, the newest submission of every required reviewer endorses
      the package, and no reviewer has ever rejected it. */
  lemma CompletedSessionIsEndorsed(t: Trust, f: Fixture, h: seq<Event>)
    requires FixtureOk(t, f) && f.subject.candidate.PackageCandidate? && SessionLog(t, f, h)
    requires ShowState(t, f, h).1.State? && ShowState(t, f, h).1.result.yes
    ensures forall who | who in RequiredReviewers(f.mode) :: Endorsed(f, h, who)
    ensures forall e | e in h :: !IsRejection(e, SubjectDigest(f.subject))
  {
    hide Step, CandidateRefusal, AcceptableCandidate, SessionLog, KeyServes, StandingApproval, CompleteAssessment, Endorsed,
      RequiredReviewers, RoleOfReviewer;
    LogOfSession(t, f, h);
    CompletedCandidateReviewIsSound(t, h, f.subject, f.context, f.snapshot, f.now);
    var s := f.snapshot.unsigned.payload.snapshot;
    var panel: seq<ReviewRecord> :| SoundCandidateReview(t, h, f.subject, f.context, s, f.now, panel);
    forall who | who in RequiredReviewers(f.mode) ensures Endorsed(f, h, who) {
      var i := RoleOfEachReviewer(f, who);
      assert panel[i] in panel;
      ApprovalEndorses(t, f, h, panel[i]);
      EachReviewerOneRole(f, who, panel[i].reviewer);
    }
  }
}
