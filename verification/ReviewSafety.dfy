/** What a completed durable review guarantees, and what can never be undone. */
module ReviewSafety {
  import opened Collections
  import opened PolicyTypes
  import opened Evaluation
  import opened Boundary
  import opened BoundaryTheorems
  import opened Verifier
  import opened Projections
  import opened LogTheorems
  import opened CandidateReview
  import opened CandidateTheorems
  import opened Durable
  import opened DurableTheorems

  // ---------- soundness ----------

  /** The record was logged under a genuine signature of its reviewer and not superseded since, and neither
      it nor its key was ever revoked, nor has it expired. */
  ghost predicate StandingApproval(t: Trust, h: seq<Event>, r: ReviewRecord, now: int) {
    exists e :: e in h && IsReview(e) && RecordOf(e) == r && Unlapsed(t, h, e.artifact, now) && Newest(h, e)
  }

  /** No logged review under the same record id has a higher revision. */
  ghost predicate Newest(h: seq<Event>, e: Event)
    requires IsReview(e)
  {
    forall x | x in h && IsReview(x) && RecordOf(x).id == RecordOf(e).id ::
      x.artifact.unsigned.revision <= e.artifact.unsigned.revision
  }

  ghost predicate Unlapsed(t: Trust, h: seq<Event>, a: SignedArtifact, now: int) {
    && a.unsigned.payload.ReviewPayload?
    && Genuine(t, a, a.unsigned.payload.record.subjectHash)
    && t.keys[a.unsigned.keyId].principal == a.unsigned.payload.record.reviewer
    && now < a.unsigned.expiresAt
    && (forall x | x in h && x.RevokeKeyEvent? :: x.keyId != a.unsigned.keyId)
    && (forall x | x in h && x.RevokeArtifactEvent? && x.kind == ReviewKind :: x.artifactId != a.unsigned.artifactId)
  }

  /** One distinct reviewer for every required role, with a standing approval of this subject and a
      clearance from another, mandated administrator; readers for every recipient; no rejection in the log. */
  ghost predicate SoundReview(t: Trust, h: seq<Event>, subject: Subject, s: Snapshot, now: int, panel: seq<ReviewRecord>) {
    && |panel| == |ReviewerRoles(subject.mode)| && DistinctReviewers(panel)
    && (forall i | 0 <= i < |panel| ::
          && panel[i].subjectHash == SubjectDigest(subject)
          && Eligible(panel[i], ReviewerRoles(subject.mode)[i], subject, s, now)
          && StandingApproval(t, h, panel[i], now))
    && (forall a | a in subject.audience :: MayAccess(ReadBy(subject, a, subject.resource), s, now))
    && (forall e | e in h :: !IsRejection(e, SubjectDigest(subject)))
  }

  lemma LiveReviewStands(t: Trust, h: seq<Event>, p: PState, id: string, now: int)
    requires Stored(t, h, p, id) && MarksKept(t, h, p) && RevocationsKept(h, p) && Live(p.verifier, p.reviews[id], now)
    ensures p.reviews[id].unsigned.payload.ReviewPayload?
    ensures StandingApproval(t, h, p.reviews[id].unsigned.payload.record, now)
  {
    hide Genuine;
    var e :| e in h && IsReview(e) && e.artifact == p.reviews[id];
    SignedByTheReviewer(t, e.artifact);
    NothingRevoked(h, p, e.artifact, now);
    assert Unlapsed(t, h, e.artifact, now);
    StoredIsNewest(t, h, p, id, e);
  }

  lemma StoredIsNewest(t: Trust, h: seq<Event>, p: PState, id: string, e: Event)
    requires Stored(t, h, p, id) && MarksKept(t, h, p) && e in h && IsReview(e) && e.artifact == p.reviews[id]
    ensures Newest(h, e)
  {
    hide ValidEnvelope, ValidRecord;
    forall x | x in h && IsReview(x) && RecordOf(x).id == RecordOf(e).id
      ensures x.artifact.unsigned.revision <= e.artifact.unsigned.revision
    {
      assert Marked(p.verifier, x.artifact.unsigned);
    }
  }

  lemma NothingRevoked(h: seq<Event>, p: PState, a: SignedArtifact, now: int)
    requires RevocationsKept(h, p) && Live(p.verifier, a, now)
    ensures forall x | x in h && x.RevokeKeyEvent? :: x.keyId != a.unsigned.keyId
    ensures forall x | x in h && x.RevokeArtifactEvent? && x.kind == a.unsigned.kind :: x.artifactId != a.unsigned.artifactId
  {}

  lemma SignedByTheReviewer(t: Trust, a: SignedArtifact)
    requires a.unsigned.kind == ReviewKind && a.unsigned.payload.ReviewPayload?
    requires Genuine(t, a, a.unsigned.payload.record.subjectHash)
    ensures a.unsigned.keyId in t.keys && t.keys[a.unsigned.keyId].principal == a.unsigned.payload.record.reviewer
  {
    hide ValidEnvelope, ValidRecord;
  }

  /** Every record handed to the judge stands. */
  lemma JudgedRecordsStand(t: Trust, h: seq<Event>, p: PState, binding: Digest, now: int)
    requires ReviewsKept(t, h, p) && MarksKept(t, h, p) && RevocationsKept(h, p)
    requires AllLive(p.verifier, StoredFor(p.reviews, p.order, binding), now)
    ensures forall r | r in RecordsIn(StoredFor(p.reviews, p.order, binding)) :: StandingApproval(t, h, r, now)
  {
    hide StandingApproval, StoredFor, Stored, Live, MarksKept, RevocationsKept;
    var stored := StoredFor(p.reviews, p.order, binding);
    forall i | 0 <= i < |stored| ensures StandingApproval(t, h, RecordsIn(stored)[i], now) {
      assert stored[i] in stored;
      var id := StoredUnder(p.reviews, p.order, binding, stored[i]);
      LiveReviewStands(t, h, p, id, now);
    }
  }

  /** The pieces a completed review check leaves in the hand. */
  lemma CompletedCheck(t: Trust, h: seq<Event>, cmd: Command, subject: Subject, snapshot: SignedArtifact, now: int)
    requires (cmd == CheckReview(subject, snapshot, now)) || (cmd.CheckCandidate? && cmd == CheckCandidate(subject, cmd.context, snapshot, now))
    requires Replay(t, h).Some? && Step(t, h, cmd).1.yes
    ensures Preliminary(t, cmd).None? && Entered(t, h, snapshot, now) && snapshot.unsigned.payload.SnapshotPayload?
    ensures var p := StateAt(t, h, snapshot, now);
      var stored := StoredFor(p.reviews, p.order, SubjectDigest(subject));
      && SubjectDigest(subject) !in p.rejected && AllLive(p.verifier, stored, now)
      && Judge(subject, PackageOf(cmd), RecordsIn(stored), snapshot.unsigned.payload.snapshot,
               ReceiptFor(t, snapshot.unsigned.payload.snapshot, now)) == Done(Step(t, h, cmd).1)
  {
    hide Judge, Outcome, FinishReview, CandidateRefusal, Live, LapseReason;
    FinishReviewMeaning(t, h, subject, PackageOf(cmd), snapshot, now);
  }

  /** After the event of a check, the log up to then still says the same about rejections and revocations. */
  lemma CheckEventAddsNoRevocation(t: Trust, h: seq<Event>, snapshot: SignedArtifact, now: int, subject: Subject)
    requires Entered(t, h, snapshot, now)
    ensures var p := StateAt(t, h, snapshot, now);
      && ReviewsKept(t, h, Replay(t, h).value) && RevocationsKept(h, p)
      && (SubjectDigest(subject) !in p.rejected ==> forall e | e in h :: !IsRejection(e, SubjectDigest(subject)))
  {
    hide Outcome, Genuine;
    EnteredState(t, h, snapshot, now);
    LogInvariant(t, h);
  }

  lemma StandsBeforeTheCheck(t: Trust, h: seq<Event>, snapshot: SignedArtifact, now: int, r: ReviewRecord)
    requires StandingApproval(t, h + [ArtifactEvent(now, snapshot, None)], r, now) && snapshot.unsigned.kind == SnapshotKind
    ensures StandingApproval(t, h, r, now)
  {
    hide Genuine;
    var g := h + [ArtifactEvent(now, snapshot, None)];
    var e :| e in g && IsReview(e) && RecordOf(e) == r && Unlapsed(t, g, e.artifact, now) && Newest(g, e);
    assert e in h;
    assert forall x | x in h :: x in g;
    assert Unlapsed(t, h, e.artifact, now) && Newest(h, e);
  }

  lemma CompletedReviewIsSound(t: Trust, h: seq<Event>, subject: Subject, snapshot: SignedArtifact, now: int)
    requires Replay(t, h).Some? && Step(t, h, CheckReview(subject, snapshot, now)).1.yes
    ensures snapshot.unsigned.payload.SnapshotPayload?
    ensures exists panel :: SoundReview(t, h, subject, snapshot.unsigned.payload.snapshot, now, panel)
  {
    hide ScopedReview, Step, Eligible, MayAccess, Live, Outcome;
    var cmd := CheckReview(subject, snapshot, now);
    CompletedCheck(t, h, cmd, subject, snapshot, now);
    var p, s := StateAt(t, h, snapshot, now), snapshot.unsigned.payload.snapshot;
    var records := RecordsIn(StoredFor(p.reviews, p.order, SubjectDigest(subject)));
    CompleteReviewStands(subject, records, s, ReceiptFor(t, s, now));
    var panel :| ReviewStands(subject, records, panel, s, now);
    PanelIsSound(t, h, subject, snapshot, now, records, panel);
  }

  lemma PanelIsSound(t: Trust, h: seq<Event>, subject: Subject, snapshot: SignedArtifact, now: int,
                     records: seq<ReviewRecord>, panel: seq<ReviewRecord>)
    requires Entered(t, h, snapshot, now) && snapshot.unsigned.payload.SnapshotPayload?
    requires SubjectDigest(subject) !in StateAt(t, h, snapshot, now).rejected
    requires var p := StateAt(t, h, snapshot, now);
      && AllLive(p.verifier, StoredFor(p.reviews, p.order, SubjectDigest(subject)), now)
      && forall r | r in records :: r in RecordsIn(StoredFor(p.reviews, p.order, SubjectDigest(subject)))
    requires ReviewStands(subject, records, panel, snapshot.unsigned.payload.snapshot, now)
    ensures SoundReview(t, h, subject, snapshot.unsigned.payload.snapshot, now, panel)
  {
    hide Eligible, MayAccess, Live, Outcome, Genuine;
    var p, e := StateAt(t, h, snapshot, now), ArtifactEvent(now, snapshot, None);
    EnteredState(t, h, snapshot, now);
    CheckEventAddsNoRevocation(t, h, snapshot, now, subject);
    JudgedRecordsStand(t, h + [e], p, SubjectDigest(subject), now);
    forall i | 0 <= i < |panel| ensures StandingApproval(t, h, panel[i], now) {
      StandsBeforeTheCheck(t, h, snapshot, now, panel[i]);
    }
  }

  /** The candidate form: besides, the package is acceptable, its answer and its sources being the very texts that
      were hashed, every panel record is a complete assessment of it by a reviewer who may read all its sources,
      and so may every recipient. */
  ghost predicate SoundCandidateReview(t: Trust, h: seq<Event>, subject: Subject, ctx: EvidenceContext, s: Snapshot, now: int, panel: seq<ReviewRecord>) {
    && AcceptableCandidate(t.world, subject, ctx, now)
    && SoundReview(t, h, subject, s, now, panel)
    && var pkg := subject.candidate.pkg;
    && TextDigest(pkg.candidate.text) == pkg.candidate.provenance.answerDigest
    && (forall x | x in pkg.sources :: TextDigest(x.text) == x.receipt.contentDigest)
    && (forall r | r in panel ::
          && CompleteAssessment(pkg, r)
          && MayReadAs(ReadBy(subject, r.reviewer, subject.resource), r.role, s, now)
          && forall x | x in pkg.sources :: MayReadAs(ReadBy(subject, r.reviewer, x.receipt.resource), r.role, s, now))
    && (forall a, x | a in subject.audience && x in pkg.sources :: MayAccess(ReadBy(subject, a, x.receipt.resource), s, now))
  }

  lemma CompletedCandidateReviewIsSound(t: Trust, h: seq<Event>, subject: Subject, ctx: EvidenceContext, snapshot: SignedArtifact, now: int)
    requires Replay(t, h).Some? && Step(t, h, CheckCandidate(subject, ctx, snapshot, now)).1.yes
    ensures snapshot.unsigned.payload.SnapshotPayload?
    ensures exists panel :: SoundCandidateReview(t, h, subject, ctx, snapshot.unsigned.payload.snapshot, now, panel)
  {
    hide ScopedReview, Step, Eligible, MayAccess, MayReadAs, Live, Outcome, AssessmentComplete, CompleteAssessment,
      ReviewerCanReadSources, CandidateRefusal, AcceptableCandidate, SourceReadable;
    var cmd := CheckCandidate(subject, ctx, snapshot, now);
    CompletedCheck(t, h, cmd, subject, snapshot, now);
    assert AcceptableCandidate(t.world, subject, ctx, now) by { CandidateAcceptedIff(t.world, subject, ctx, now); }
    AcceptedTexts(t.world, subject, ctx, now);
    var p, s, pkg := StateAt(t, h, snapshot, now), snapshot.unsigned.payload.snapshot, subject.candidate.pkg;
    var receipt := ReceiptFor(t, s, now);
    var records := Filter(RecordsIn(StoredFor(p.reviews, p.order, SubjectDigest(subject))), EligibilityTest(subject, pkg, s, receipt));
    CompleteReviewStands(subject, records, s, receipt);
    var panel :| ReviewStands(subject, records, panel, s, now);
    PanelIsSound(t, h, subject, snapshot, now, records, panel);
    forall r | r in panel
      ensures CompleteAssessment(pkg, r) && MayReadAs(ReadBy(subject, r.reviewer, subject.resource), r.role, s, now)
      ensures forall x | x in pkg.sources :: MayReadAs(ReadBy(subject, r.reviewer, x.receipt.resource), r.role, s, now)
    {
      assert r in records && EligibilityTest(subject, pkg, s, receipt)(r);
      EligibleRecordMeaning(subject, pkg, s, receipt, r);
    }
    forall a, x | a in subject.audience && x in pkg.sources ensures MayAccess(ReadBy(subject, a, x.receipt.resource), s, now) {
      assert ActorMayReadSources(subject, a, pkg, s, receipt);
      SourceReadMeaning(subject, a, x, s, receipt);
    }
    assert SoundCandidateReview(t, h, subject, ctx, s, now, panel);
  }

  lemma AcceptedTexts(world: World, subject: Subject, ctx: EvidenceContext, now: int)
    requires AcceptableCandidate(world, subject, ctx, now)
    ensures ValidSubject(subject) && subject.candidate.PackageCandidate? && ValidPackage(subject.candidate.pkg)
    ensures var pkg := subject.candidate.pkg;
      && TextDigest(pkg.candidate.text) == pkg.candidate.provenance.answerDigest
      && (forall x | x in pkg.sources :: TextDigest(x.text) == x.receipt.contentDigest)
      && Unique(ClaimIds(pkg.claims))
  {
    hide ValidSubject, ValidPackage, CoversExactly, OneSetOfSources, PointsInto, Cites;
    ClaimIdsDistinctIff(subject.candidate.pkg.claims);
  }

  lemma SourceReadMeaning(subject: Subject, actor: string, x: Source, s: Snapshot, receipt: SnapshotReceipt)
    ensures SourceReadable(subject, actor, x, s, receipt) ==> MayAccess(ReadBy(subject, actor, x.receipt.resource), s, receipt.now)
    ensures ValidSubject(subject) && Short(actor, 256) && ValidSource(x) && CheckSnapshot(s, receipt) ==>
      (SourceReadable(subject, actor, x, s, receipt) <==> MayAccess(ReadBy(subject, actor, x.receipt.resource), s, receipt.now))
  {
    hide ScopedAccess, MayAccess, CheckSnapshot, Names, HasInk;
    assert ReadRequest(subject, actor).(resource := x.receipt.resource) == ReadBy(subject, actor, x.receipt.resource);
    AccessIffGrantedAndNotDenied(ReadBy(subject, actor, x.receipt.resource), s, receipt);
  }

  /** The reviewer of this record may count for the candidate: a role the mode asks for, held in the domain, and
      read access to the subject's resource and to every source in that role. */
  ghost predicate MayCount(subject: Subject, pkg: Package, r: ReviewRecord, s: Snapshot, now: int) {
    && r.role in ReviewerRoles(subject.mode)
    && (exists p :: p in s.principals && p.id == r.reviewer && r.role in p.roles && subject.domain in p.domains)
    && MayReadAs(ReadBy(subject, r.reviewer, subject.resource), r.role, s, now)
    && forall x | x in pkg.sources :: MayReadAs(ReadBy(subject, r.reviewer, x.receipt.resource), r.role, s, now)
  }

  lemma EligibleRecordMeaning(subject: Subject, pkg: Package, s: Snapshot, receipt: SnapshotReceipt, r: ReviewRecord)
    requires Unique(ClaimIds(pkg.claims))
    ensures EligibilityTest(subject, pkg, s, receipt)(r) <==>
      CheckSnapshot(s, receipt) && CompleteAssessment(pkg, r) && MayCount(subject, pkg, r, s, receipt.now)
  {
    hide CheckSnapshot, MayReadAs, AssessmentComplete, CompleteAssessment, ReviewerCanReadSources, Unique;
    CompleteAssessmentIff(pkg, r);
    ReviewerCanReadSourcesIff(subject, r, [subject.resource] + SourceResources(pkg), s, receipt);
    forall x ensures x in [subject.resource] + SourceResources(pkg) <==>
      x == subject.resource || exists source :: source in pkg.sources && source.receipt.resource == x
    {
      ListedResources(pkg, x);
    }
  }

  lemma ListedResources(pkg: Package, x: string)
    ensures x in SourceResources(pkg) <==> exists source :: source in pkg.sources && source.receipt.resource == x
  {
    if source :| source in pkg.sources && source.receipt.resource == x {
      var i :| 0 <= i < |pkg.sources| && pkg.sources[i] == source;
      assert SourceResources(pkg)[i] == x;
    }
  }

  // ---------- permanence ----------

  /** Once a rejection of a subject is logged, no run whatever leads to a completed review of it. */
  lemma RejectionIsForever(t: Trust, h: seq<Event>, subject: Subject, cmds: seq<Command>)
    requires GoodLog(t, h) && exists e :: e in h && IsRejection(e, SubjectDigest(subject))
    ensures var later := Run(t, h, cmds).0;
      forall cmd: Command | (cmd.CheckReview? || cmd.CheckCandidate?) && cmd.subject == subject :: !Step(t, later, cmd).1.yes
  {
    hide Step, SoundReview, SoundCandidateReview;
    RunKeepsLog(t, h, cmds);
    var later := Run(t, h, cmds).0;
    var e :| e in h && IsRejection(e, SubjectDigest(subject));
    assert e in later;
    forall cmd: Command | (cmd.CheckReview? || cmd.CheckCandidate?) && cmd.subject == subject ensures !Step(t, later, cmd).1.yes {
      if Step(t, later, cmd).1.yes { NoRejectionWhenComplete(t, later, cmd); }
    }
  }

  lemma NoRejectionWhenComplete(t: Trust, h: seq<Event>, cmd: Command)
    requires cmd.CheckReview? || cmd.CheckCandidate?
    requires Replay(t, h).Some? && Step(t, h, cmd).1.yes
    ensures forall e | e in h :: !IsRejection(e, SubjectDigest(cmd.subject))
  {
    hide Step, Judge, AllLive, Outcome;
    CompletedCheck(t, h, cmd, cmd.subject, cmd.artifact, cmd.now);
    CheckEventAddsNoRevocation(t, h, cmd.artifact, cmd.now, cmd.subject);
  }

  lemma RefusedEventStops(t: Trust, h: seq<Event>, cmd: Command)
    requires Replay(t, h).Some? && !Admits(t, Replay(t, h).value, EventOf(cmd))
    ensures Step(t, h, cmd).0 == h && !Step(t, h, cmd).1.yes
  {
    hide Step, Outcome, Preliminary, Finish;
    if Preliminary(t, cmd).Some? { PreliminaryStops(t, cmd); } else { StepUnfolds(t, h, cmd); }
  }

  /** Once a key is revoked, no run logs another artifact signed with it, and no later command of any kind
      accepts one. That no later completed review counts one is part of StandingApproval. */
  lemma RevokedKeyIsForever(t: Trust, h: seq<Event>, keyId: string, cmds: seq<Command>, cmd: Command)
    requires GoodLog(t, h) && exists e :: e in h && e.RevokeKeyEvent? && e.keyId == keyId
    ensures var later := Run(t, h, cmds).0;
      && (forall j | |h| <= j < |later| && later[j].ArtifactEvent? :: later[j].artifact.unsigned.keyId != keyId)
      && (EventOf(cmd).ArtifactEvent? && EventOf(cmd).artifact.unsigned.keyId == keyId ==>
            Step(t, later, cmd).0 == later && !Step(t, later, cmd).1.yes)
  {
    hide Step, Outcome, Genuine, MarksKept, IdentitiesKept, ReviewsKept, RejectionsKept;
    RunKeepsLog(t, h, cmds);
    var later := Run(t, h, cmds).0;
    var e :| e in h && e.RevokeKeyEvent? && e.keyId == keyId;
    var i :| 0 <= i < |h| && h[i] == e;
    assert later[i] == e;
    forall j | |h| <= j < |later| && later[j].ArtifactEvent? ensures later[j].artifact.unsigned.keyId != keyId {
      RevocationsKeepArtifactsOut(t, later, i, j);
    }
    LogInvariant(t, later);
    assert e in later;
    if EventOf(cmd).ArtifactEvent? && EventOf(cmd).artifact.unsigned.keyId == keyId {
      if Admits(t, Replay(t, later).value, EventOf(cmd)) { AdmittedArtifact(t, Replay(t, later).value, EventOf(cmd)); }
      RefusedEventStops(t, later, cmd);
    }
  }

  lemma RevokedArtifactIsForever(t: Trust, h: seq<Event>, kind: Kind, artifactId: string, cmds: seq<Command>, cmd: Command)
    requires GoodLog(t, h) && exists e :: e in h && e.RevokeArtifactEvent? && (e.kind, e.artifactId) == (kind, artifactId)
    ensures var later := Run(t, h, cmds).0;
      && (forall j | |h| <= j < |later| && later[j].ArtifactEvent? ::
            (later[j].artifact.unsigned.kind, later[j].artifact.unsigned.artifactId) != (kind, artifactId))
      && (EventOf(cmd).ArtifactEvent? && (EventOf(cmd).artifact.unsigned.kind, EventOf(cmd).artifact.unsigned.artifactId) == (kind, artifactId) ==>
            Step(t, later, cmd).0 == later && !Step(t, later, cmd).1.yes)
  {
    hide Step, Outcome, Genuine, MarksKept, IdentitiesKept, ReviewsKept, RejectionsKept;
    RunKeepsLog(t, h, cmds);
    var later := Run(t, h, cmds).0;
    var e :| e in h && e.RevokeArtifactEvent? && (e.kind, e.artifactId) == (kind, artifactId);
    var i :| 0 <= i < |h| && h[i] == e;
    assert later[i] == e;
    forall j | |h| <= j < |later| && later[j].ArtifactEvent?
      ensures (later[j].artifact.unsigned.kind, later[j].artifact.unsigned.artifactId) != (kind, artifactId)
    {
      RevocationsKeepArtifactsOut(t, later, i, j);
    }
    LogInvariant(t, later);
    assert e in later;
    if EventOf(cmd).ArtifactEvent? && (EventOf(cmd).artifact.unsigned.kind, EventOf(cmd).artifact.unsigned.artifactId) == (kind, artifactId) {
      if Admits(t, Replay(t, later).value, EventOf(cmd)) { AdmittedArtifact(t, Replay(t, later).value, EventOf(cmd)); }
      RefusedEventStops(t, later, cmd);
    }
  }
}
