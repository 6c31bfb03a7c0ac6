/** Exactly when each command of the durable simulation says yes, on every log: conditions on the request and on
    the events of the log, in which no projection, no verifier state and no order of checks enters. */
module CommandAnswers {
  import opened Collections
  import opened PolicyTypes
  import opened Evaluation
  import opened Boundary
  import opened BoundaryTheorems
  import opened Verifier
  import opened Projections
  import opened Admission
  import opened CandidateReview
  import opened CandidateTheorems
  import opened Durable
  import opened DurableTheorems
  import opened ReviewSafety

  /** The event is admissible and the store, of 10,000 events, holds it already or has room for it. */
  ghost predicate Enters(t: Trust, h: seq<Event>, e: Event) {
    Admissible(t, h, e) && (e in h || |h| < 10000)
  }

  /** The log with the event, which it holds once. */
  ghost function With(h: seq<Event>, e: Event): seq<Event> {
    if e in h then h else h + [e]
  }

  // ---------- accepting events ----------

  /** An event is recorded exactly when it enters; the log then holds it, once, and otherwise is as it was. */
  lemma AcceptIff(t: Trust, h: seq<Event>, e: Event)
    requires Replay(t, h).Some?
    ensures Step(t, h, AcceptEvent(e)).1.yes <==> Enters(t, h, e)
    ensures Enters(t, h, e) ==> Step(t, h, AcceptEvent(e)) == (With(h, e), Verdict(true, Recorded))
    ensures !Enters(t, h, e) ==> Step(t, h, AcceptEvent(e)).0 == h
  {
    hide Admissible, Outcome;
    AdmittedIff(t, h, e);
  }

  /** A revocation that names something, at a time not before the log's, is recorded while there is room, and from
      then on nothing under the key or artifact enters in any continuation of the log. */
  lemma RevocationIsRecorded(t: Trust, h: seq<Event>, e: Event)
    requires Replay(t, h).Some? && !e.ArtifactEvent? && |h| < 10000
    requires 0 <= e.now <= 9007199254740991 && forall x | x in h :: x.now <= e.now
    requires e.RevokeKeyEvent? ==> e.keyId != ""
    requires e.RevokeArtifactEvent? ==> e.artifactId != ""
    ensures Step(t, h, AcceptEvent(e)).1 == Verdict(true, Recorded) && e in Step(t, h, AcceptEvent(e)).0
    ensures forall g, x: Event | Step(t, h, AcceptEvent(e)).0 <= g && x.ArtifactEvent? && Covers(e, x.artifact.unsigned) :: !Enters(t, g, x)
  {
    hide Step;
    assert Enters(t, h, e);
    AcceptIff(t, h, e);
    var later := Step(t, h, AcceptEvent(e)).0;
    forall g, x: Event | later <= g && x.ArtifactEvent? && Covers(e, x.artifact.unsigned) ensures !Enters(t, g, x) {
      var i :| 0 <= i < |later| && later[i] == e;
      assert g[i] == e;
    }
  }

  /** The revocation is of the key that signed this envelope, or of this artifact. */
  ghost predicate Covers(e: Event, u: Unsigned) {
    match e
    case RevokeKeyEvent(_, keyId) => u.keyId == keyId
    case RevokeArtifactEvent(_, kind, artifactId) => u.kind == kind && u.artifactId == artifactId
    case ArtifactEvent(_, _, _) => false
  }

  /** A review of a candidate is recorded exactly when the candidate is acceptable, the review rejects it or holds
      an assessment bound to it, and the event enters. */
  lemma AcceptCandidateIff(t: Trust, h: seq<Event>, subject: Subject, ctx: EvidenceContext, a: SignedArtifact, now: int)
    requires Replay(t, h).Some?
    ensures Step(t, h, AcceptCandidate(subject, ctx, a, now)).1.yes <==>
      && AcceptableCandidate(t.world, subject, ctx, now)
      && a.unsigned.payload.ReviewPayload?
      && (a.unsigned.payload.record.decision == Reject || BoundAssessment(subject.candidate.pkg, a.unsigned.payload.record))
      && Enters(t, h, ArtifactEvent(now, a, Some(SubjectDigest(subject))))
    ensures Step(t, h, AcceptCandidate(subject, ctx, a, now)).1.yes ==>
      ArtifactEvent(now, a, Some(SubjectDigest(subject))) in Step(t, h, AcceptCandidate(subject, ctx, a, now)).0
  {
    hide Step, AcceptableCandidate, CandidateRefusal, BoundAssessment, AssessmentRefusal, Enters;
    var cmd := AcceptCandidate(subject, ctx, a, now);
    CandidateAcceptedIff(t.world, subject, ctx, now);
    if subject.candidate.PackageCandidate? && a.unsigned.payload.ReviewPayload? {
      BoundAssessmentIff(subject.candidate.pkg, a.unsigned.payload.record);
    }
    if Preliminary(t, cmd).Some? {
      PreliminaryStops(t, cmd);
    } else {
      SubmittedAsReview(t, cmd);
      AcceptIff(t, h, EventOf(cmd));
    }
  }

  // ---------- access ----------

  /** A snapshot whose event is admissible passes the boundary's own snapshot check. */
  lemma EnteredSnapshotIsChecked(t: Trust, h: seq<Event>, a: SignedArtifact, now: int)
    requires Admissible(t, h, ArtifactEvent(now, a, None))
    ensures a.unsigned.payload.SnapshotPayload?
    ensures var s := a.unsigned.payload.snapshot; CheckSnapshot(s, ReceiptFor(t, s, now))
  {
    hide Unrevoked, RevisionNext, OneIdentity, ValidSnapshot, DistinctIds, UniqueSnapshotIds;
    DistinctIdsIff(a.unsigned.payload.snapshot);
  }

  /** The durable access check permits exactly when the snapshot's event enters, the request is well formed and the
      snapshot grants it. */
  lemma AccessIff(t: Trust, h: seq<Event>, r: Request, a: SignedArtifact, now: int)
    requires Replay(t, h).Some?
    ensures Step(t, h, CheckAccess(r, a, now)).1.yes <==>
      && Enters(t, h, ArtifactEvent(now, a, None)) && a.unsigned.payload.SnapshotPayload?
      && ValidRequest(r) && MayAccess(r, a.unsigned.payload.snapshot, now)
    ensures Step(t, h, CheckAccess(r, a, now)).0 ==
      if Enters(t, h, ArtifactEvent(now, a, None)) then With(h, ArtifactEvent(now, a, None)) else h
  {
    hide Step, Outcome, Replay, Admissible, MayAccess, ValidRequest, ScopedAccess, Refusal, CheckSnapshot;
    var e, cmd := ArtifactEvent(now, a, None), CheckAccess(r, a, now);
    AdmittedIff(t, h, e);
    StepUnfolds(t, h, cmd);
    if Admissible(t, h, e) {
      EnteredSnapshotIsChecked(t, h, a, now);
      EnteredState(t, h, a, now);
      var s := a.unsigned.payload.snapshot;
      AccessIffGrantedAndNotDenied(r, s, ReceiptFor(t, s, now));
    }
  }

  // ---------- the records of a subject ----------

  lemma {:induction false} StoredIdsDistinct(reviews: map<string, SignedArtifact>, ids: seq<string>, binding: Digest)
    requires Distinct(ids)
    requires forall id | id in reviews && reviews[id].unsigned.payload.ReviewPayload? :: reviews[id].unsigned.payload.record.id == id
    ensures Distinct(RecordIds(RecordsIn(StoredFor(reviews, ids, binding))))
    ensures forall id | id in RecordIds(RecordsIn(StoredFor(reviews, ids, binding))) :: id in ids
  {
    if ids != [] {
      var front, last := ids[..|ids| - 1], ids[|ids| - 1];
      StoredIdsDistinct(reviews, front, binding);
      var before, after := StoredFor(reviews, front, binding), StoredFor(reviews, ids, binding);
      assert last !in front;
      if after != before {
        assert RecordIds(RecordsIn(after)) == RecordIds(RecordsIn(before)) + [last];
      }
      assert ids == front + [last];
    }
  }

  /** What the log guarantees of the records of one subject: valid, one per reviewer, ids unique. */
  ghost predicate FromLog(records: seq<ReviewRecord>, binding: Digest) {
    && (forall r | r in records :: ValidRecord(r) && r.subjectHash == binding)
    && OneRecordPerReviewer(records)
    && DistinctKeys(records, (r: ReviewRecord) => r.id)
  }

  lemma StoredRecord(t: Trust, h: seq<Event>, p: PState, binding: Digest, a: SignedArtifact)
    requires ReviewsKept(t, h, p) && a in StoredFor(p.reviews, p.order, binding)
    ensures var r := a.unsigned.payload.record;
      && ValidRecord(r) && r.subjectHash == binding
      && r.id in p.reviews && p.reviews[r.id] == a && r.id in p.recordOwners && p.recordOwners[r.id] == OwnerOf(r)
  {
    hide ValidEnvelope, ValidSnapshot;
    var id := StoredUnder(p.reviews, p.order, binding, a);
    assert Stored(t, h, p, id);
  }

  lemma StoredRecordsAreFromLog(t: Trust, h: seq<Event>, p: PState, binding: Digest)
    requires ReviewsKept(t, h, p) && IdentitiesKept(h, p)
    ensures FromLog(RecordsIn(StoredFor(p.reviews, p.order, binding)), binding)
  {
    hide Stored, ValidRecord, StoredFor;
    var stored := StoredFor(p.reviews, p.order, binding);
    var records := RecordsIn(stored);
    forall i | 0 <= i < |records|
      ensures ValidRecord(records[i]) && records[i].subjectHash == binding
      ensures records[i].id in p.recordOwners && p.recordOwners[records[i].id] == OwnerOf(records[i])
      ensures records[i].id in p.reviews && p.reviews[records[i].id] == stored[i]
    {
      assert stored[i] in stored;
      StoredRecord(t, h, p, binding, stored[i]);
    }
    StoredIdsUnique(t, h, p, binding);
    forall x, y | x in records && y in records && x.reviewer == y.reviewer ensures x == y {
      assert OwnerOf(x) == OwnerOf(y);
      assert p.identities[p.recordOwners[x.id]] == x.id && p.identities[p.recordOwners[y.id]] == y.id;
    }
  }

  lemma StoredIdsUnique(t: Trust, h: seq<Event>, p: PState, binding: Digest)
    requires ReviewsKept(t, h, p)
    ensures DistinctKeys(RecordsIn(StoredFor(p.reviews, p.order, binding)), (r: ReviewRecord) => r.id)
  {
    hide Genuine;
    var records := RecordsIn(StoredFor(p.reviews, p.order, binding));
    forall id | id in p.reviews && p.reviews[id].unsigned.payload.ReviewPayload?
      ensures p.reviews[id].unsigned.payload.record.id == id { assert Stored(t, h, p, id); }
    StoredIdsDistinct(p.reviews, p.order, binding);
    forall i, j | 0 <= i < j < |records| ensures records[i].id != records[j].id {
      assert RecordIds(records)[i] != RecordIds(records)[j];
    }
  }

  lemma FilteredFromLog(records: seq<ReviewRecord>, binding: Digest, test: ReviewRecord -> bool)
    requires FromLog(records, binding)
    ensures FromLog(Filter(records, test), binding) && |Filter(records, test)| <= |records|
  {
    FilterKeepsDistinct(records, test, (r: ReviewRecord) => r.id);
    FilterShorter(records, test);
  }

  lemma {:induction false} FilterShorter<T>(items: seq<T>, test: T -> bool)
    ensures |Filter(items, test)| <= |items|
  {
    if items != [] { FilterShorter(items[1..], test); }
  }

  /** The newest review of its stream that the log holds, and about this subject. */
  ghost predicate Current(h: seq<Event>, e: Event, binding: Digest): (current: bool)
    ensures current ==> IsReview(e)
  {
    IsReview(e) && RecordOf(e).subjectHash == binding && Newest(h, e)
  }

  ghost function CurrentRecords(h: seq<Event>, binding: Digest): set<ReviewRecord> {
    set e | e in h && Current(h, e, binding) :: RecordOf(e)
  }

  /** Neither expired nor revoked. */
  ghost predicate StillStands(h: seq<Event>, e: Event, now: int)
    requires e.ArtifactEvent?
  {
    now < e.artifact.unsigned.expiresAt && Unrevoked(h, e.artifact.unsigned)
  }

  lemma CurrentIsStored(t: Trust, h: seq<Event>, p: PState, e: Event, binding: Digest)
    requires MarksKept(t, h, p) && ReviewsKept(t, h, p) && e in h && Current(h, e, binding)
    ensures RecordOf(e).id in p.reviews && p.reviews[RecordOf(e).id].unsigned == e.artifact.unsigned
    ensures p.reviews[RecordOf(e).id] in StoredFor(p.reviews, p.order, binding)
  {
    hide ValidEnvelope, ValidRecord, StoredFor, Current, ProperSnapshot;
    CurrentIsReview(h, e, binding);
    var id := RecordOf(e).id;
    assert Stored(t, h, p, id);
    var x :| x in h && IsReview(x) && x.artifact == p.reviews[id];
    assert Marked(p.verifier, e.artifact.unsigned);
    assert x.artifact.unsigned.revision <= e.artifact.unsigned.revision;
    StoredIsListed(p.reviews, p.order, binding, id);
  }

  lemma CurrentIsReview(h: seq<Event>, e: Event, binding: Digest)
    requires Current(h, e, binding)
    ensures IsReview(e) && RecordOf(e).subjectHash == binding
    ensures forall x | x in h && IsReview(x) && RecordOf(x).id == RecordOf(e).id ::
      x.artifact.unsigned.revision <= e.artifact.unsigned.revision
  {}

  lemma StoredEvent(t: Trust, h: seq<Event>, p: PState, id: string, binding: Digest) returns (e: Event)
    requires MarksKept(t, h, p) && Stored(t, h, p, id) && IsFor(p.reviews[id], binding)
    ensures e in h && Current(h, e, binding) && e.artifact == p.reviews[id]
  {
    hide Genuine, MarksKept, Newest;
    e :| e in h && IsReview(e) && e.artifact == p.reviews[id];
    StoredIsNewest(t, h, p, id, e);
  }

  lemma StoredIsCurrent(t: Trust, h: seq<Event>, p: PState, binding: Digest, a: SignedArtifact) returns (e: Event)
    requires MarksKept(t, h, p) && ReviewsKept(t, h, p) && a in StoredFor(p.reviews, p.order, binding)
    ensures e in h && Current(h, e, binding) && e.artifact == a
  {
    hide StoredFor, MarksKept, Stored, Current, Ordered;
    var id := StoredUnder(p.reviews, p.order, binding, a);
    e := StoredEvent(t, h, p, id, binding);
  }

  /** The records a review check works on are, in some order and each once, the current records of the log. */
  lemma LoggedRecords(t: Trust, h: seq<Event>, p: PState, binding: Digest)
    requires MarksKept(t, h, p) && ReviewsKept(t, h, p)
    ensures var records := RecordsIn(StoredFor(p.reviews, p.order, binding));
      && ToSet(records) == CurrentRecords(h, binding) && Unique(records)
  {
    hide MarksKept, ReviewsKept, StoredFor, Current;
    var stored := StoredFor(p.reviews, p.order, binding);
    var records := RecordsIn(stored);
    forall r ensures r in records <==> r in CurrentRecords(h, binding) {
      if r in records {
        var i :| 0 <= i < |records| && records[i] == r;
        assert stored[i] in stored;
        var e := StoredIsCurrent(t, h, p, binding, stored[i]);
        CurrentIsReview(h, e, binding);
      }
      if r in CurrentRecords(h, binding) {
        var e :| e in h && Current(h, e, binding) && RecordOf(e) == r;
        CurrentIsReview(h, e, binding);
        CurrentIsStored(t, h, p, e, binding);
        var i :| 0 <= i < |stored| && stored[i] == p.reviews[r.id];
        assert records[i] == r;
      }
    }
    StoredIdsUnique(t, h, p, binding);
    ToSetSize(records);
  }

  /** They all re-verify exactly when none of the current reviews has lapsed. */
  lemma AllLiveMeaning(t: Trust, h: seq<Event>, p: PState, binding: Digest, v: VState, now: int)
    requires MarksKept(t, h, p) && ReviewsKept(t, h, p)
    requires forall u :: Revoked(v, u) <==> !Unrevoked(h, u)
    ensures AllLive(v, StoredFor(p.reviews, p.order, binding), now) <==>
      forall e | e in h && Current(h, e, binding) :: StillStands(h, e, now)
  {
    hide MarksKept, ReviewsKept, StoredFor, Current, Revoked, Unrevoked;
    var stored := StoredFor(p.reviews, p.order, binding);
    if AllLive(v, stored, now) {
      forall e | e in h && Current(h, e, binding) ensures StillStands(h, e, now) {
        CurrentIsReview(h, e, binding);
        CurrentIsStored(t, h, p, e, binding);
        assert Live(v, p.reviews[RecordOf(e).id], now);
      }
    }
    if forall e | e in h && Current(h, e, binding) :: StillStands(h, e, now) {
      forall a | a in stored ensures Live(v, a, now) {
        var e := StoredIsCurrent(t, h, p, binding, a);
        assert StillStands(h, e, now);
      }
    }
  }

  // ---------- reviews ----------

  /** Some logged review of the subject rejects it, newest of its stream or not. */
  ghost predicate RejectionLogged(h: seq<Event>, binding: Digest) {
    exists e :: e in h && IsReview(e) && RecordOf(e).subjectHash == binding && RecordOf(e).decision == Reject
  }

  ghost predicate AllStand(h: seq<Event>, binding: Digest, now: int) {
    forall e | e in h && Current(h, e, binding) :: StillStands(h, e, now)
  }

  /** Nothing logged stands against a review of the subject: no rejection, and no current review that is expired
      or revoked. */
  ghost predicate LogAllows(h: seq<Event>, binding: Digest, now: int) {
    !RejectionLogged(h, binding) && AllStand(h, binding, now)
  }

  ghost function StoredRecords(t: Trust, h: seq<Event>, binding: Digest): seq<ReviewRecord>
    requires Replay(t, h).Some?
  {
    RecordsIn(StoredFor(Replay(t, h).value.reviews, Replay(t, h).value.order, binding))
  }

  lemma StoredRecordsMeaning(t: Trust, h: seq<Event>, binding: Digest)
    requires Replay(t, h).Some?
    ensures ToSet(StoredRecords(t, h, binding)) == CurrentRecords(h, binding)
    ensures |StoredRecords(t, h, binding)| == |CurrentRecords(h, binding)|
    ensures FromLog(StoredRecords(t, h, binding), binding)
  {
    hide Replay, MarksKept, ReviewsKept, RejectionsKept, RevocationsKept, ClockKept, StoredFor, CurrentRecords, FromLog;
    LogInvariant(t, h);
    LoggedRecords(t, h, Replay(t, h).value, binding);
    StoredRecordsAreFromLog(t, h, Replay(t, h).value, binding);
  }

  lemma RejectionMeaning(t: Trust, h: seq<Event>, binding: Digest)
    requires Replay(t, h).Some?
    ensures binding in Replay(t, h).value.rejected <==> RejectionLogged(h, binding)
  {
    hide Replay, MarksKept, ReviewsKept, IdentitiesKept, RevocationsKept, ClockKept;
    LogInvariant(t, h);
    if e :| e in h && IsReview(e) && RecordOf(e).subjectHash == binding && RecordOf(e).decision == Reject {
      assert IsRejection(e, binding);
    }
  }

  lemma LapseMeaning(t: Trust, h: seq<Event>, v: VState, binding: Digest, now: int)
    requires Replay(t, h).Some?
    requires v.revokedKeys == Replay(t, h).value.verifier.revokedKeys
    requires v.revokedArtifacts == Replay(t, h).value.verifier.revokedArtifacts
    ensures AllLive(v, StoredFor(Replay(t, h).value.reviews, Replay(t, h).value.order, binding), now) <==> AllStand(h, binding, now)
  {
    hide Replay, MarksKept, ReviewsKept, IdentitiesKept, RejectionsKept, RevocationsKept, ClockKept, StoredFor, Current,
      StillStands, AllLive, Unrevoked;
    LogInvariant(t, h);
    forall u ensures Revoked(v, u) <==> !Unrevoked(h, u) { RevocationMeaning(t, h, u); }
    AllLiveMeaning(t, h, Replay(t, h).value, binding, v, now);
  }

  /** A review check past its contract whose event enters: it says yes exactly when the log allows it and the judge
      says yes on the stored records; the event stays unless a review has lapsed or the judge stops with an error. */
  lemma CheckIsJudged(t: Trust, h: seq<Event>, cmd: Command, subject: Subject, snapshot: SignedArtifact, now: int)
    requires (cmd == CheckReview(subject, snapshot, now)) || (cmd.CheckCandidate? && cmd == CheckCandidate(subject, cmd.context, snapshot, now))
    requires Replay(t, h).Some? && Preliminary(t, cmd).None? && Enters(t, h, ArtifactEvent(now, snapshot, None))
    ensures snapshot.unsigned.payload.SnapshotPayload?
    ensures var s := snapshot.unsigned.payload.snapshot;
      var judged := Judge(subject, PackageOf(cmd), StoredRecords(t, h, SubjectDigest(subject)), s, ReceiptFor(t, s, now));
      && (Step(t, h, cmd).1.yes <==> LogAllows(h, SubjectDigest(subject), now) && judged.Done? && judged.verdict.yes)
      && Step(t, h, cmd).0 ==
           if RejectionLogged(h, SubjectDigest(subject)) || (AllStand(h, SubjectDigest(subject), now) && judged.Done?)
           then With(h, ArtifactEvent(now, snapshot, None)) else h
  {
    hide Step, Preliminary, Replay, Outcome, Admissible, FinishReview, Judge, AllLive, AllStand, RejectionLogged, LapseReason,
      StoredFor, Kept;
    AdmittedIff(t, h, ArtifactEvent(now, snapshot, None));
    StepUnfolds(t, h, cmd);
    EnteredState(t, h, snapshot, now);
    FinishReviewMeaning(t, h, subject, PackageOf(cmd), snapshot, now);
    RejectionMeaning(t, h, SubjectDigest(subject));
    LapseMeaning(t, h, StateAt(t, h, snapshot, now).verifier, SubjectDigest(subject), now);
  }

  lemma RefusedCheck(t: Trust, h: seq<Event>, cmd: Command)
    requires Replay(t, h).Some? && !Enters(t, h, EventOf(cmd))
    ensures !Step(t, h, cmd).1.yes && Step(t, h, cmd).0 == h
  {
    hide Step, Preliminary, Replay, Outcome, Admissible, Finish;
    AdmittedIff(t, h, EventOf(cmd));
    if Preliminary(t, cmd).Some? { PreliminaryStops(t, cmd); } else { StepUnfolds(t, h, cmd); }
  }

  ghost predicate EveryRoleEligible(subject: Subject, records: set<ReviewRecord>, s: Snapshot, now: int) {
    forall role | role in ReviewerRoles(subject.mode) :: exists r :: r in records && Eligible(r, role, subject, s, now)
  }

  lemma QualifiedIsRoleBound(subject: Subject, ctx: Context)
    ensures RoleBound(Qualification(subject, ctx))
  {}

  /** On records as the log keeps them the greedy review is exact, so their order does not matter. */
  lemma ReviewOfLogRecordsIsExact(subject: Subject, records: seq<ReviewRecord>, s: Snapshot, receipt: SnapshotReceipt)
    requires FromLog(records, SubjectDigest(subject)) && ValidSubject(subject) && CheckSnapshot(s, receipt)
    requires forall r | r in records :: r.decision != Reject
    ensures ScopedReview(subject, records, s, receipt).yes <==>
      |records| <= 256 && ReviewOpen(subject, s, receipt.now) && EveryRoleEligible(subject, ToSet(records), s, receipt.now)
  {
    hide ValidSubject, CheckSnapshot, ScopedReview, ReviewOpen, Qualified, Eligible, ValidRecord, ReviewContext, Choose;
    var ctx := ReviewContext(subject, s, receipt.now);
    var roles, q := ReviewerRoles(subject.mode), Qualification(subject, ctx);
    ReviewReduces(subject, records, s, receipt);
    var reviews := ForSubject(records, SubjectDigest(subject));
    forall r ensures r in reviews <==> r in records {}
    assert RoleBound(q) by { QualifiedIsRoleBound(subject, ctx); }
    ReviewerRolesDistinct(subject.mode);
    ChoiceIsExact(roles, reviews, q, {});
    ScopedSnapshotIds(s, receipt);
    forall r, role ensures q(r, role) <==> Eligible(r, role, subject, s, receipt.now) {
      QualificationMeaning(r, role, subject, s, receipt.now);
    }
  }

  lemma AllowedRecords(t: Trust, h: seq<Event>, binding: Digest, now: int)
    requires Replay(t, h).Some? && LogAllows(h, binding, now)
    ensures forall r | r in StoredRecords(t, h, binding) :: r.decision != Reject
  {
    hide Replay, StoredRecords, StillStands, FromLog, Newest;
    StoredRecordsMeaning(t, h, binding);
    forall r | r in StoredRecords(t, h, binding) ensures r.decision != Reject {
      SetMembers(StoredRecords(t, h, binding), r);
      assert r in CurrentRecords(h, binding);
    }
  }

  lemma EnteringIsAdmissible(t: Trust, h: seq<Event>, e: Event)
    requires Enters(t, h, e)
    ensures Admissible(t, h, e)
  {}

  /** A durable review completes exactly when the subject is valid and no package, the snapshot's event enters, the
      log allows it, scope, resource, recipients and requester pass, and among at most 256 current records every
      required role has an eligible one. The event is kept, whatever the answer, unless a current review has lapsed. */
  lemma DurableReviewIsExact(t: Trust, h: seq<Event>, subject: Subject, snapshot: SignedArtifact, now: int)
    requires Replay(t, h).Some?
    ensures Step(t, h, CheckReview(subject, snapshot, now)).1.yes <==>
      && ValidSubject(subject) && !subject.candidate.PackageCandidate? && !subject.candidate.claimsPackageVersion
      && Enters(t, h, ArtifactEvent(now, snapshot, None)) && snapshot.unsigned.payload.SnapshotPayload?
      && LogAllows(h, SubjectDigest(subject), now)
      && var s, records := snapshot.unsigned.payload.snapshot, CurrentRecords(h, SubjectDigest(subject));
      ReviewOpen(subject, s, now) && |records| <= 256 && EveryRoleEligible(subject, records, s, now)
    ensures Step(t, h, CheckReview(subject, snapshot, now)).0 ==
      if && ValidSubject(subject) && !subject.candidate.PackageCandidate? && !subject.candidate.claimsPackageVersion
         && Enters(t, h, ArtifactEvent(now, snapshot, None))
         && (RejectionLogged(h, SubjectDigest(subject)) || AllStand(h, SubjectDigest(subject), now))
      then With(h, ArtifactEvent(now, snapshot, None)) else h
  {
    hide Step, Replay, Enters, ValidSubject, RejectionLogged, AllStand, With, CurrentRecords, StoredRecords, FromLog, ReviewOpen, EveryRoleEligible,
      ScopedReview, CheckSnapshot;
    var e, cmd, binding := ArtifactEvent(now, snapshot, None), CheckReview(subject, snapshot, now), SubjectDigest(subject);
    if Preliminary(t, cmd).Some? {
      PreliminaryStops(t, cmd);
    } else if !Enters(t, h, e) {
      RefusedCheck(t, h, cmd);
    } else {
      CheckIsJudged(t, h, cmd, subject, snapshot, now);
      EnteringIsAdmissible(t, h, e);
      EnteredSnapshotIsChecked(t, h, snapshot, now);
      if LogAllows(h, binding, now) {
        var s := snapshot.unsigned.payload.snapshot;
        StoredRecordsMeaning(t, h, binding);
        AllowedRecords(t, h, binding, now);
        ReviewOfLogRecordsIsExact(subject, StoredRecords(t, h, binding), s, ReceiptFor(t, s, now));
      }
    }
  }

  /** The records that count for a candidate: complete assessments of it by reviewers who may read its sources. */
  ghost function CountingRecords(h: seq<Event>, subject: Subject, pkg: Package, s: Snapshot, now: int): set<ReviewRecord> {
    set r | r in CurrentRecords(h, SubjectDigest(subject)) && CompleteAssessment(pkg, r) && MayCount(subject, pkg, r, s, now)
  }

  lemma CountingMeaning(t: Trust, h: seq<Event>, subject: Subject, pkg: Package, s: Snapshot, receipt: SnapshotReceipt)
    requires Replay(t, h).Some? && Unique(ClaimIds(pkg.claims)) && CheckSnapshot(s, receipt)
    ensures var eligible := Filter(StoredRecords(t, h, SubjectDigest(subject)), EligibilityTest(subject, pkg, s, receipt));
      && FromLog(eligible, SubjectDigest(subject))
      && ToSet(eligible) == CountingRecords(h, subject, pkg, s, receipt.now)
      && |eligible| == |CountingRecords(h, subject, pkg, s, receipt.now)|
  {
    hide Replay, CurrentRecords, StoredRecords, EligibilityTest, CompleteAssessment, MayCount, CheckSnapshot, ValidRecord;
    var records, test := StoredRecords(t, h, SubjectDigest(subject)), EligibilityTest(subject, pkg, s, receipt);
    StoredRecordsMeaning(t, h, SubjectDigest(subject));
    FilteredFromLog(records, SubjectDigest(subject), test);
    var eligible := Filter(records, test);
    forall r ensures r in eligible <==> r in CountingRecords(h, subject, pkg, s, receipt.now) {
      EligibleRecordMeaning(subject, pkg, s, receipt, r);
      SetMembers(records, r);
    }
    ToSetSize(eligible);
  }

  lemma AudienceSourcesMeaning(subject: Subject, pkg: Package, s: Snapshot, receipt: SnapshotReceipt)
    requires ValidSubject(subject) && ValidPackage(pkg) && CheckSnapshot(s, receipt)
    ensures AudienceMayReadSources(subject, pkg, s, receipt) <==>
      forall a, x | a in subject.audience && x in pkg.sources :: MayAccess(ReadBy(subject, a, x.receipt.resource), s, receipt.now)
  {
    hide ValidCandidate, ValidClaim, ValidSource, CheckSnapshot, SourceReadable, MayAccess;
    forall a, x | a in subject.audience && x in pkg.sources
      ensures SourceReadable(subject, a, x, s, receipt) <==> MayAccess(ReadBy(subject, a, x.receipt.resource), s, receipt.now)
    {
      SourceReadMeaning(subject, a, x, s, receipt);
    }
    assert forall a | a in subject.audience :: ActorMayReadSources(subject, a, pkg, s, receipt) <==>
      forall x | x in pkg.sources :: SourceReadable(subject, a, x, s, receipt);
  }

  lemma CandidateJudged(t: Trust, h: seq<Event>, subject: Subject, pkg: Package, s: Snapshot, receipt: SnapshotReceipt)
    requires Replay(t, h).Some? && LogAllows(h, SubjectDigest(subject), receipt.now) && CheckSnapshot(s, receipt)
    requires ValidSubject(subject) && ValidPackage(pkg) && Unique(ClaimIds(pkg.claims))
    ensures var judged := Judge(subject, Some(pkg), StoredRecords(t, h, SubjectDigest(subject)), s, receipt);
      judged.Done? && judged.verdict.yes <==>
        && ReviewOpen(subject, s, receipt.now)
        && (forall a, x | a in subject.audience && x in pkg.sources :: MayAccess(ReadBy(subject, a, x.receipt.resource), s, receipt.now))
        && |CountingRecords(h, subject, pkg, s, receipt.now)| <= 256
        && EveryRoleEligible(subject, CountingRecords(h, subject, pkg, s, receipt.now), s, receipt.now)
  {
    hide Replay, ValidSubject, ValidPackage, LogAllows, CountingRecords, CurrentRecords, StoredRecords, FromLog, ReviewOpen,
      EveryRoleEligible, ScopedReview, CheckSnapshot, AudienceMayReadSources, MayAccess, EligibilityTest, Unique;
    var eligible := Filter(StoredRecords(t, h, SubjectDigest(subject)), EligibilityTest(subject, pkg, s, receipt));
    AudienceSourcesMeaning(subject, pkg, s, receipt);
    CountingMeaning(t, h, subject, pkg, s, receipt);
    AllowedRecords(t, h, SubjectDigest(subject), receipt.now);
    ReviewOfLogRecordsIsExact(subject, eligible, s, receipt);
  }

  lemma JudgeStops(subject: Subject, pkg: Package, records: seq<ReviewRecord>, s: Snapshot, receipt: SnapshotReceipt)
    ensures Judge(subject, Some(pkg), records, s, receipt).Done? <==> AudienceMayReadSources(subject, pkg, s, receipt)
    ensures Judge(subject, None, records, s, receipt).Done?
  {
    hide ScopedReview, AudienceMayReadSources, EligibilityTest;
  }

  /** A candidate's review completes exactly when the candidate is acceptable, the snapshot's event enters, the log
      allows it, scope, resource, recipients and requester pass, every recipient may read every source, and among at
      most 256 counting records every required role has an eligible one. The event is kept, whatever the answer,
      unless a current review has lapsed or a recipient may not read a source. */
  lemma DurableCandidateReviewIsExact(t: Trust, h: seq<Event>, subject: Subject, ctx: EvidenceContext, snapshot: SignedArtifact, now: int)
    requires Replay(t, h).Some?
    ensures Step(t, h, CheckCandidate(subject, ctx, snapshot, now)).1.yes <==>
      && AcceptableCandidate(t.world, subject, ctx, now)
      && Enters(t, h, ArtifactEvent(now, snapshot, None)) && snapshot.unsigned.payload.SnapshotPayload?
      && LogAllows(h, SubjectDigest(subject), now)
      && var s, pkg := snapshot.unsigned.payload.snapshot, subject.candidate.pkg;
      && ReviewOpen(subject, s, now)
      && (forall a, x | a in subject.audience && x in pkg.sources :: MayAccess(ReadBy(subject, a, x.receipt.resource), s, now))
      && var records := CountingRecords(h, subject, pkg, s, now);
      |records| <= 256 && EveryRoleEligible(subject, records, s, now)
    ensures Step(t, h, CheckCandidate(subject, ctx, snapshot, now)).0 ==
      if && AcceptableCandidate(t.world, subject, ctx, now)
         && Enters(t, h, ArtifactEvent(now, snapshot, None)) && snapshot.unsigned.payload.SnapshotPayload?
         && (RejectionLogged(h, SubjectDigest(subject))
             || (AllStand(h, SubjectDigest(subject), now)
                 && forall a, x | a in subject.audience && x in subject.candidate.pkg.sources ::
                      MayAccess(ReadBy(subject, a, x.receipt.resource), snapshot.unsigned.payload.snapshot, now)))
      then With(h, ArtifactEvent(now, snapshot, None)) else h
  {
    hide Step, Replay, Enters, ValidSubject, ValidPackage, AcceptableCandidate, CandidateRefusal, RejectionLogged, AllStand, With, CountingRecords,
      CurrentRecords, StoredRecords, FromLog, ReviewOpen, EveryRoleEligible, Judge, CheckSnapshot, MayAccess, Unique;
    var e, cmd, binding := ArtifactEvent(now, snapshot, None), CheckCandidate(subject, ctx, snapshot, now), SubjectDigest(subject);
    CandidateAcceptedIff(t.world, subject, ctx, now);
    if Preliminary(t, cmd).Some? {
      PreliminaryStops(t, cmd);
    } else if !Enters(t, h, e) {
      RefusedCheck(t, h, cmd);
    } else {
      CheckIsJudged(t, h, cmd, subject, snapshot, now);
      EnteringIsAdmissible(t, h, e);
      EnteredSnapshotIsChecked(t, h, snapshot, now);
      AcceptedTexts(t.world, subject, ctx, now);
      var s := snapshot.unsigned.payload.snapshot;
      AudienceSourcesMeaning(subject, subject.candidate.pkg, s, ReceiptFor(t, s, now));
      JudgeStops(subject, subject.candidate.pkg, StoredRecords(t, h, binding), s, ReceiptFor(t, s, now));
      if LogAllows(h, binding, now) {
        CandidateJudged(t, h, subject, subject.candidate.pkg, s, ReceiptFor(t, s, now));
      }
    }
  }
}
