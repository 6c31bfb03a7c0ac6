/** The caller-list checks (scripts/review-policy/signed-boundary.ts) and exactly where the durable
    review check differs from them. */
module SignedBoundary {
  import opened Collections
  import opened PolicyTypes
  import opened Evaluation
  import opened Boundary
  import opened BoundaryTheorems
  import opened Verifier
  import opened Projections
  import opened Durable
  import opened DurableTheorems
  import opened ReviewSafety

  const BATCH_LIMIT: nat := 256

  function SignedAccess(t: Trust, v: VState, request: Request, snapshot: SignedArtifact, now: int): (VState, Verdict) {
    var refusal := Refusal(t, v, snapshot, SnapshotKind, now, NO_HASH);
    if refusal.Some? then (v, Verdict(false, refusal.value)) else
    var s := snapshot.unsigned.payload.snapshot;
    (Advance(v, snapshot.unsigned, now), ScopedAccess(request, s, ReceiptFor(t, s, now)))
  }

  /** The verifier keeps what it has seen even when a later record is refused. */
  ghost function SignedReview(t: Trust, v: VState, subject: Subject, records: seq<SignedArtifact>, snapshot: SignedArtifact, now: int): (VState, Verdict) {
    if |records| > BATCH_LIMIT then (v, Verdict(false, InvalidReviewBatch)) else
    var refusal := Refusal(t, v, snapshot, SnapshotKind, now, NO_HASH);
    if refusal.Some? then (v, Verdict(false, refusal.value)) else
    var s := snapshot.unsigned.payload.snapshot;
    var (v2, failed) := Recheck(t, Advance(v, snapshot.unsigned, now), records, SubjectDigest(subject), now);
    if failed.Some? then (v2, Verdict(false, failed.value)) else
    RecheckedAreReviews(t, Advance(v, snapshot.unsigned, now), records, SubjectDigest(subject), now);
    (v2, ScopedReview(subject, RecordsIn(records), s, ReceiptFor(t, s, now)))
  }

  lemma VerifiedIsFor(t: Trust, v: VState, a: SignedArtifact, binding: Digest, now: int)
    requires Refusal(t, v, a, ReviewKind, now, binding).None?
    ensures IsFor(a, binding)
  {
    hide ValidEnvelope, InWindow, ValidRecord;
  }

  /** What passes is a review of this subject. */
  lemma {:induction false} RecheckedAreReviews(t: Trust, v: VState, records: seq<SignedArtifact>, binding: Digest, now: int)
    requires Recheck(t, v, records, binding, now).1.None?
    ensures forall a | a in records :: IsFor(a, binding)
  {
    hide Refusal;
    if records != [] {
      var front, a := records[..|records| - 1], records[|records| - 1];
      RecheckedAreReviews(t, v, front, binding, now);
      VerifiedIsFor(t, Recheck(t, v, front, binding, now).0, a, binding, now);
      assert records == front + [a];
    }
  }

  lemma {:induction false} RecheckPrefix(t: Trust, v: VState, records: seq<SignedArtifact>, i: nat, binding: Digest, now: int)
    requires i <= |records| && Recheck(t, v, records[..i], binding, now).1.Some?
    ensures Recheck(t, v, records, binding, now) == Recheck(t, v, records[..i], binding, now)
    decreases |records|
  {
    if i == |records| {
      assert records[..i] == records;
    } else {
      var front := records[..|records| - 1];
      assert front[..i] == records[..i];
      RecheckPrefix(t, v, front, i, binding, now);
    }
  }

  method CheckSignedAccess(request: Request, snapshot: SignedArtifact, verifier: InMemoryPolicyVerifier, now: int) returns (verdict: Verdict)
    modifies verifier
    ensures (verifier.State(), verdict) == SignedAccess(verifier.trust, old(verifier.State()), request, snapshot, now)
  {
    hide Refusal, ScopedAccess;
    var refusal := verifier.Check(snapshot, SnapshotKind, now, NO_HASH);
    if refusal.Some? { return Verdict(false, refusal.value); }
    var s := snapshot.unsigned.payload.snapshot;
    verdict := ScopedAccess(request, s, ReceiptFor(verifier.trust, s, now));
  }

  /** The caller-side access check permits exactly when the snapshot is genuine, current, unrevoked and not behind
      what the verifier has seen, the request is well formed and the snapshot grants it. */
  lemma SignedAccessIff(t: Trust, v: VState, request: Request, snapshot: SignedArtifact, now: int)
    ensures var (v2, verdict) := SignedAccess(t, v, request, snapshot, now);
      var u := snapshot.unsigned;
      var accepted := ClockAdmits(v, now) && u.kind == SnapshotKind && Genuine(t, snapshot, NO_HASH) && !Revoked(v, u)
        && u.issuedAt <= now < u.expiresAt && RevisionAdmits(v, u);
      && (verdict.yes <==> accepted && u.payload.SnapshotPayload? && ValidRequest(request) && MayAccess(request, u.payload.snapshot, now))
      && v2 == if accepted then v.(latest := v.latest[OrganizationSnapshots := Mark(u.revision, EnvelopeDigest(u))], lastTime := now) else v
  {
    hide Refusal, ScopedAccess, MayAccess, ValidRequest, ValidSnapshot, ValidEnvelope, Revoked, RevisionAdmits, DistinctIds, UniqueSnapshotIds;
    AcceptedIff(t, v, snapshot, SnapshotKind, now, NO_HASH);
    if snapshot.unsigned.payload.SnapshotPayload? {
      var s := snapshot.unsigned.payload.snapshot;
      DistinctIdsIff(s);
      AccessIffGrantedAndNotDenied(request, s, ReceiptFor(t, s, now));
    }
  }

  method CheckSignedReview(subject: Subject, records: seq<SignedArtifact>, snapshot: SignedArtifact, verifier: InMemoryPolicyVerifier, now: int)
    returns (verdict: Verdict)
    modifies verifier
    ensures (verifier.State(), verdict) == SignedReview(verifier.trust, old(verifier.State()), subject, records, snapshot, now)
  {
    hide Refusal, ScopedReview, Recheck;
    if |records| > BATCH_LIMIT { return Verdict(false, InvalidReviewBatch); }
    var refusal := verifier.Check(snapshot, SnapshotKind, now, NO_HASH);
    if refusal.Some? { return Verdict(false, refusal.value); }
    var binding := SubjectDigest(subject);
    var failed, reviewed := VerifyAll(verifier, records, binding, now);
    if failed.Some? { return Verdict(false, failed.value); }
    var s := snapshot.unsigned.payload.snapshot;
    verdict := CheckScopedReview(subject, reviewed, s, ReceiptFor(verifier.trust, s, now));
  }

  /** The loop over the caller's records. */
  method VerifyAll(verifier: InMemoryPolicyVerifier, records: seq<SignedArtifact>, binding: Digest, now: int)
    returns (failed: Option<Reason>, reviewed: seq<ReviewRecord>)
    modifies verifier
    ensures (verifier.State(), failed) == Recheck(verifier.trust, old(verifier.State()), records, binding, now)
    ensures failed.None? ==> (forall a | a in records :: IsFor(a, binding)) && reviewed == RecordsIn(records)
  {
    hide Refusal;
    ghost var start := verifier.State();
    reviewed := [];
    for i := 0 to |records|
      invariant (verifier.State(), None) == Recheck(verifier.trust, start, records[..i], binding, now)
      invariant forall a | a in records[..i] :: IsFor(a, binding)
      invariant reviewed == RecordsIn(records[..i])
    {
      assert records[..i + 1][..i] == records[..i];
      assert records[..i + 1] == records[..i] + [records[i]];
      failed := verifier.Check(records[i], ReviewKind, now, binding);
      if failed.Some? {
        RecheckPrefix(verifier.trust, start, records, i + 1, binding, now);
        return;
      }
      RecheckedAreReviews(verifier.trust, start, records[..i + 1], binding, now);
      reviewed := reviewed + [records[i].unsigned.payload.record];
    }
    assert records[..|records|] == records;
    failed := None;
  }

  // ---------- the durable check against the caller-list check ----------

  /** The caller who passes every latest stored review of the subject to a verifier in the log's state. */
  ghost function CallerListCheck(t: Trust, p: PState, subject: Subject, snapshot: SignedArtifact, now: int): Verdict {
    SignedReview(t, p.verifier, subject, StoredFor(p.reviews, p.order, SubjectDigest(subject)), snapshot, now).1
  }

  /** The durable check could run: past its contract, within the store, and not before the last event. */
  ghost predicate Comparable(t: Trust, h: seq<Event>, subject: Subject, snapshot: SignedArtifact, now: int) {
    && Replay(t, h).Some? && Preliminary(t, CheckReview(subject, snapshot, now)).None?
    && !Full(h, ArtifactEvent(now, snapshot, None)) && Replay(t, h).value.now <= now
    && |StoredFor(Replay(t, h).value.reviews, Replay(t, h).value.order, SubjectDigest(subject))| <= BATCH_LIMIT
  }

  lemma SnapshotStep(t: Trust, p: PState, snapshot: SignedArtifact, now: int)
    requires snapshot.unsigned.kind == SnapshotKind && p.verifier.lastTime <= p.now <= now
    ensures Outcome(t, p, ArtifactEvent(now, snapshot, None)).1 == Refusal(t, p.verifier, snapshot, SnapshotKind, now, NO_HASH)
  {
    hide ValidEnvelope, SnapshotPayloadOk, InWindow;
  }

  /** Once the snapshot is in, the two checks do the same work on the same records. */
  lemma SameWork(t: Trust, h: seq<Event>, subject: Subject, snapshot: SignedArtifact, now: int)
    requires Comparable(t, h, subject, snapshot, now) && Entered(t, h, snapshot, now)
    requires SubjectDigest(subject) !in Replay(t, h).value.rejected
    ensures Step(t, h, CheckReview(subject, snapshot, now)).1 == CallerListCheck(t, Replay(t, h).value, subject, snapshot, now)
  {
    hide ScopedReview, Refusal, StoredFor, Recheck, Preliminary, MarksKept, IdentitiesKept, ReviewsKept,
      RejectionsKept, RevocationsKept;
    var p, binding := Replay(t, h).value, SubjectDigest(subject);
    AdmittedArtifact(t, p, ArtifactEvent(now, snapshot, None));
    EnteredState(t, h, snapshot, now);
    RecheckFailsOnlyByLapse(t, h, snapshot, now, binding);
    LogInvariant(t, h);
    SnapshotStep(t, p, snapshot, now);
  }

  /** The durable check gives the caller-list answer, reason included, as long as no rejection of the
      subject was ever logged. */
  lemma DurableAgreesWithCallerList(t: Trust, h: seq<Event>, subject: Subject, snapshot: SignedArtifact, now: int)
    requires Comparable(t, h, subject, snapshot, now)
    requires snapshot.unsigned.kind == SnapshotKind && SubjectDigest(subject) !in Replay(t, h).value.rejected
    ensures Step(t, h, CheckReview(subject, snapshot, now)).1 == CallerListCheck(t, Replay(t, h).value, subject, snapshot, now)
  {
    hide Outcome, FinishReview, SignedReview;
    var p := Replay(t, h).value;
    LogInvariant(t, h);
    SnapshotStep(t, p, snapshot, now);
    if Admits(t, p, ArtifactEvent(now, snapshot, None)) {
      SameWork(t, h, subject, snapshot, now);
    } else {
      CallerRefusal(t, p, subject, snapshot, now);
    }
  }

  lemma CallerRefusal(t: Trust, p: PState, subject: Subject, snapshot: SignedArtifact, now: int)
    requires Refusal(t, p.verifier, snapshot, SnapshotKind, now, NO_HASH).Some?
    requires |StoredFor(p.reviews, p.order, SubjectDigest(subject))| <= BATCH_LIMIT
    ensures CallerListCheck(t, p, subject, snapshot, now) == Verdict(false, Refusal(t, p.verifier, snapshot, SnapshotKind, now, NO_HASH).value)
  {
    hide Refusal;
  }

  lemma ComparableCompletesIff(t: Trust, h: seq<Event>, subject: Subject, snapshot: SignedArtifact, now: int)
    requires Comparable(t, h, subject, snapshot, now)
    ensures var p, caller := Replay(t, h).value, CallerListCheck(t, Replay(t, h).value, subject, snapshot, now);
      var durable := Step(t, h, CheckReview(subject, snapshot, now)).1;
      && (durable.yes <==> caller.yes && SubjectDigest(subject) !in p.rejected)
      && (caller.yes && SubjectDigest(subject) in p.rejected ==> durable == Verdict(false, ReviewRejected))
  {
    hide Outcome, FinishReview, SignedReview, Judge, Step, StoredFor, Preliminary, MarksKept, IdentitiesKept,
      ReviewsKept, RevocationsKept;
    var p, binding := Replay(t, h).value, SubjectDigest(subject);
    LogInvariant(t, h);
    CallerKind(t, p, subject, snapshot, now);
    if snapshot.unsigned.kind != SnapshotKind {
      NotASnapshot(t, h, subject, snapshot, now);
    } else if binding !in p.rejected {
      DurableAgreesWithCallerList(t, h, subject, snapshot, now);
    } else {
      RejectedStep(t, h, subject, snapshot, now);
    }
  }

  /** What stops a durable check that the caller-list check would complete, in this order: a candidate package, a
      time before the last event, a full store, a rejection in the log. */
  ghost function Blocker(t: Trust, h: seq<Event>, subject: Subject, snapshot: SignedArtifact, now: int): Option<Reason>
    requires Replay(t, h).Some?
  {
    if subject.candidate.PackageCandidate? || subject.candidate.claimsPackageVersion then Some(UseCandidateReviewBoundary)
    else if now < Replay(t, h).value.now then Some(InvalidOrRolledBackClock)
    else if Full(h, ArtifactEvent(now, snapshot, None)) then Some(StoreUnavailableOrCorrupt)
    else if exists e :: e in h && IsRejection(e, SubjectDigest(subject)) then Some(ReviewRejected)
    else None
  }

  /** On every log the durable check completes exactly when the caller-list check completes and nothing stops it;
      what stops it is then its answer. A rejection that stops it alone has been superseded. */
  lemma DurableCompletesIff(t: Trust, h: seq<Event>, subject: Subject, snapshot: SignedArtifact, now: int)
    requires Replay(t, h).Some?
    ensures var p, caller := Replay(t, h).value, CallerListCheck(t, Replay(t, h).value, subject, snapshot, now);
      var durable, blocker := Step(t, h, CheckReview(subject, snapshot, now)).1, Blocker(t, h, subject, snapshot, now);
      && (durable.yes <==> caller.yes && blocker.None?)
      && (caller.yes && blocker.Some? ==> durable == Verdict(false, blocker.value))
      && (caller.yes ==> forall a | a in StoredFor(p.reviews, p.order, SubjectDigest(subject)) :: a.unsigned.payload.record.decision != Reject)
  {
    hide Outcome, FinishReview, SignedReview, Step, StoredFor, Preliminary, ScopedReview, MarksKept, IdentitiesKept,
      ReviewsKept,
      RevocationsKept, ClockKept, Full, LapseReason, Live, AllLive;
    var p, cmd := Replay(t, h).value, CheckReview(subject, snapshot, now);
    if CallerListCheck(t, p, subject, snapshot, now).yes {
      CompleteListHasNoRejection(t, p, subject, snapshot, now);
      CallerContract(t, p, subject, snapshot, now);
    }
    LogInvariant(t, h);
    CheckContract(t, cmd);
    if Preliminary(t, cmd).Some? {
      PreliminaryStops(t, cmd);
    } else if now < p.now {
      DurableClock(t, h, subject, snapshot, now);
    } else if Full(h, EventOf(cmd)) {
      FullStore(t, h, subject, snapshot, now);
    } else if |StoredFor(p.reviews, p.order, SubjectDigest(subject))| <= BATCH_LIMIT {
      ComparableCompletesIff(t, h, subject, snapshot, now);
    } else {
      LongListsFail(t, h, subject, snapshot, now);
    }
  }

  lemma CheckContract(t: Trust, cmd: Command)
    requires cmd.CheckReview?
    ensures ValidSubject(cmd.subject) ==>
      Preliminary(t, cmd) == if cmd.subject.candidate.PackageCandidate? || cmd.subject.candidate.claimsPackageVersion
                             then Some(UseCandidateReviewBoundary) else None
    ensures !ValidSubject(cmd.subject) ==> Preliminary(t, cmd).Some?
  {}

  lemma CallerContract(t: Trust, p: PState, subject: Subject, snapshot: SignedArtifact, now: int)
    requires CallerListCheck(t, p, subject, snapshot, now).yes
    ensures ValidSubject(subject) && |StoredFor(p.reviews, p.order, SubjectDigest(subject))| <= BATCH_LIMIT
    ensures Refusal(t, p.verifier, snapshot, SnapshotKind, now, NO_HASH).None?
  {
    hide Refusal, Recheck, StoredFor, ValidSubject, CheckSnapshot, ReleaseReview, AudienceMayRead;
  }

  /** A full store refuses a snapshot event it does not hold; a caller who keeps the records is not stopped. */
  lemma FullStore(t: Trust, h: seq<Event>, subject: Subject, snapshot: SignedArtifact, now: int)
    requires Replay(t, h).Some? && Preliminary(t, CheckReview(subject, snapshot, now)).None?
    requires Full(h, ArtifactEvent(now, snapshot, None)) && Replay(t, h).value.now <= now
    ensures !Step(t, h, CheckReview(subject, snapshot, now)).1.yes
    ensures CallerListCheck(t, Replay(t, h).value, subject, snapshot, now).yes ==>
      Step(t, h, CheckReview(subject, snapshot, now)).1 == UNAVAILABLE
  {
    hide Outcome, Finish, Step, Refusal, SignedReview, Preliminary, MarksKept, IdentitiesKept, ReviewsKept,
      RejectionsKept, RevocationsKept;
    var p := Replay(t, h).value;
    StepUnfolds(t, h, CheckReview(subject, snapshot, now));
    if CallerListCheck(t, p, subject, snapshot, now).yes {
      LogInvariant(t, h);
      CallerKind(t, p, subject, snapshot, now);
      SnapshotStep(t, p, snapshot, now);
    }
  }

  /** More than 256 stored records of one subject complete neither check. */
  lemma LongListsFail(t: Trust, h: seq<Event>, subject: Subject, snapshot: SignedArtifact, now: int)
    requires Replay(t, h).Some?
    requires |StoredFor(Replay(t, h).value.reviews, Replay(t, h).value.order, SubjectDigest(subject))| > BATCH_LIMIT
    ensures !Step(t, h, CheckReview(subject, snapshot, now)).1.yes
    ensures !CallerListCheck(t, Replay(t, h).value, subject, snapshot, now).yes
  {
    hide Step, StoredFor, Outcome, Recheck, AllLive, ReleaseReview, ValidRecord, ValidSubject, Refusal;
    if Step(t, h, CheckReview(subject, snapshot, now)).1.yes {
      CompletedCheck(t, h, CheckReview(subject, snapshot, now), subject, snapshot, now);
      EnteredState(t, h, snapshot, now);
    }
  }

  lemma CallerKind(t: Trust, p: PState, subject: Subject, snapshot: SignedArtifact, now: int)
    ensures CallerListCheck(t, p, subject, snapshot, now).yes ==>
      snapshot.unsigned.kind == SnapshotKind && Refusal(t, p.verifier, snapshot, SnapshotKind, now, NO_HASH).None?
  {
    hide ScopedReview, Recheck;
  }

  lemma NotASnapshot(t: Trust, h: seq<Event>, subject: Subject, snapshot: SignedArtifact, now: int)
    requires snapshot.unsigned.kind != SnapshotKind
    ensures !Step(t, h, CheckReview(subject, snapshot, now)).1.yes
  {
    hide Finish, Preliminary;
  }

  lemma RejectedFinish(t: Trust, p: PState, subject: Subject, snapshot: SignedArtifact, now: int)
    requires SubjectDigest(subject) in p.rejected
    ensures Finish(t, p, CheckReview(subject, snapshot, now)).1 == Done(Verdict(false, ReviewRejected))
  {
    hide Refusal, Judge, Recheck, StoredFor;
  }

  lemma RejectedStep(t: Trust, h: seq<Event>, subject: Subject, snapshot: SignedArtifact, now: int)
    requires Comparable(t, h, subject, snapshot, now) && snapshot.unsigned.kind == SnapshotKind
    requires SubjectDigest(subject) in Replay(t, h).value.rejected
    ensures !Step(t, h, CheckReview(subject, snapshot, now)).1.yes
    ensures Refusal(t, Replay(t, h).value.verifier, snapshot, SnapshotKind, now, NO_HASH).None? ==>
      Step(t, h, CheckReview(subject, snapshot, now)).1 == Verdict(false, ReviewRejected)
  {
    hide Step, Outcome, Finish, Refusal, Preliminary, MarksKept, IdentitiesKept, ReviewsKept, RejectionsKept,
      RevocationsKept,
      Verify, StoredFor, Full;
    LogInvariant(t, h);
    SnapshotStep(t, Replay(t, h).value, snapshot, now);
    if Entered(t, h, snapshot, now) {
      EnteredState(t, h, snapshot, now);
      RejectedFinish(t, StateAt(t, h, snapshot, now), subject, snapshot, now);
    }
    StepUnfolds(t, h, CheckReview(subject, snapshot, now));
  }

  lemma CompleteReviewHasNoRejection(subject: Subject, records: seq<ReviewRecord>, s: Snapshot, receipt: SnapshotReceipt)
    requires ScopedReview(subject, records, s, receipt).yes
    ensures forall r | r in records && r.subjectHash == SubjectDigest(subject) :: r.decision != Reject
  {
    hide ScopedReviewRefusal, Choose, UniqueContextIds, ReviewContext;
  }

  lemma CompleteListHasNoRejection(t: Trust, p: PState, subject: Subject, snapshot: SignedArtifact, now: int)
    requires CallerListCheck(t, p, subject, snapshot, now).yes
    ensures forall a | a in StoredFor(p.reviews, p.order, SubjectDigest(subject)) :: a.unsigned.payload.record.decision != Reject
  {
    hide Refusal, Recheck, StoredFor, ScopedReview;
    var stored := StoredFor(p.reviews, p.order, SubjectDigest(subject));
    var records := RecordsIn(stored);
    CompleteReviewHasNoRejection(subject, records, snapshot.unsigned.payload.snapshot, ReceiptFor(t, snapshot.unsigned.payload.snapshot, now));
    forall a | a in stored ensures a.unsigned.payload.record.decision != Reject {
      assert IsFor(a, SubjectDigest(subject));
      var i :| 0 <= i < |stored| && stored[i] == a;
      assert records[i] in records;
    }
  }

  // ---------- the clocks ----------

  /** Before the time of the last logged event the durable check always refuses. */
  lemma DurableClock(t: Trust, h: seq<Event>, subject: Subject, snapshot: SignedArtifact, now: int)
    requires Replay(t, h).Some? && Preliminary(t, CheckReview(subject, snapshot, now)).None? && now < Replay(t, h).value.now
    ensures Step(t, h, CheckReview(subject, snapshot, now)) == (h, Verdict(false, InvalidOrRolledBackClock))
  {}

  /** Two verifiers that differ only in having revoked a key nobody holds. */
  function WithRevoked(v: VState, keyId: string): VState {
    v.(revokedKeys := v.revokedKeys + {keyId})
  }

  lemma StrangerKeyIsInvisible(t: Trust, v: VState, keyId: string, a: SignedArtifact, kind: Kind, now: int, binding: Digest)
    requires keyId !in t.keys
    ensures Refusal(t, WithRevoked(v, keyId), a, kind, now, binding) == Refusal(t, v, a, kind, now, binding)
  {
    hide ValidEnvelope, PayloadOk;
  }

  lemma {:induction false} StrangerKeyRecheck(t: Trust, v: VState, keyId: string, records: seq<SignedArtifact>, binding: Digest, now: int)
    requires keyId !in t.keys
    ensures Recheck(t, WithRevoked(v, keyId), records, binding, now)
         == (WithRevoked(Recheck(t, v, records, binding, now).0, keyId), Recheck(t, v, records, binding, now).1)
  {
    hide Refusal;
    if records != [] {
      var front, a := records[..|records| - 1], records[|records| - 1];
      StrangerKeyRecheck(t, v, keyId, front, binding, now);
      StrangerKeyIsInvisible(t, Recheck(t, v, front, binding, now).0, keyId, a, ReviewKind, now, binding);
    }
  }

  /** A revocation moves the projection's clock but not the verifier's. Revoke, at a later time, a key nobody
      holds: at the old time the caller-list check still completes and the durable one refuses the clock. */
  lemma RevocationsMoveOnlyTheDurableClock(
      t: Trust, h: seq<Event>, subject: Subject, snapshot: SignedArtifact, now: int, keyId: string, later: int)
    requires Comparable(t, h, subject, snapshot, now) && Step(t, h, CheckReview(subject, snapshot, now)).1.yes
    requires keyId != "" && keyId !in t.keys && now < later && SafeInteger(later)
    ensures var g := h + [RevokeKeyEvent(later, keyId)];
      && Replay(t, g).Some?
      && CallerListCheck(t, Replay(t, g).value, subject, snapshot, now).yes
      && Step(t, g, CheckReview(subject, snapshot, now)) == (g, Verdict(false, InvalidOrRolledBackClock))
  {
    hide Step, ScopedReview, Refusal, Recheck, StoredFor;
    var p, e := Replay(t, h).value, RevokeKeyEvent(later, keyId);
    LogInvariant(t, h);
    ComparableCompletesIff(t, h, subject, snapshot, now);
    NowIsNatural(t, p, subject, snapshot, now);
    ReplayStep(t, h, e);
    var q := Replay(t, h + [e]).value;
    assert q.verifier == WithRevoked(p.verifier, keyId) && q.reviews == p.reviews && q.order == p.order && q.now == later;
    StrangerKeyIsInvisible(t, p.verifier, keyId, snapshot, SnapshotKind, now, NO_HASH);
    var stored := StoredFor(p.reviews, p.order, SubjectDigest(subject));
    StrangerKeyRecheck(t, Advance(p.verifier, snapshot.unsigned, now), keyId, stored, SubjectDigest(subject), now);
    assert Advance(q.verifier, snapshot.unsigned, now) == WithRevoked(Advance(p.verifier, snapshot.unsigned, now), keyId);
    DurableClock(t, h + [e], subject, snapshot, now);
  }

  lemma NowIsNatural(t: Trust, p: PState, subject: Subject, snapshot: SignedArtifact, now: int)
    requires CallerListCheck(t, p, subject, snapshot, now).yes
    ensures 0 <= now
  {
    hide ScopedReview, Recheck, ValidEnvelope, PayloadOk;
  }
}
