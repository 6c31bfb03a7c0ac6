/** Theorems over whole runs of commands. */
module DurableTheorems {
  import opened Collections
  import opened PolicyTypes
  import opened Verifier
  import opened Projections
  import opened LogTheorems
  import opened HistoryStore
  import opened Durable

  // ---------- the log over runs ----------

  /** A log as the store may hold it. */
  ghost predicate GoodLog(t: Trust, h: seq<Event>) {
    Replay(t, h).Some? && Distinct(h) && |h| <= CAPACITY
  }

  lemma StepKeepsLog(t: Trust, h: seq<Event>, cmd: Command)
    requires GoodLog(t, h)
    ensures GoodLog(t, Step(t, h, cmd).0)
    ensures Step(t, h, cmd).0 == h || Step(t, h, cmd).0 == h + [EventOf(cmd)]
    ensures EventOf(cmd) in h ==> Step(t, h, cmd).0 == h
  {
    hide Step, Outcome, Preliminary, Finish;
    ReplayStep(t, h, EventOf(cmd));
    if Preliminary(t, cmd).Some? { PreliminaryStops(t, cmd); } else { StepUnfolds(t, h, cmd); }
  }

  /** Over every run rebuilding never fails, the log only grows at its end, never repeats an event
      and never exceeds the capacity. */
  lemma {:induction false} RunKeepsLog(t: Trust, h: seq<Event>, cmds: seq<Command>)
    requires GoodLog(t, h)
    ensures GoodLog(t, Run(t, h, cmds).0) && h <= Run(t, h, cmds).0
    ensures |Run(t, h, cmds).1| == |cmds|
  {
    hide Step;
    if cmds != [] {
      RunKeepsLog(t, h, cmds[..|cmds| - 1]);
      StepKeepsLog(t, Run(t, h, cmds[..|cmds| - 1]).0, cmds[|cmds| - 1]);
    }
  }

  // ---------- verifying stored reviews again ----------

  /** Genuine, under its stream's mark and issued by now. */
  ghost predicate Fits(t: Trust, v: VState, a: SignedArtifact, binding: Digest, now: int) {
    && a.unsigned.kind == ReviewKind && Genuine(t, a, binding) && a.unsigned.issuedAt <= now
    && StreamOf(a.unsigned) in v.latest && v.latest[StreamOf(a.unsigned)] == Mark(a.unsigned.revision, EnvelopeDigest(a.unsigned))
  }

  ghost predicate Live(v: VState, a: SignedArtifact, now: int) {
    !Revoked(v, a.unsigned) && now < a.unsigned.expiresAt
  }

  ghost predicate AllLive(v: VState, artifacts: seq<SignedArtifact>, now: int) {
    forall a | a in artifacts :: Live(v, a, now)
  }

  predicate LapseReason(reason: Reason) {
    reason in {KeyRevoked, ArtifactRevoked, OutsideValidityWindow}
  }

  lemma FittingMeaning(t: Trust, v: VState, a: SignedArtifact, binding: Digest, now: int)
    requires Fits(t, v, a, binding, now) && ClockAdmits(v, now) && v.lastTime == now
    ensures var (v1, refusal) := Verify(t, v, a, ReviewKind, now, binding);
      && v1 == v && (refusal.None? <==> Live(v, a, now)) && (refusal.Some? ==> LapseReason(refusal.value))
  {
    hide Refusal, ValidEnvelope, PayloadOk;
    RecheckFailsOnlyByRevocationOrExpiry(t, v, a, now, binding);
  }

  lemma {:induction false} RecheckMeaning(t: Trust, v: VState, artifacts: seq<SignedArtifact>, binding: Digest, now: int)
    requires forall a | a in artifacts :: Fits(t, v, a, binding, now)
    requires ClockAdmits(v, now) && v.lastTime == now
    ensures var (v1, refusal) := Recheck(t, v, artifacts, binding, now);
      && v1 == v
      && (refusal.None? <==> AllLive(v, artifacts, now))
      && (refusal.Some? ==> LapseReason(refusal.value))
  {
    hide Verify, Fits, Live, LapseReason;
    if artifacts != [] {
      var front, a := artifacts[..|artifacts| - 1], artifacts[|artifacts| - 1];
      assert artifacts == front + [a];
      assert a in artifacts && Fits(t, v, a, binding, now);
      RecheckMeaning(t, v, front, binding, now);
      FittingMeaning(t, v, a, binding, now);
      assert AllLive(v, artifacts, now) <==> AllLive(v, front, now) && Live(v, a, now);
      assert Recheck(t, v, front, binding, now).1.None? ==> Recheck(t, v, artifacts, binding, now) == Verify(t, v, a, ReviewKind, now, binding);
      assert Recheck(t, v, front, binding, now).1.Some? ==> Recheck(t, v, artifacts, binding, now) == Recheck(t, v, front, binding, now);
    }
  }

  /** The state in which a check does its work: the log with the snapshot's event at its end. */
  ghost predicate Entered(t: Trust, h: seq<Event>, snapshot: SignedArtifact, now: int) {
    Replay(t, h).Some? && Admits(t, Replay(t, h).value, ArtifactEvent(now, snapshot, None))
  }

  ghost function StateAt(t: Trust, h: seq<Event>, snapshot: SignedArtifact, now: int): PState
    requires Entered(t, h, snapshot, now)
  {
    After(t, Replay(t, h).value, ArtifactEvent(now, snapshot, None))
  }

  lemma EnteredState(t: Trust, h: seq<Event>, snapshot: SignedArtifact, now: int)
    requires Entered(t, h, snapshot, now)
    ensures var p := StateAt(t, h, snapshot, now);
      && Kept(t, h + [ArtifactEvent(now, snapshot, None)], p)
      && p.verifier.lastTime == now && ClockAdmits(p.verifier, now)
      && p.rejected == Replay(t, h).value.rejected
      && p.verifier.revokedKeys == Replay(t, h).value.verifier.revokedKeys
      && p.verifier.revokedArtifacts == Replay(t, h).value.verifier.revokedArtifacts
      && p.reviews == Replay(t, h).value.reviews && p.order == Replay(t, h).value.order
    ensures snapshot.unsigned.kind == SnapshotKind && snapshot.unsigned.payload.SnapshotPayload?
    ensures Verify(t, StateAt(t, h, snapshot, now).verifier, snapshot, SnapshotKind, now, NO_HASH) == (StateAt(t, h, snapshot, now).verifier, None)
  {
    var e, p := ArtifactEvent(now, snapshot, None), Replay(t, h).value;
    var q := StateAt(t, h, snapshot, now);
    ReplayStep(t, h, e);
    LogInvariant(t, h + [e]);
    AdmittedArtifact(t, p, e);
    assert StreamOf(snapshot.unsigned) in q.verifier.latest;
    AcceptedIff(t, p.verifier, snapshot, SnapshotKind, now, NO_HASH);
    RecheckFailsOnlyByRevocationOrExpiry(t, q.verifier, snapshot, now, NO_HASH);
  }

  lemma StoredFits(t: Trust, h: seq<Event>, p: PState, binding: Digest, now: int)
    requires ReviewsKept(t, h, p) && p.verifier.lastTime == now
    ensures forall a | a in StoredFor(p.reviews, p.order, binding) :: Fits(t, p.verifier, a, binding, now)
  {
    hide Genuine, StoredFor;
    forall a | a in StoredFor(p.reviews, p.order, binding) ensures Fits(t, p.verifier, a, binding, now) {
      var id := StoredUnder(p.reviews, p.order, binding, a);
      assert Stored(t, h, p, id);
    }
  }

  lemma {:induction false} StoredUnder(reviews: map<string, SignedArtifact>, ids: seq<string>, binding: Digest, a: SignedArtifact) returns (id: string)
    requires a in StoredFor(reviews, ids, binding)
    ensures id in ids && id in reviews && reviews[id] == a && IsFor(a, binding)
  {
    var front, last := ids[..|ids| - 1], ids[|ids| - 1];
    if last in reviews && reviews[last] == a { return last; }
    id := StoredUnder(reviews, front, binding, a);
  }

  lemma {:induction false} StoredIsListed(reviews: map<string, SignedArtifact>, ids: seq<string>, binding: Digest, id: string)
    requires id in ids && id in reviews && IsFor(reviews[id], binding)
    ensures reviews[id] in StoredFor(reviews, ids, binding)
  {
    var front, last := ids[..|ids| - 1], ids[|ids| - 1];
    if id != last {
      assert id in front;
      StoredIsListed(reviews, front, binding, id);
    }
  }

  /** During a check a stored review can fail only because its key or artifact was revoked or its
      lifetime ended, and the second verification of the snapshot cannot fail; neither moves the state. */
  lemma RecheckFailsOnlyByLapse(t: Trust, h: seq<Event>, snapshot: SignedArtifact, now: int, binding: Digest)
    requires Entered(t, h, snapshot, now)
    ensures var p := StateAt(t, h, snapshot, now);
      var stored := StoredFor(p.reviews, p.order, binding);
      var (v, refusal) := Recheck(t, p.verifier, stored, binding, now);
      && v == p.verifier
      && (refusal.Some? ==> LapseReason(refusal.value))
      && (refusal.None? <==> AllLive(p.verifier, stored, now))
      && Verify(t, v, snapshot, SnapshotKind, now, NO_HASH) == (p.verifier, None)
  {
    hide Verify, Refusal;
    EnteredState(t, h, snapshot, now);
    var p := StateAt(t, h, snapshot, now);
    StoredFits(t, h + [ArtifactEvent(now, snapshot, None)], p, binding, now);
    RecheckMeaning(t, p.verifier, StoredFor(p.reviews, p.order, binding), binding, now);
  }

  /** So a review check comes down to this. */
  lemma FinishReviewMeaning(t: Trust, h: seq<Event>, subject: Subject, pkg: Option<Package>, snapshot: SignedArtifact, now: int)
    requires Entered(t, h, snapshot, now)
    ensures var p := StateAt(t, h, snapshot, now);
      var stored := StoredFor(p.reviews, p.order, SubjectDigest(subject));
      var (q, finished) := FinishReview(t, p, subject, pkg, snapshot, now);
      && q == p && snapshot.unsigned.payload.SnapshotPayload?
      && (SubjectDigest(subject) in p.rejected ==> finished == Done(Verdict(false, ReviewRejected)))
      && (SubjectDigest(subject) !in p.rejected && !AllLive(p.verifier, stored, now) ==>
            finished.Threw? && LapseReason(finished.reason))
      && (SubjectDigest(subject) !in p.rejected && AllLive(p.verifier, stored, now) ==>
            finished == Judge(subject, pkg, RecordsIn(stored), snapshot.unsigned.payload.snapshot,
                              ReceiptFor(t, snapshot.unsigned.payload.snapshot, now)))
  {
    hide FinishReview, Judge, Recheck, StoredFor, Verify, Refusal;
    RecheckFailsOnlyByLapse(t, h, snapshot, now, SubjectDigest(subject));
    EnteredState(t, h, snapshot, now);
    FinishWhenNothingMoves(t, StateAt(t, h, snapshot, now), subject, pkg, snapshot, now);
  }

  lemma FinishWhenNothingMoves(t: Trust, p: PState, subject: Subject, pkg: Option<Package>, snapshot: SignedArtifact, now: int)
    requires Recheck(t, p.verifier, StoredFor(p.reviews, p.order, SubjectDigest(subject)), SubjectDigest(subject), now).0 == p.verifier
    requires Verify(t, p.verifier, snapshot, SnapshotKind, now, NO_HASH) == (p.verifier, None)
    requires snapshot.unsigned.payload.SnapshotPayload?
    ensures var stored := StoredFor(p.reviews, p.order, SubjectDigest(subject));
      var refusal := Recheck(t, p.verifier, stored, SubjectDigest(subject), now).1;
      FinishReview(t, p, subject, pkg, snapshot, now) ==
        (p, if SubjectDigest(subject) in p.rejected then Done(Verdict(false, ReviewRejected))
            else if refusal.Some? then Threw(refusal.value)
            else Judge(subject, pkg, RecordsIn(stored), snapshot.unsigned.payload.snapshot,
                       ReceiptFor(t, snapshot.unsigned.payload.snapshot, now)))
  {
    hide Judge, Recheck, StoredFor, Refusal;
  }

  // ---------- one state carried forward ----------

  /** A server that keeps its projection in memory: refused commands have no effect, a repeated event is
      applied again, and the set of events seen so far only decides when the store is full. */
  datatype Carried = Carried(p: PState, seen: set<Event>)

  ghost function CarriedStep(t: Trust, c: Carried, cmd: Command): (Carried, Verdict) {
    if Preliminary(t, cmd).Some? then (c, Verdict(false, Preliminary(t, cmd).value)) else
    var e := EventOf(cmd);
    var (p1, refusal) := Outcome(t, c.p, e);
    if refusal.Some? then (c, Verdict(false, refusal.value))
    else if e !in c.seen && |c.seen| >= CAPACITY then (c, UNAVAILABLE)
    else match Finish(t, p1, cmd)
      case (_, Threw(reason)) => (c, Verdict(false, reason))
      case (p2, Done(verdict)) => (Carried(p2, c.seen + {e}), verdict)
  }

  ghost function CarriedRun(t: Trust, c: Carried, cmds: seq<Command>): (Carried, seq<Verdict>) {
    if cmds == [] then (c, []) else
    var (c1, verdicts) := CarriedRun(t, c, cmds[..|cmds| - 1]);
    var (c2, verdict) := CarriedStep(t, c1, cmds[|cmds| - 1]);
    (c2, verdicts + [verdict])
  }

  ghost predicate StoredGenuine(t: Trust, p: PState) {
    forall id | id in p.reviews ::
      p.reviews[id].unsigned.payload.ReviewPayload? && Genuine(t, p.reviews[id], p.reviews[id].unsigned.payload.record.subjectHash)
  }

  /** The carried state stands for the log: the same up to signatures. */
  ghost predicate Tracks(t: Trust, h: seq<Event>, c: Carried) {
    && GoodLog(t, h) && c.seen == ToSet(h)
    && Similar(c.p, Replay(t, h).value) && StoredGenuine(t, c.p)
  }

  /** The same reviews, possibly under other signatures. */
  ghost predicate SameContents(xs: seq<SignedArtifact>, ys: seq<SignedArtifact>) {
    |xs| == |ys| && forall i | 0 <= i < |xs| :: xs[i].unsigned == ys[i].unsigned
  }

  lemma {:induction false} SimilarStored(p: PState, q: PState, ids: seq<string>, binding: Digest)
    requires Similar(p, q)
    ensures SameContents(StoredFor(p.reviews, ids, binding), StoredFor(q.reviews, ids, binding))
  {
    if ids != [] {
      SimilarStored(p, q, ids[..|ids| - 1], binding);
      var id := ids[|ids| - 1];
      assert id in p.reviews <==> id in q.reviews;
    }
  }

  /** Signatures that both verify give the same answer. */
  lemma SameRefusal(t: Trust, v: VState, a: SignedArtifact, b: SignedArtifact, now: int, binding: Digest)
    requires a.unsigned == b.unsigned && Genuine(t, a, binding) && Genuine(t, b, binding)
    ensures Verify(t, v, a, ReviewKind, now, binding) == Verify(t, v, b, ReviewKind, now, binding)
  {
    hide PayloadOk;
  }

  lemma {:induction false} SameRecheck(t: Trust, v: VState, xs: seq<SignedArtifact>, ys: seq<SignedArtifact>, binding: Digest, now: int)
    requires SameContents(xs, ys)
    requires forall a | a in xs :: Genuine(t, a, binding)
    requires forall a | a in ys :: Genuine(t, a, binding)
    ensures Recheck(t, v, xs, binding, now) == Recheck(t, v, ys, binding, now)
  {
    hide Verify, ValidEnvelope, PayloadOk;
    if xs != [] {
      var n := |xs| - 1;
      SameRecheck(t, v, xs[..n], ys[..n], binding, now);
      assert xs[n] in xs && ys[n] in ys;
      SameRefusal(t, Recheck(t, v, xs[..n], binding, now).0, xs[n], ys[n], now, binding);
    }
  }

  lemma SimilarFinishReview(t: Trust, p: PState, q: PState, subject: Subject, pkg: Option<Package>, snapshot: SignedArtifact, now: int)
    requires Similar(p, q) && StoredGenuine(t, p) && StoredGenuine(t, q)
    ensures FinishReview(t, p, subject, pkg, snapshot, now).1 == FinishReview(t, q, subject, pkg, snapshot, now).1
    ensures FinishReview(t, q, subject, pkg, snapshot, now).0 == q ==> FinishReview(t, p, subject, pkg, snapshot, now).0 == p
  {
    hide Judge, Refusal, Recheck, StoredFor, Genuine, StoredGenuine;
    var binding := SubjectDigest(subject);
    var xs, ys := StoredFor(p.reviews, p.order, binding), StoredFor(q.reviews, q.order, binding);
    SimilarStored(p, q, p.order, binding);
    StoredGenuinely(t, p, binding);
    StoredGenuinely(t, q, binding);
    SameRecheck(t, p.verifier, xs, ys, binding, now);
    assert RecordsIn(xs) == RecordsIn(ys);
  }

  lemma StoredGenuinely(t: Trust, p: PState, binding: Digest)
    requires StoredGenuine(t, p)
    ensures forall a | a in StoredFor(p.reviews, p.order, binding) :: Genuine(t, a, binding)
  {
    forall a | a in StoredFor(p.reviews, p.order, binding) ensures Genuine(t, a, binding) {
      var id := StoredUnder(p.reviews, p.order, binding, a);
    }
  }

  lemma LogStoresGenuine(t: Trust, h: seq<Event>)
    requires Replay(t, h).Some?
    ensures StoredGenuine(t, Replay(t, h).value)
  {
    LogInvariant(t, h);
    var p := Replay(t, h).value;
    forall id | id in p.reviews
      ensures p.reviews[id].unsigned.payload.ReviewPayload? && Genuine(t, p.reviews[id], p.reviews[id].unsigned.payload.record.subjectHash)
    {
      assert Stored(t, h, p, id);
    }
  }

  lemma AdmissionKeepsGenuine(t: Trust, p: PState, e: Event)
    requires StoredGenuine(t, p) && Admits(t, p, e)
    ensures StoredGenuine(t, After(t, p, e))
  {
    if e.ArtifactEvent? { AdmittedArtifact(t, p, e); } else { AdmittedRevocation(t, p, e); }
  }

  /** After its event is admitted, the rest of a command answers alike on both sides and moves neither. */
  lemma FinishAlike(t: Trust, h: seq<Event>, c: Carried, cmd: Command)
    requires Tracks(t, h, c) && Admits(t, Replay(t, h).value, EventOf(cmd)) && Admits(t, c.p, EventOf(cmd))
    requires Similar(After(t, c.p, EventOf(cmd)), After(t, Replay(t, h).value, EventOf(cmd)))
    requires StoredGenuine(t, After(t, c.p, EventOf(cmd)))
    ensures Finish(t, After(t, c.p, EventOf(cmd)), cmd) == (After(t, c.p, EventOf(cmd)), Finish(t, After(t, Replay(t, h).value, EventOf(cmd)), cmd).1)
  {
    hide Refusal, Outcome, FinishReview;
    var e := EventOf(cmd);
    var p1, q1 := After(t, Replay(t, h).value, e), After(t, c.p, e);
    match cmd
    case AcceptEvent(_) =>
    case AcceptCandidate(_, _, _, _) =>
    case CheckAccess(_, snapshot, now) =>
      EnteredState(t, h, snapshot, now);
    case CheckReview(subject, snapshot, now) =>
      ReviewAlike(t, h, q1, subject, None, snapshot, now);
    case CheckCandidate(subject, _, snapshot, now) =>
      ReviewAlike(t, h, q1, subject, PackageOf(cmd), snapshot, now);
  }

  lemma ReviewAlike(t: Trust, h: seq<Event>, q: PState, subject: Subject, pkg: Option<Package>, snapshot: SignedArtifact, now: int)
    requires Entered(t, h, snapshot, now) && Similar(q, StateAt(t, h, snapshot, now)) && StoredGenuine(t, q)
    ensures FinishReview(t, q, subject, pkg, snapshot, now) == (q, FinishReview(t, StateAt(t, h, snapshot, now), subject, pkg, snapshot, now).1)
  {
    hide FinishReview, Outcome, Judge, Recheck;
    var p := StateAt(t, h, snapshot, now);
    ReplayStep(t, h, ArtifactEvent(now, snapshot, None));
    LogStoresGenuine(t, h + [ArtifactEvent(now, snapshot, None)]);
    FinishReviewMeaning(t, h, subject, pkg, snapshot, now);
    SimilarFinishReview(t, q, p, subject, pkg, snapshot, now);
  }

  lemma SimilarThrough(p: PState, q: PState, r: PState)
    requires Similar(p, q) && Similar(q, r)
    ensures Similar(p, r)
  {}

  /** An accepted event keeps the two in step, whether it is stored again or not. */
  lemma CommitTracks(t: Trust, h: seq<Event>, c: Carried, e: Event)
    requires Tracks(t, h, c) && Admits(t, Replay(t, h).value, e) && Admits(t, c.p, e) && !Full(h, e)
    ensures Tracks(t, Extended(h, e), Carried(After(t, c.p, e), c.seen + {e}))
  {
    hide Outcome, Similar, StoredGenuine, Replay;
    var p := Replay(t, h).value;
    SimilarStep(t, c.p, p, e);
    AdmissionKeepsGenuine(t, c.p, e);
    ReplayStep(t, h, e);
    if e in h {
      RepeatedEventChangesNothing(t, h, e);
      SimilarThrough(After(t, c.p, e), After(t, p, e), p);
    }
    assert ToSet(Extended(h, e)) == ToSet(h) + {e};
  }

  lemma StepTracks(t: Trust, h: seq<Event>, c: Carried, cmd: Command)
    requires Tracks(t, h, c)
    ensures Step(t, h, cmd).1 == CarriedStep(t, c, cmd).1
    ensures Tracks(t, Step(t, h, cmd).0, CarriedStep(t, c, cmd).0)
  {
    hide Outcome, Finish, Preliminary, Similar, StoredGenuine, Extended;
    var e, p := EventOf(cmd), Replay(t, h).value;
    ToSetSize(h);
    SimilarStep(t, c.p, p, e);
    if Preliminary(t, cmd).None? && Admits(t, p, e) && !Full(h, e) {
      AdmissionKeepsGenuine(t, c.p, e);
      FinishAlike(t, h, c, cmd);
      CommitTracks(t, h, c, e);
    }
  }

  /** Rebuilding from the log on every command, with restarts anywhere, answers every run exactly as one
      state carried forward does; that repeated events are not stored again cannot be observed. */
  lemma {:induction false} RebuildingIsCarryingForward(t: Trust, cmds: seq<Command>)
    ensures Run(t, [], cmds).1 == CarriedRun(t, Carried(EMPTY, {}), cmds).1
    ensures Tracks(t, Run(t, [], cmds).0, CarriedRun(t, Carried(EMPTY, {}), cmds).0)
  {
    hide Step, CarriedStep;
    if cmds == [] {
      assert Similar(EMPTY, EMPTY);
    } else {
      RebuildingIsCarryingForward(t, cmds[..|cmds| - 1]);
      StepTracks(t, Run(t, [], cmds[..|cmds| - 1]).0, CarriedRun(t, Carried(EMPTY, {}), cmds[..|cmds| - 1]).0, cmds[|cmds| - 1]);
    }
  }
}
