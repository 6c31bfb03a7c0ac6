/** The state rebuilt from the log on every operation (class Projection in
    scripts/review-policy/durable-boundary.ts) and what every log keeps true of it. */
module Projections {
  import opened Collections
  import opened PolicyTypes
  import opened Verifier

  /** A reviewer and the hash of the subject reviewed. */
  type Owner = (string, Digest)

  /** `order` is the insertion order of the map of reviews. */
  datatype PState = PState(
    verifier: VState, now: int, reviews: map<string, SignedArtifact>, order: seq<string>,
    rejected: set<Digest>, identities: map<Owner, string>, recordOwners: map<string, Owner>)

  const EMPTY := PState(FRESH, -1, map[], [], {}, map[], map[])

  const NO_HASH := Malformed("null")

  function OwnerOf(r: ReviewRecord): Owner { (r.reviewer, r.subjectHash) }

  predicate IdentityFree(p: PState, r: ReviewRecord) {
    && (OwnerOf(r) in p.identities ==> p.identities[OwnerOf(r)] == r.id)
    && (r.id in p.recordOwners ==> p.recordOwners[r.id] == OwnerOf(r))
  }

  function Remember(p: PState, a: SignedArtifact, r: ReviewRecord): PState {
    p.(identities := p.identities[OwnerOf(r) := r.id],
       recordOwners := p.recordOwners[r.id := OwnerOf(r)],
       reviews := p.reviews[r.id := a],
       order := if r.id in p.reviews then p.order else p.order + [r.id],
       rejected := if r.decision == Reject then p.rejected + {r.subjectHash} else p.rejected)
  }

  /** One event. A refused event can still have moved the verifier: the state is returned either way. */
  function Outcome(t: Trust, p: PState, e: Event): (PState, Option<Reason>) {
    if !SafeInteger(e.now) || e.now < 0 || e.now < p.now then (p, Some(InvalidOrRolledBackClock)) else
    match e
    case ArtifactEvent(now, a, subjectHash) =>
      if a.unsigned.kind == SnapshotKind then
        if subjectHash.Some? then (p, Some(InvalidHistoryEvent)) else
        var (v, refusal) := Verify(t, p.verifier, a, SnapshotKind, now, NO_HASH);
        if refusal.Some? then (p.(verifier := v), refusal) else (p.(verifier := v, now := now), None)
      else
        if subjectHash.None? || !subjectHash.value.WellFormed() then (p, Some(InvalidSubjectHash)) else
        var refusal := Refusal(t, p.verifier, a, ReviewKind, now, subjectHash.value);
        if refusal.Some? then (p, refusal) else
        var moved := p.(verifier := Advance(p.verifier, a.unsigned, now));
        var record := a.unsigned.payload.record;
        if !IdentityFree(p, record) then (moved, Some(ReviewIdentityConflict))
        else (Remember(moved, a, record).(now := now), None)
    case RevokeKeyEvent(now, keyId) =>
      if keyId == "" then (p, Some(InvalidHistoryEvent))
      else (p.(verifier := p.verifier.(revokedKeys := p.verifier.revokedKeys + {keyId}), now := now), None)
    case RevokeArtifactEvent(now, kind, artifactId) =>
      if artifactId == "" then (p, Some(InvalidHistoryEvent))
      else (p.(verifier := p.verifier.(revokedArtifacts := p.verifier.revokedArtifacts + {(kind, artifactId)}), now := now), None)
  }

  predicate Admits(t: Trust, p: PState, e: Event) { Outcome(t, p, e).1.None? }

  function After(t: Trust, p: PState, e: Event): PState { Outcome(t, p, e).0 }

  /** The state a log stands for; None when some event of the log is refused. */
  function Replay(t: Trust, h: seq<Event>): Option<PState> {
    if h == [] then Some(EMPTY) else
    match Replay(t, h[..|h| - 1])
    case None => None
    case Some(p) => if Admits(t, p, h[|h| - 1]) then Some(After(t, p, h[|h| - 1])) else None
  }

  lemma ReplayStep(t: Trust, h: seq<Event>, e: Event)
    requires Replay(t, h).Some?
    ensures Admits(t, Replay(t, h).value, e) ==> Replay(t, h + [e]) == Some(After(t, Replay(t, h).value, e))
    ensures !Admits(t, Replay(t, h).value, e) ==> Replay(t, h + [e]).None?
  {
    assert (h + [e])[..|h|] == h;
  }

  /** Every event of a log was admitted by the state before it. */
  lemma {:induction false} ReplayPrefix(t: Trust, h: seq<Event>, i: nat)
    requires Replay(t, h).Some? && i <= |h|
    ensures Replay(t, h[..i]).Some?
    ensures i < |h| ==> Admits(t, Replay(t, h[..i]).value, h[i]) && Replay(t, h[..i + 1]) == Some(After(t, Replay(t, h[..i]).value, h[i]))
    decreases |h|
  {
    if i == |h| {
      assert h[..i] == h;
    } else {
      if i == |h| - 1 {
        assert h[..i + 1] == h;
      } else {
        ReplayPrefix(t, h[..|h| - 1], i);
        assert h[..|h| - 1][..i] == h[..i] && h[..|h| - 1][..i + 1] == h[..i + 1];
      }
    }
  }

  // ---------- failure atomicity ----------

  /** The verifier accepts the review, but its reviewer and subject, or its id, belong to another record. */
  predicate FindsConflict(t: Trust, p: PState, e: Event) {
    && SafeInteger(e.now) && 0 <= e.now && p.now <= e.now
    && e.ArtifactEvent? && e.artifact.unsigned.kind == ReviewKind
    && e.subjectHash.Some? && e.subjectHash.value.WellFormed()
    && Refusal(t, p.verifier, e.artifact, ReviewKind, e.now, e.subjectHash.value).None?
    && !IdentityFree(p, e.artifact.unsigned.payload.record)
  }

  /** The artifact is the latest of its stream already and the verifier's clock stands at its time. */
  predicate KnownAt(v: VState, u: Unsigned, now: int) {
    v.lastTime == now && StreamOf(u) in v.latest && v.latest[StreamOf(u)] == Mark(u.revision, EnvelopeDigest(u))
  }

  /** A refused event leaves the state as it was, except that an identity conflict is found only after
      the verifier has advanced: then it does so only for what the verifier has seen last. */
  lemma RefusalIsAtomicIff(t: Trust, p: PState, e: Event)
    requires !Admits(t, p, e)
    ensures After(t, p, e) == p <==> (FindsConflict(t, p, e) ==> KnownAt(p.verifier, e.artifact.unsigned, e.now))
    ensures FindsConflict(t, p, e) <==> Outcome(t, p, e).1 == Some(ReviewIdentityConflict)
  {
    hide ValidEnvelope, PayloadOk, InWindow;
    if FindsConflict(t, p, e) {
      var u := e.artifact.unsigned;
      var v := Advance(p.verifier, u, e.now);
      assert After(t, p, e) == p.(verifier := v);
      assert v.latest[StreamOf(u)] == Mark(u.revision, EnvelopeDigest(u)) && v.lastTime == e.now;
      if KnownAt(p.verifier, u, e.now) { assert v.latest == p.verifier.latest; }
    }
  }

  // A log of one review, and a second review by the same reviewer on the same subject under another id.

  function ExampleTrust(w: World): Trust {
    var key := TrustedKey("ann-key", "team", "ann", "pem", [ReviewKind], 0, 100);
    Trust(w.(verifies := (pem, unsigned, signature) => true), "team", map["ann-key" := key])
  }

  function ExampleReview(id: string): Event {
    var subject := UnknownDigest("subject");
    var record := ReviewRecord(id, "ann", DomainReviewer, subject, Approve, true, true, true, 5, 50, false, None);
    var u := Unsigned(ReviewKind, "ann-key", "team", id, 1, 5, 50, ReviewPayload(record));
    ArtifactEvent(10, SignedArtifact(u, seq(86, _ => 'A') + "=="), Some(subject))
  }

  lemma ExampleIsAccepted(w: World, v: VState, id: string)
    requires 1 <= |id| <= 256 && v.lastTime <= 10 && v.revokedKeys == {} && v.revokedArtifacts == {} && RecordStream(id) !in v.latest
    ensures var e := ExampleReview(id);
      Refusal(ExampleTrust(w), v, e.artifact, ReviewKind, 10, e.subjectHash.value).None?
  {
    var signature := ExampleReview(id).artifact.signature;
    assert signature[86..] == "==" && forall i | 0 <= i < 86 :: signature[i] == 'A';
  }

  /** A refusal that is not atomic: the second review is refused, and the verifier has moved. */
  lemma RefusedReviewMovesTheVerifier(w: World)
    ensures var t, first, second := ExampleTrust(w), ExampleReview("a"), ExampleReview("b");
      && Replay(t, [first]).Some?
      && var p := Replay(t, [first]).value;
      && Outcome(t, p, second).1 == Some(ReviewIdentityConflict)
      && After(t, p, second) != p && RecordStream("b") in After(t, p, second).verifier.latest
  {
    hide ValidEnvelope, PayloadOk, InWindow, Refusal, Replay;
    var t, first, second := ExampleTrust(w), ExampleReview("a"), ExampleReview("b");
    ExampleIsAccepted(w, FRESH, "a");
    FirstOfLog(t, first);
    var p := After(t, EMPTY, first);
    ExampleIsAccepted(w, p.verifier, "b");
  }

  lemma FirstOfLog(t: Trust, e: Event)
    requires Admits(t, EMPTY, e)
    ensures Replay(t, [e]) == Some(After(t, EMPTY, e))
  {
    hide Outcome;
    assert [e][..0] == [];
  }

  /** What would happen if a projection outlived such a refusal: an artifact it would have accepted before is
      refused as a rollback afterwards. */
  lemma ConflictWouldBlockEarlierRevisions(t: Trust, p: PState, e: Event, a: SignedArtifact, now: int, subjectHash: Digest)
    requires Outcome(t, p, e).1 == Some(ReviewIdentityConflict) && e.now <= now
    requires StreamOf(a.unsigned) == StreamOf(e.artifact.unsigned) && a.unsigned.revision < e.artifact.unsigned.revision
    requires Refusal(t, p.verifier, a, ReviewKind, now, subjectHash).None?
    ensures Refusal(t, After(t, p, e).verifier, a, ReviewKind, now, subjectHash) == Some(RevisionRollback)
  {
    hide ValidEnvelope, PayloadOk, InWindow;
    assert After(t, p, e).verifier == Advance(p.verifier, e.artifact.unsigned, e.now);
  }

  // ---------- what every log keeps true ----------

  predicate IsReview(e: Event) {
    e.ArtifactEvent? && e.artifact.unsigned.kind == ReviewKind && e.artifact.unsigned.payload.ReviewPayload?
  }

  function RecordOf(e: Event): ReviewRecord
    requires IsReview(e)
  {
    e.artifact.unsigned.payload.record
  }

  predicate IsRejection(e: Event, subjectHash: Digest) {
    IsReview(e) && RecordOf(e).decision == Reject && RecordOf(e).subjectHash == subjectHash
  }

  function HashOf(e: Event): Digest
    requires e.ArtifactEvent?
  {
    if e.subjectHash.Some? then e.subjectHash.value else NO_HASH
  }

  ghost predicate ClockKept(h: seq<Event>, p: PState) {
    && p.verifier.lastTime <= p.now
    && (forall e | e in h :: 0 <= e.now <= p.now && SafeInteger(e.now))
    && (forall e | e in h && e.ArtifactEvent? :: e.now <= p.verifier.lastTime)
  }

  /** Every logged artifact is genuine and at or below its stream's mark, and at the mark it is the marked content. */
  ghost predicate Marked(v: VState, u: Unsigned) {
    && StreamOf(u) in v.latest
    && u.revision <= v.latest[StreamOf(u)].revision
    && (u.revision == v.latest[StreamOf(u)].revision ==> v.latest[StreamOf(u)].digest == EnvelopeDigest(u))
  }

  ghost predicate MarksKept(t: Trust, h: seq<Event>, p: PState) {
    forall e | e in h && e.ArtifactEvent? ::
      && Marked(p.verifier, e.artifact.unsigned)
      && Genuine(t, e.artifact, HashOf(e))
      && e.artifact.unsigned.issuedAt <= e.now
      && (e.artifact.unsigned.kind == ReviewKind ==> IsReview(e))
  }

  /** The two identity maps are inverse to each other and know every logged review. */
  ghost predicate IdentitiesKept(h: seq<Event>, p: PState) {
    && (forall o | o in p.identities :: p.identities[o] in p.recordOwners && p.recordOwners[p.identities[o]] == o)
    && (forall id | id in p.recordOwners :: p.recordOwners[id] in p.identities && p.identities[p.recordOwners[id]] == id)
    && (forall e | e in h && IsReview(e) ::
          OwnerOf(RecordOf(e)) in p.identities && p.identities[OwnerOf(RecordOf(e))] == RecordOf(e).id)
  }

  /** Each stored review is a logged one and the newest of its stream. */
  ghost predicate Stored(t: Trust, h: seq<Event>, p: PState, id: string) {
    && id in p.reviews
    && var a := p.reviews[id];
    && (exists e :: e in h && IsReview(e) && e.artifact == a)
    && Genuine(t, a, a.unsigned.payload.record.subjectHash)
    && a.unsigned.artifactId == id && a.unsigned.payload.record.id == id
    && a.unsigned.issuedAt <= p.verifier.lastTime
    && RecordStream(id) in p.verifier.latest
    && p.verifier.latest[RecordStream(id)] == Mark(a.unsigned.revision, EnvelopeDigest(a.unsigned))
    && id in p.recordOwners && p.recordOwners[id] == OwnerOf(a.unsigned.payload.record)
  }

  ghost predicate Ordered(p: PState) {
    && (forall id :: id in p.order <==> id in p.reviews)
    && Distinct(p.order)
  }

  ghost predicate ReviewsKept(t: Trust, h: seq<Event>, p: PState) {
    && (forall id | id in p.reviews :: Stored(t, h, p, id))
    && Ordered(p)
    && (forall e | e in h && IsReview(e) :: RecordOf(e).id in p.reviews)
  }

  ghost predicate RejectionsKept(h: seq<Event>, p: PState) {
    forall d :: d in p.rejected <==> exists e :: e in h && IsRejection(e, d)
  }

  ghost predicate RevocationsKept(h: seq<Event>, p: PState) {
    && (forall k :: k in p.verifier.revokedKeys <==> exists e :: e in h && e.RevokeKeyEvent? && e.keyId == k)
    && (forall x :: x in p.verifier.revokedArtifacts <==> exists e :: e in h && e.RevokeArtifactEvent? && (e.kind, e.artifactId) == x)
  }

  ghost predicate Kept(t: Trust, h: seq<Event>, p: PState) {
    && ClockKept(h, p) && MarksKept(t, h, p) && IdentitiesKept(h, p)
    && ReviewsKept(t, h, p) && RejectionsKept(h, p) && RevocationsKept(h, p)
  }

  lemma {:induction false} LogInvariant(t: Trust, h: seq<Event>)
    requires Replay(t, h).Some?
    ensures Kept(t, h, Replay(t, h).value)
  {
    if h != [] {
      var front, e := h[..|h| - 1], h[|h| - 1];
      LogInvariant(t, front);
      var p := Replay(t, front).value;
      assert h == front + [e];
      KeepClock(t, front, p, e);
      KeepMarks(t, front, p, e);
      KeepIdentities(t, front, p, e);
      KeepReviews(t, front, p, e);
      KeepRejections(t, front, p, e);
      KeepRevocations(t, front, p, e);
    }
  }

  lemma KeepClock(t: Trust, h: seq<Event>, p: PState, e: Event)
    requires ClockKept(h, p) && Admits(t, p, e)
    ensures ClockKept(h + [e], After(t, p, e))
  {
    assert forall x :: x in h + [e] <==> x in h || x == e;
  }

  lemma KeepMarks(t: Trust, h: seq<Event>, p: PState, e: Event)
    requires MarksKept(t, h, p) && Admits(t, p, e)
    ensures MarksKept(t, h + [e], After(t, p, e))
  {
    var q := After(t, p, e);
    forall x | x in h + [e] && x.ArtifactEvent?
      ensures Marked(q.verifier, x.artifact.unsigned)
      ensures Genuine(t, x.artifact, HashOf(x)) && x.artifact.unsigned.issuedAt <= x.now
      ensures x.artifact.unsigned.kind == ReviewKind ==> IsReview(x)
    {
      if e.ArtifactEvent? {
        AdmittedArtifact(t, p, e);
      }
    }
  }

  /** What it takes for an artifact to enter the log, and what it changes in the verifier. */
  lemma AdmittedArtifact(t: Trust, p: PState, e: Event)
    requires e.ArtifactEvent? && Admits(t, p, e)
    ensures Genuine(t, e.artifact, HashOf(e)) && !Revoked(p.verifier, e.artifact.unsigned)
    ensures RevisionAdmits(p.verifier, e.artifact.unsigned) && e.artifact.unsigned.issuedAt <= e.now < e.artifact.unsigned.expiresAt
    ensures p.now <= e.now && 0 <= e.now && SafeInteger(e.now)
    ensures After(t, p, e).verifier == Advance(p.verifier, e.artifact.unsigned, e.now)
    ensures e.artifact.unsigned.kind == ReviewKind ==>
      IsReview(e) && HashOf(e) == RecordOf(e).subjectHash && IdentityFree(p, RecordOf(e))
      && RecordOf(e).id == e.artifact.unsigned.artifactId
      && After(t, p, e) == Remember(p, e.artifact, RecordOf(e)).(verifier := Advance(p.verifier, e.artifact.unsigned, e.now), now := e.now)
    ensures e.artifact.unsigned.kind == SnapshotKind ==>
      e.subjectHash.None? && After(t, p, e) == p.(verifier := Advance(p.verifier, e.artifact.unsigned, e.now), now := e.now)
  {
    AcceptedIff(t, p.verifier, e.artifact, e.artifact.unsigned.kind, e.now, HashOf(e));
  }

  /** On every state a revocation needs a time that is a safe integer and does not run back, and an id; then
      the key, or the artifact of this kind, is revoked from there on, and nothing else changes but the clock. */
  lemma RevocationAdmittedIff(t: Trust, p: PState, e: Event)
    requires !e.ArtifactEvent?
    ensures Admits(t, p, e) <==>
      && 0 <= e.now <= 9007199254740991 && p.now <= e.now
      && match e { case RevokeKeyEvent(_, keyId) => keyId != "" case RevokeArtifactEvent(_, _, artifactId) => artifactId != "" case _ => false }
    ensures Admits(t, p, e) ==>
      var v := p.verifier;
      After(t, p, e) == p.(now := e.now, verifier :=
        match e
        case RevokeKeyEvent(_, keyId) => v.(revokedKeys := v.revokedKeys + {keyId})
        case RevokeArtifactEvent(_, kind, artifactId) => v.(revokedArtifacts := v.revokedArtifacts + {(kind, artifactId)})
        case _ => v)
  {}

  /** A revocation touches nothing but the revocation sets and the clock. */
  lemma AdmittedRevocation(t: Trust, p: PState, e: Event)
    requires !e.ArtifactEvent? && Admits(t, p, e)
    ensures var q := After(t, p, e);
      q == p.(now := e.now, verifier := p.verifier.(revokedKeys := q.verifier.revokedKeys, revokedArtifacts := q.verifier.revokedArtifacts))
    ensures p.now <= e.now
  {}

  lemma KeepIdentities(t: Trust, h: seq<Event>, p: PState, e: Event)
    requires IdentitiesKept(h, p) && Admits(t, p, e)
    ensures IdentitiesKept(h + [e], After(t, p, e))
  {
    if e.ArtifactEvent? { AdmittedArtifact(t, p, e); } else { AdmittedRevocation(t, p, e); }
  }

  lemma KeepStored(t: Trust, h: seq<Event>, p: PState, e: Event, q: PState, id: string)
    requires Stored(t, h, p, id)
    requires id in q.reviews && q.reviews[id] == p.reviews[id] && p.verifier.lastTime <= q.verifier.lastTime
    requires RecordStream(id) in q.verifier.latest && q.verifier.latest[RecordStream(id)] == p.verifier.latest[RecordStream(id)]
    requires id in q.recordOwners && q.recordOwners[id] == p.recordOwners[id]
    ensures Stored(t, h + [e], q, id)
  {
    var x :| x in h && IsReview(x) && x.artifact == p.reviews[id];
    assert x in h + [e];
  }

  lemma KeepReviews(t: Trust, h: seq<Event>, p: PState, e: Event)
    requires ReviewsKept(t, h, p) && ClockKept(h, p) && Admits(t, p, e)
    ensures ReviewsKept(t, h + [e], After(t, p, e))
  {
    if IsReview(e) {
      KeepReviewsWithNew(t, h, p, e);
    } else {
      var q := After(t, p, e);
      if e.ArtifactEvent? { AdmittedArtifact(t, p, e); } else { AdmittedRevocation(t, p, e); }
      forall id | id in q.reviews ensures Stored(t, h + [e], q, id) {
        KeepStored(t, h, p, e, q, id);
      }
      assert forall x | x in h + [e] && IsReview(x) :: x in h;
    }
  }

  lemma StoreNew(t: Trust, h: seq<Event>, p: PState, e: Event)
    requires Admits(t, p, e) && IsReview(e)
    ensures Stored(t, h + [e], After(t, p, e), RecordOf(e).id)
  {
    AdmittedArtifact(t, p, e);
    assert e in h + [e];
  }

  lemma OrderNew(t: Trust, p: PState, e: Event)
    requires Ordered(p) && Admits(t, p, e) && IsReview(e)
    ensures Ordered(After(t, p, e))
  {
    AdmittedArtifact(t, p, e);
    var q, id := After(t, p, e), RecordOf(e).id;
    assert q.order == if id in p.reviews then p.order else p.order + [id];
  }

  lemma KeepReviewsWithNew(t: Trust, h: seq<Event>, p: PState, e: Event)
    requires ReviewsKept(t, h, p) && ClockKept(h, p) && Admits(t, p, e) && IsReview(e)
    ensures ReviewsKept(t, h + [e], After(t, p, e))
  {
    hide Stored, Ordered, Genuine, Refusal, Outcome;
    var q, id := After(t, p, e), RecordOf(e).id;
    StoreNew(t, h, p, e);
    OrderNew(t, p, e);
    forall x | x in q.reviews && x != id ensures Stored(t, h + [e], q, x) {
      KeepOther(t, h, p, e, x);
    }
    forall x | x in h + [e] && IsReview(x) ensures RecordOf(x).id in q.reviews {
      AdmittedArtifact(t, p, e);
    }
  }

  lemma KeepOther(t: Trust, h: seq<Event>, p: PState, e: Event, id: string)
    requires ClockKept(h, p) && Admits(t, p, e) && IsReview(e) && id != RecordOf(e).id
    requires id in After(t, p, e).reviews && (id in p.reviews ==> Stored(t, h, p, id))
    ensures Stored(t, h + [e], After(t, p, e), id)
  {
    AdmittedArtifact(t, p, e);
    KeepStored(t, h, p, e, After(t, p, e), id);
  }

  lemma KeepRejections(t: Trust, h: seq<Event>, p: PState, e: Event)
    requires RejectionsKept(h, p) && Admits(t, p, e)
    ensures RejectionsKept(h + [e], After(t, p, e))
  {
    var q := After(t, p, e);
    if e.ArtifactEvent? { AdmittedArtifact(t, p, e); } else { AdmittedRevocation(t, p, e); }
    forall d ensures d in q.rejected <==> exists x :: x in h + [e] && IsRejection(x, d) {
      if d in p.rejected {
        var x :| x in h && IsRejection(x, d);
        assert x in h + [e];
      }
      if IsRejection(e, d) { assert e in h + [e]; }
    }
  }

  lemma KeepRevocations(t: Trust, h: seq<Event>, p: PState, e: Event)
    requires RevocationsKept(h, p) && Admits(t, p, e)
    ensures RevocationsKept(h + [e], After(t, p, e))
  {
    var q := After(t, p, e);
    if e.ArtifactEvent? { AdmittedArtifact(t, p, e); }
    forall k ensures k in q.verifier.revokedKeys <==> exists x :: x in h + [e] && x.RevokeKeyEvent? && x.keyId == k {
      if k in p.verifier.revokedKeys {
        var x :| x in h && x.RevokeKeyEvent? && x.keyId == k;
        assert x in h + [e];
      }
      if e.RevokeKeyEvent? && e.keyId == k { assert e in h + [e]; }
    }
    forall a ensures a in q.verifier.revokedArtifacts <==> exists x :: x in h + [e] && x.RevokeArtifactEvent? && (x.kind, x.artifactId) == a {
      if a in p.verifier.revokedArtifacts {
        var x :| x in h && x.RevokeArtifactEvent? && (x.kind, x.artifactId) == a;
        assert x in h + [e];
      }
      if e.RevokeArtifactEvent? && (e.kind, e.artifactId) == a { assert e in h + [e]; }
    }
  }

  // ---------- the object ----------

  class Projection {
    const trust: Trust
    const verifier: InMemoryPolicyVerifier
    var now: int
    var reviews: map<string, SignedArtifact>
    var order: seq<string>
    var rejected: set<Digest>
    var identities: map<Owner, string>
    var recordOwners: map<string, Owner>

    ghost predicate Valid() { verifier.trust == trust }

    function State(): PState
      reads this, verifier
    {
      PState(verifier.State(), now, reviews, order, rejected, identities, recordOwners)
    }

    constructor (trust: Trust)
      ensures this.trust == trust && Valid() && fresh(verifier) && State() == EMPTY
    {
      this.trust := trust;
      verifier := new InMemoryPolicyVerifier(trust);
      now, reviews, order, rejected, identities, recordOwners := -1, map[], [], {}, map[], map[];
    }

    method Apply(e: Event) returns (refusal: Option<Reason>)
      requires Valid()
      modifies this, verifier
      ensures (State(), refusal) == Outcome(trust, old(State()), e)
    {
      if !SafeInteger(e.now) || e.now < 0 || e.now < now { return Some(InvalidOrRolledBackClock); }
      match e {
        case ArtifactEvent(at, a, subjectHash) =>
          if a.unsigned.kind == SnapshotKind {
            if subjectHash.Some? { return Some(InvalidHistoryEvent); }
            refusal := verifier.Check(a, SnapshotKind, at, NO_HASH);
            if refusal.Some? { return; }
          } else {
            refusal := ApplyReview(e, a, subjectHash);
            if refusal.Some? { return; }
          }
        case RevokeKeyEvent(at, keyId) =>
          if keyId == "" { return Some(InvalidHistoryEvent); }
          verifier.RevokeKey(keyId);
        case RevokeArtifactEvent(at, kind, artifactId) =>
          if artifactId == "" { return Some(InvalidHistoryEvent); }
          verifier.RevokeArtifact(kind, artifactId);
      }
      now := e.now;
      return None;
    }

    /** The review branch, up to the clock. */
    method ApplyReview(e: Event, a: SignedArtifact, subjectHash: Option<Digest>) returns (refusal: Option<Reason>)
      requires Valid() && e == ArtifactEvent(e.now, a, subjectHash) && a.unsigned.kind == ReviewKind
      requires SafeInteger(e.now) && 0 <= e.now && now <= e.now
      modifies this, verifier
      ensures now == old(now)
      ensures refusal == Outcome(trust, old(State()), e).1
      ensures refusal.Some? ==> State() == Outcome(trust, old(State()), e).0
      ensures refusal.None? ==> State().(now := e.now) == Outcome(trust, old(State()), e).0
    {
      if subjectHash.None? || !subjectHash.value.WellFormed() { return Some(InvalidSubjectHash); }
      refusal := verifier.Check(a, ReviewKind, e.now, subjectHash.value);
      if refusal.Some? { return; }
      var record := a.unsigned.payload.record;
      var owner := (record.reviewer, record.subjectHash);
      if owner in identities && identities[owner] != record.id { return Some(ReviewIdentityConflict); }
      if record.id in recordOwners && recordOwners[record.id] != owner { return Some(ReviewIdentityConflict); }
      identities := identities[owner := record.id];
      recordOwners := recordOwners[record.id := owner];
      order := if record.id in reviews then order else order + [record.id];
      reviews := reviews[record.id := a];
      if record.decision == Reject { rejected := rejected + {record.subjectHash}; }
    }
  }
}
