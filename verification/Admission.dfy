/** Which events a log admits, and which logs replay, said about the log alone: no projection, no verifier
    state and no order of checks enters. */
module Admission {
  import opened Collections
  import opened PolicyTypes
  import opened Verifier
  import opened Projections
  import opened LogTheorems

  ghost predicate Unrevoked(h: seq<Event>, u: Unsigned) {
    && (forall x | x in h && x.RevokeKeyEvent? :: x.keyId != u.keyId)
    && (forall x | x in h && x.RevokeArtifactEvent? && x.kind == u.kind :: x.artifactId != u.artifactId)
  }

  /** Everything logged on the artifact's stream has a lower revision or is the same content. */
  ghost predicate RevisionNext(h: seq<Event>, u: Unsigned) {
    forall x | x in h && x.ArtifactEvent? && SameStream(x.artifact.unsigned, u) ::
      x.artifact.unsigned.revision < u.revision || x.artifact.unsigned == u
  }

  /** With the reviews of the log: one record id per reviewer and subject, one reviewer and subject per record id. */
  ghost predicate OneIdentity(h: seq<Event>, r: ReviewRecord) {
    forall x | x in h && IsReview(x) ::
      RecordOf(x).id == r.id <==> RecordOf(x).reviewer == r.reviewer && RecordOf(x).subjectHash == r.subjectHash
  }

  ghost predicate AdmissibleArtifact(t: Trust, h: seq<Event>, now: int, a: SignedArtifact, subjectHash: Option<Digest>) {
    var u := a.unsigned;
    && (subjectHash.None? <==> u.kind == SnapshotKind)
    && Genuine(t, a, if subjectHash.Some? then subjectHash.value else NO_HASH)
    && u.issuedAt <= now < u.expiresAt
    && Unrevoked(h, u) && RevisionNext(h, u)
    && (u.kind == ReviewKind ==> OneIdentity(h, u.payload.record))
  }

  /** Not before anything logged; a revocation names something; an artifact is genuine, current, unrevoked, next on
      its stream, and a review keeps to the identity of its reviewer and subject. */
  ghost predicate Admissible(t: Trust, h: seq<Event>, e: Event) {
    && 0 <= e.now <= 9007199254740991 && (forall x | x in h :: x.now <= e.now)
    && match e
       case RevokeKeyEvent(_, keyId) => keyId != ""
       case RevokeArtifactEvent(_, _, artifactId) => artifactId != ""
       case ArtifactEvent(now, a, subjectHash) => AdmissibleArtifact(t, h, now, a, subjectHash)
  }

  // ---------- the state against the log ----------

  lemma ClockMeaning(t: Trust, h: seq<Event>, now: int)
    requires Replay(t, h).Some? && 0 <= now
    ensures Replay(t, h).value.now <= now <==> forall x | x in h :: x.now <= now
    ensures Replay(t, h).value.verifier.lastTime <= Replay(t, h).value.now
  {
    LogInvariant(t, h);
    if h != [] {
      LastTimeIsNow(t, h);
      assert h[|h| - 1] in h;
    }
  }

  lemma RevocationMeaning(t: Trust, h: seq<Event>, u: Unsigned)
    requires Replay(t, h).Some?
    ensures Revoked(Replay(t, h).value.verifier, u) <==> !Unrevoked(h, u)
  {
    LogInvariant(t, h);
    if x :| x in h && x.RevokeKeyEvent? && x.keyId == u.keyId {
      assert u.keyId in Replay(t, h).value.verifier.revokedKeys;
    }
    if x :| x in h && x.RevokeArtifactEvent? && x.kind == u.kind && x.artifactId == u.artifactId {
      assert (x.kind, x.artifactId) == (u.kind, u.artifactId);
      assert (u.kind, u.artifactId) in Replay(t, h).value.verifier.revokedArtifacts;
    }
  }

  lemma RevisionMeaning(t: Trust, h: seq<Event>, u: Unsigned)
    requires Replay(t, h).Some?
    ensures RevisionAdmits(Replay(t, h).value.verifier, u) <==> RevisionNext(h, u)
  {
    hide Replay, Genuine, ClockKept, IdentitiesKept, ReviewsKept, RejectionsKept, RevocationsKept, OwnerIsLogged;
    LogInvariant(t, h);
    EverythingIsLogged(t, h);
    var v := Replay(t, h).value.verifier;
    forall x | x in h && x.ArtifactEvent? && SameStream(x.artifact.unsigned, u)
      ensures Marked(v, x.artifact.unsigned) && StreamOf(x.artifact.unsigned) == StreamOf(u)
    {
      assert Marked(v, x.artifact.unsigned);
    }
    if StreamOf(u) in v.latest {
      assert MarkIsLogged(h, Replay(t, h).value, StreamOf(u));
      var x :| x in h && x.ArtifactEvent? && Marks(x.artifact.unsigned, StreamOf(u), v.latest[StreamOf(u)]);
      assert SameStream(x.artifact.unsigned, u);
    }
  }

  lemma IdentityMeaning(t: Trust, h: seq<Event>, r: ReviewRecord)
    requires Replay(t, h).Some?
    ensures IdentityFree(Replay(t, h).value, r) <==> OneIdentity(h, r)
  {
    hide Replay, ClockKept, MarksKept, ReviewsKept, RejectionsKept, RevocationsKept, MarkIsLogged;
    LogInvariant(t, h);
    EverythingIsLogged(t, h);
    var p := Replay(t, h).value;
    if OneIdentity(h, r) {
      if OwnerOf(r) in p.identities { assert OwnerIsLogged(h, p, OwnerOf(r)); }
      if r.id in p.recordOwners { assert OwnerIsLogged(h, p, p.recordOwners[r.id]); }
    }
    if IdentityFree(p, r) {
      forall x | x in h && IsReview(x)
        ensures RecordOf(x).id == r.id <==> RecordOf(x).reviewer == r.reviewer && RecordOf(x).subjectHash == r.subjectHash
      {
        assert p.recordOwners[p.identities[OwnerOf(RecordOf(x))]] == OwnerOf(RecordOf(x));
      }
    }
  }

  lemma ArtifactMeaning(t: Trust, p: PState, now: int, a: SignedArtifact, subjectHash: Option<Digest>)
    requires ClockAdmits(p.verifier, now) && p.now <= now
    ensures Admits(t, p, ArtifactEvent(now, a, subjectHash)) <==>
      && (subjectHash.None? <==> a.unsigned.kind == SnapshotKind)
      && Genuine(t, a, if subjectHash.Some? then subjectHash.value else NO_HASH)
      && a.unsigned.issuedAt <= now < a.unsigned.expiresAt
      && !Revoked(p.verifier, a.unsigned) && RevisionAdmits(p.verifier, a.unsigned)
      && (a.unsigned.kind == ReviewKind ==> IdentityFree(p, a.unsigned.payload.record))
  {
    hide Genuine, Revoked, RevisionAdmits, Refusal;
    var binding := if subjectHash.Some? then subjectHash.value else NO_HASH;
    AcceptedIff(t, p.verifier, a, a.unsigned.kind, now, binding);
    if a.unsigned.kind == ReviewKind && Genuine(t, a, binding) { GenuineReviewIsBound(t, a, binding); }
  }

  lemma GenuineReviewIsBound(t: Trust, a: SignedArtifact, binding: Digest)
    requires a.unsigned.kind == ReviewKind && Genuine(t, a, binding)
    ensures binding.WellFormed() && a.unsigned.payload.ReviewPayload?
  {}

  /** What a replayable log admits next. */
  lemma AdmittedIff(t: Trust, h: seq<Event>, e: Event)
    requires Replay(t, h).Some?
    ensures Admits(t, Replay(t, h).value, e) <==> Admissible(t, h, e)
  {
    hide Replay, Genuine, Unrevoked, RevisionNext, OneIdentity, Revoked, RevisionAdmits, IdentityFree;
    var p := Replay(t, h).value;
    if 0 <= e.now { ClockMeaning(t, h, e.now); }
    if !e.ArtifactEvent? {
      RevocationAdmittedIff(t, p, e);
    } else if 0 <= e.now <= 9007199254740991 && p.now <= e.now {
      ArtifactMeaning(t, p, e.now, e.artifact, e.subjectHash);
      RevocationMeaning(t, h, e.artifact.unsigned);
      RevisionMeaning(t, h, e.artifact.unsigned);
      if e.artifact.unsigned.kind == ReviewKind && Genuine(t, e.artifact, HashOf(e)) {
        GenuineReviewIsBound(t, e.artifact, HashOf(e));
        IdentityMeaning(t, h, e.artifact.unsigned.payload.record);
      }
    }
  }

  /** A log replays exactly when each of its events was admissible after those before it. */
  lemma {:induction false} ReplaysIff(t: Trust, h: seq<Event>)
    ensures Replay(t, h).Some? <==> forall i | 0 <= i < |h| :: Admissible(t, h[..i], h[i])
  {
    hide Admissible, Outcome;
    if h != [] {
      var n := |h| - 1;
      var front := h[..n];
      ReplaysIff(t, front);
      assert forall i | 0 <= i < n :: front[..i] == h[..i] && front[i] == h[i];
      if Replay(t, front).Some? { AdmittedIff(t, front, h[n]); }
    }
  }

  /** Every logged artifact is signed with a pinned key whose purposes include its kind. */
  lemma LoggedKeysMaySign(t: Trust, h: seq<Event>, e: Event)
    requires Replay(t, h).Some? && e in h && e.ArtifactEvent?
    ensures var u := e.artifact.unsigned;
      && u.keyId in t.keys && u.organization == t.organization
      && (u.payload.SnapshotPayload? ==> SnapshotKind in t.keys[u.keyId].purposes)
      && (u.payload.ReviewPayload? ==> ReviewKind in t.keys[u.keyId].purposes && t.keys[u.keyId].principal == u.payload.record.reviewer)
  {
    LogInvariant(t, h);
    assert Genuine(t, e.artifact, HashOf(e));
  }
}
