/** What holds of every log that replays: streams, times, identities, revocations, rejections,
    and why skipping a repeated event cannot be noticed. */
module LogTheorems {
  import opened Collections
  import opened PolicyTypes
  import opened Verifier
  import opened Projections

  // ---------- order ----------

  /** Snapshots of the organization share one stream; reviews share one when they share their artifact id. */
  ghost predicate SameStream(u: Unsigned, w: Unsigned) {
    u.kind == w.kind && (u.kind == SnapshotKind || u.artifactId == w.artifactId)
  }

  /** Along the log, times never fall; on one stream revisions never fall and one revision is one content. */
  lemma StreamsNeverGoBack(t: Trust, h: seq<Event>, i: nat, j: nat)
    requires Replay(t, h).Some? && i < j < |h|
    ensures h[i].now <= h[j].now
    ensures h[i].ArtifactEvent? && h[j].ArtifactEvent? && SameStream(h[i].artifact.unsigned, h[j].artifact.unsigned) ==>
      h[i].artifact.unsigned.revision <= h[j].artifact.unsigned.revision
      && (h[i].artifact.unsigned.revision == h[j].artifact.unsigned.revision ==> h[i].artifact.unsigned == h[j].artifact.unsigned)
  {
    ReplayPrefix(t, h, j);
    LogInvariant(t, h[..j]);
    assert h[i] in h[..j];
    if h[j].ArtifactEvent? {
      AdmittedArtifact(t, Replay(t, h[..j]).value, h[j]);
    }
  }

  /** Of two different contents for one revision of one stream, a log holds at most one. */
  lemma AtMostOneContentPerRevision(t: Trust, h: seq<Event>, a: Event, b: Event)
    requires Replay(t, h).Some? && a in h && b in h && a.ArtifactEvent? && b.ArtifactEvent?
    requires SameStream(a.artifact.unsigned, b.artifact.unsigned)
    requires a.artifact.unsigned.revision == b.artifact.unsigned.revision
    ensures a.artifact.unsigned == b.artifact.unsigned
  {
    var i :| 0 <= i < |h| && h[i] == a;
    var j :| 0 <= j < |h| && h[j] == b;
    if i < j { StreamsNeverGoBack(t, h, i, j); } else if j < i { StreamsNeverGoBack(t, h, j, i); }
  }

  // ---------- identities ----------

  /** Across the whole log: same record id if and only if same reviewer and subject. */
  lemma OneRecordIdPerReviewerAndSubject(t: Trust, h: seq<Event>, a: Event, b: Event)
    requires Replay(t, h).Some? && a in h && b in h && IsReview(a) && IsReview(b)
    ensures RecordOf(a).id == RecordOf(b).id
       <==> RecordOf(a).reviewer == RecordOf(b).reviewer && RecordOf(a).subjectHash == RecordOf(b).subjectHash
  {
    LogInvariant(t, h);
    var p := Replay(t, h).value;
    assert p.recordOwners[p.identities[OwnerOf(RecordOf(a))]] == OwnerOf(RecordOf(a));
    assert p.recordOwners[p.identities[OwnerOf(RecordOf(b))]] == OwnerOf(RecordOf(b));
  }

  predicate Marks(u: Unsigned, stream: Stream, mark: Mark) {
    StreamOf(u) == stream && mark == Mark(u.revision, EnvelopeDigest(u))
  }

  /** Marks and identities come from logged artifacts and from nothing else. */
  ghost predicate MarkIsLogged(h: seq<Event>, p: PState, stream: Stream) {
    stream in p.verifier.latest && exists e :: e in h && e.ArtifactEvent? && Marks(e.artifact.unsigned, stream, p.verifier.latest[stream])
  }

  ghost predicate OwnerIsLogged(h: seq<Event>, p: PState, o: Owner) {
    o in p.identities && exists e :: e in h && IsReview(e) && OwnerOf(RecordOf(e)) == o && p.identities[o] == RecordOf(e).id
  }

  lemma {:induction false} EverythingIsLogged(t: Trust, h: seq<Event>)
    requires Replay(t, h).Some?
    ensures forall stream | stream in Replay(t, h).value.verifier.latest :: MarkIsLogged(h, Replay(t, h).value, stream)
    ensures forall o | o in Replay(t, h).value.identities :: OwnerIsLogged(h, Replay(t, h).value, o)
  {
    hide Outcome;
    if h != [] {
      var front, e := h[..|h| - 1], h[|h| - 1];
      EverythingIsLogged(t, front);
      var p, q := Replay(t, front).value, Replay(t, h).value;
      assert h == front + [e];
      if e.ArtifactEvent? { AdmittedArtifact(t, p, e); } else { AdmittedRevocation(t, p, e); }
      forall stream | stream in q.verifier.latest ensures MarkIsLogged(h, q, stream) {
        if e.ArtifactEvent? && StreamOf(e.artifact.unsigned) == stream { assert e in h; } else { assert MarkIsLogged(front, p, stream); }
      }
      forall o | o in q.identities ensures OwnerIsLogged(h, q, o) {
        if IsReview(e) && OwnerOf(RecordOf(e)) == o { assert e in h; } else { assert OwnerIsLogged(front, p, o); }
      }
    }
  }

  // ---------- permanence ----------

  /** After an accepted revocation nothing under that key or artifact id enters the log any more. */
  lemma RevocationsKeepArtifactsOut(t: Trust, h: seq<Event>, i: nat, j: nat)
    requires Replay(t, h).Some? && i < j < |h| && h[j].ArtifactEvent?
    ensures h[i].RevokeKeyEvent? ==> h[j].artifact.unsigned.keyId != h[i].keyId
    ensures h[i].RevokeArtifactEvent? ==>
      (h[j].artifact.unsigned.kind, h[j].artifact.unsigned.artifactId) != (h[i].kind, h[i].artifactId)
  {
    ReplayPrefix(t, h, j);
    LogInvariant(t, h[..j]);
    assert h[i] in h[..j];
    AdmittedArtifact(t, Replay(t, h[..j]).value, h[j]);
  }

  /** Along any continuation of a log, rejections and revocations stay. */
  lemma ContinuationsKeepRejectionsAndRevocations(t: Trust, h: seq<Event>, h': seq<Event>)
    requires Replay(t, h).Some? && Replay(t, h').Some? && h <= h'
    ensures Replay(t, h).value.rejected <= Replay(t, h').value.rejected
    ensures Replay(t, h).value.verifier.revokedKeys <= Replay(t, h').value.verifier.revokedKeys
    ensures Replay(t, h).value.verifier.revokedArtifacts <= Replay(t, h').value.verifier.revokedArtifacts
    ensures Replay(t, h).value.now <= Replay(t, h').value.now
  {
    LogInvariant(t, h);
    LogInvariant(t, h');
    var p, q := Replay(t, h).value, Replay(t, h').value;
    assert forall e | e in h :: e in h';
    if h != [] {
      LastTimeIsNow(t, h);
      assert h[|h| - 1] in h';
    }
  }

  lemma LastTimeIsNow(t: Trust, h: seq<Event>)
    requires Replay(t, h).Some? && h != []
    ensures Replay(t, h).value.now == h[|h| - 1].now
  {
    ReplayPrefix(t, h, |h| - 1);
    assert h[..|h|] == h;
  }

  // ---------- repeated events ----------

  /** Equal except for the signatures of the stored reviews. */
  ghost predicate Similar(p: PState, q: PState) {
    && p.verifier == q.verifier && p.now == q.now && p.order == q.order && p.rejected == q.rejected
    && p.identities == q.identities && p.recordOwners == q.recordOwners
    && p.reviews.Keys == q.reviews.Keys
    && forall id | id in p.reviews :: p.reviews[id].unsigned == q.reviews[id].unsigned
  }

  lemma SimilarRemember(p: PState, q: PState, a: SignedArtifact, r: ReviewRecord)
    requires Similar(p, q)
    ensures Similar(Remember(p, a, r), Remember(q, a, r))
  {
    assert r.id in p.reviews <==> r.id in q.reviews;
  }

  /** Applying an event never looks at the stored reviews' signatures. */
  lemma SimilarStep(t: Trust, p: PState, q: PState, e: Event)
    requires Similar(p, q)
    ensures Outcome(t, p, e).1 == Outcome(t, q, e).1
    ensures Admits(t, p, e) ==> Similar(After(t, p, e), After(t, q, e))
  {
    SimilarRefusal(t, p, q, e);
    if Admits(t, p, e) {
      if !e.ArtifactEvent? {
      } else {
        AdmittedArtifact(t, p, e);
        AdmittedArtifact(t, q, e);
        if e.artifact.unsigned.kind == ReviewKind {
          SimilarRemember(p, q, e.artifact, RecordOf(e));
        }
      }
    }
  }

  lemma SimilarRefusal(t: Trust, p: PState, q: PState, e: Event)
    requires p.verifier == q.verifier && p.now == q.now && p.identities == q.identities && p.recordOwners == q.recordOwners
    ensures Outcome(t, p, e).1 == Outcome(t, q, e).1
  {
    if e.ArtifactEvent? && e.artifact.unsigned.kind == ReviewKind && e.subjectHash.Some? {
      var reason := Refusal(t, p.verifier, e.artifact, ReviewKind, e.now, e.subjectHash.value);
      if reason.None? {
        assert IdentityFree(p, e.artifact.unsigned.payload.record) == IdentityFree(q, e.artifact.unsigned.payload.record);
      }
    }
  }

  /** An event of the log that is admitted again changes at most the signature of a stored review:
      its revision can no longer be higher than the mark, and the mark has its content. */
  lemma RepeatedEventChangesNothing(t: Trust, h: seq<Event>, e: Event)
    requires Replay(t, h).Some? && e in h && Admits(t, Replay(t, h).value, e)
    ensures Similar(After(t, Replay(t, h).value, e), Replay(t, h).value)
  {
    hide Replay, MarksKept, IdentitiesKept, ReviewsKept, RejectionsKept, Genuine, Known;
    LogInvariant(t, h);
    var p := Replay(t, h).value;
    if e.ArtifactEvent? {
      RepeatedArtifactKeepsVerifier(t, h, e);
      AdmittedArtifact(t, p, e);
      if IsReview(e) {
        RepeatedReviewIsKnown(t, h, e);
        RememberingTheKnown(p, e.artifact, RecordOf(e));
      }
    } else {
      assert After(t, p, e).verifier.revokedKeys == p.verifier.revokedKeys;
      assert After(t, p, e).verifier.revokedArtifacts == p.verifier.revokedArtifacts;
    }
  }

  lemma RepeatedArtifactKeepsVerifier(t: Trust, h: seq<Event>, e: Event)
    requires Replay(t, h).Some? && e in h && e.ArtifactEvent? && Admits(t, Replay(t, h).value, e)
    ensures Advance(Replay(t, h).value.verifier, e.artifact.unsigned, e.now) == Replay(t, h).value.verifier
    ensures Replay(t, h).value.now == e.now
  {
    hide Outcome, Replay, Genuine, IdentitiesKept, ReviewsKept, RejectionsKept, RevocationsKept;
    LogInvariant(t, h);
    var p, u := Replay(t, h).value, e.artifact.unsigned;
    AdmittedArtifact(t, p, e);
    assert Marked(p.verifier, u);
    assert p.verifier.latest[StreamOf(u)] == Mark(u.revision, EnvelopeDigest(u));
    assert p.verifier.latest[StreamOf(u) := Mark(u.revision, EnvelopeDigest(u))] == p.verifier.latest;
  }

  lemma RepeatedReviewIsKnown(t: Trust, h: seq<Event>, e: Event)
    requires Replay(t, h).Some? && e in h && IsReview(e) && Admits(t, Replay(t, h).value, e)
    ensures Known(Replay(t, h).value, e.artifact, RecordOf(e))
  {
    LogInvariant(t, h);
    var p, r, u := Replay(t, h).value, RecordOf(e), e.artifact.unsigned;
    AdmittedArtifact(t, p, e);
    assert Marked(p.verifier, u);
    assert Stored(t, h, p, r.id);
    assert p.reviews[r.id].unsigned == u;
    if r.decision == Reject { assert IsRejection(e, r.subjectHash); }
  }

  ghost predicate Known(p: PState, a: SignedArtifact, r: ReviewRecord) {
    && r.id in p.reviews && p.reviews[r.id].unsigned == a.unsigned
    && OwnerOf(r) in p.identities && p.identities[OwnerOf(r)] == r.id
    && r.id in p.recordOwners && p.recordOwners[r.id] == OwnerOf(r)
    && (r.decision == Reject ==> r.subjectHash in p.rejected)
  }

  lemma RememberingTheKnown(p: PState, a: SignedArtifact, r: ReviewRecord)
    requires Known(p, a, r)
    ensures Similar(Remember(p, a, r), p)
  {
    assert p.identities[OwnerOf(r) := r.id] == p.identities;
    assert p.recordOwners[r.id := OwnerOf(r)] == p.recordOwners;
  }

  /** The log as the store keeps it: each event once, where it first occurred. */
  function Dedup(g: seq<Event>): (h: seq<Event>)
    ensures forall e :: e in h <==> e in g
    ensures Distinct(h) && |h| <= |g|
  {
    if g == [] then [] else
    var front, e := g[..|g| - 1], g[|g| - 1];
    assert g == front + [e];
    if e in front then Dedup(front) else Dedup(front) + [e]
  }

  /** Rebuilding from the deduplicated log gives the state reached by applying every accepted event,
      up to signatures. */
  lemma {:induction false} DedupIsInvisible(t: Trust, g: seq<Event>)
    requires Replay(t, g).Some?
    ensures Replay(t, Dedup(g)).Some? && Similar(Replay(t, g).value, Replay(t, Dedup(g)).value)
  {
    if g != [] {
      var front, e := g[..|g| - 1], g[|g| - 1];
      DedupIsInvisible(t, front);
      var p, q := Replay(t, front).value, Replay(t, Dedup(front)).value;
      if e in front {
        RepeatedEventChangesNothing(t, front, e);
      } else {
        SimilarStep(t, p, q, e);
        ReplayStep(t, Dedup(front), e);
      }
    }
  }
}
