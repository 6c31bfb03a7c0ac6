/** The stateful signature verifier (scripts/review-policy/verifier.ts): pinned keys, revocations,
    one revision high-water mark per stream and a clock that never runs back. */
module Verifier {
  import opened Collections
  import opened PolicyTypes
  import opened Boundary
  import CanonicalTheorems
  import JsonEncoding

  /** The pinned configuration: fixed for the life of a verifier. */
  datatype Trust = Trust(world: World, organization: string, keys: map<string, TrustedKey>)

  /** Snapshot revisions span the organization; review revisions belong to one record id. */
  datatype Stream = OrganizationSnapshots | RecordStream(id: string)
  datatype Mark = Mark(revision: int, digest: Digest)

  datatype VState = VState(
    latest: map<Stream, Mark>, lastTime: int, revokedKeys: set<string>, revokedArtifacts: set<(Kind, string)>)

  const FRESH := VState(map[], -1, {}, {})

  function StreamOf(u: Unsigned): Stream {
    if u.kind == SnapshotKind then OrganizationSnapshots else RecordStream(u.artifactId)
  }

  predicate SnapshotPayloadOk(u: Unsigned) {
    && u.payload.SnapshotPayload?
    && var s := u.payload.snapshot;
    && ValidSnapshot(s) && s.id == u.artifactId && s.organization == u.organization
    && s.policyDigest == DraftPolicyDigest && s.issuedAt == u.issuedAt && s.expiresAt == u.expiresAt
    && UniqueSnapshotIds(s)
  }

  predicate ReviewPayloadOk(u: Unsigned, principal: string, subjectHash: Digest) {
    && u.payload.ReviewPayload?
    && var r := u.payload.record;
    && ValidRecord(r) && r.id == u.artifactId && r.reviewer == principal && r.subjectHash == subjectHash
    && r.reviewedAt == u.issuedAt && r.expiresAt == u.expiresAt && !r.revoked
  }

  predicate PayloadOk(u: Unsigned, principal: string, subjectHash: Digest) {
    if u.kind == SnapshotKind then SnapshotPayloadOk(u) else ReviewPayloadOk(u, principal, subjectHash)
  }

  predicate InWindow(u: Unsigned, key: TrustedKey, now: int) {
    && key.notBefore <= u.issuedAt <= now < u.expiresAt <= key.expiresAt
    && key.notBefore <= now < key.expiresAt
  }

  predicate KeyTrusted(t: Trust, u: Unsigned) {
    u.keyId in t.keys && u.kind in t.keys[u.keyId].purposes
  }

  /** The first check that fails, in the order the verifier makes them. */
  function Refusal(t: Trust, v: VState, a: SignedArtifact, kind: Kind, now: int, subjectHash: Digest): (reason: Option<Reason>)
    ensures reason.None? ==> a.unsigned.kind == kind
    ensures reason.None? && kind == SnapshotKind ==> a.unsigned.payload.SnapshotPayload?
    ensures reason.None? && kind == ReviewKind ==> a.unsigned.payload.ReviewPayload?
  {
    var u := a.unsigned;
    if !SafeInteger(now) || now < 0 || now < v.lastTime then Some(InvalidOrRolledBackClock)
    else if !ValidEnvelope(u, a.signature) || u.kind != kind then Some(InvalidEnvelope)
    else if u.organization != t.organization then Some(OrganizationMismatch)
    else if !KeyTrusted(t, u) then Some(UntrustedSigner)
    else if u.keyId in v.revokedKeys then Some(KeyRevoked)
    else if (kind, u.artifactId) in v.revokedArtifacts then Some(ArtifactRevoked)
    else if !InWindow(u, t.keys[u.keyId], now) then Some(OutsideValidityWindow)
    else if !t.world.verifies(t.keys[u.keyId].publicKeyPem, u, a.signature) then Some(InvalidSignature)
    else if !PayloadOk(u, t.keys[u.keyId].principal, subjectHash) then
      Some(if kind == SnapshotKind then InvalidSnapshotPayload else InvalidReviewPayload)
    else if StreamOf(u) in v.latest && u.revision < v.latest[StreamOf(u)].revision then Some(RevisionRollback)
    else if StreamOf(u) in v.latest && u.revision == v.latest[StreamOf(u)].revision
            && EnvelopeDigest(u) != v.latest[StreamOf(u)].digest then Some(RevisionConflict)
    else None
  }

  function Advance(v: VState, u: Unsigned, now: int): VState {
    v.(latest := v.latest[StreamOf(u) := Mark(u.revision, EnvelopeDigest(u))], lastTime := now)
  }

  /** One verification: a refused artifact leaves the state alone. */
  function Verify(t: Trust, v: VState, a: SignedArtifact, kind: Kind, now: int, subjectHash: Digest): (VState, Option<Reason>) {
    var refusal := Refusal(t, v, a, kind, now, subjectHash);
    if refusal.Some? then (v, refusal) else (Advance(v, a.unsigned, now), None)
  }

  function ReceiptFor(t: Trust, s: Snapshot, now: int): SnapshotReceipt {
    SnapshotReceipt(s.id, SnapshotDigest(s), t.organization, now)
  }

  /** A snapshot that says in its payload what its envelope says. */
  ghost predicate ProperSnapshot(u: Unsigned) {
    && u.payload.SnapshotPayload?
    && var s := u.payload.snapshot;
    && ValidSnapshot(s) && DistinctIds(s) && s.policyDigest == DraftPolicyDigest
    && s.id == u.artifactId && s.organization == u.organization && s.issuedAt == u.issuedAt && s.expiresAt == u.expiresAt
  }

  /** An unrevoked review of this subject by the holder of the key, dated as its envelope is. */
  ghost predicate ProperReview(u: Unsigned, holder: string, subjectHash: Digest) {
    && u.payload.ReviewPayload?
    && var r := u.payload.record;
    && ValidRecord(r) && !r.revoked && r.reviewer == holder && r.subjectHash == subjectHash
    && r.id == u.artifactId && r.reviewedAt == u.issuedAt && r.expiresAt == u.expiresAt
  }

  /** What does not depend on the moment: shape, organization, a pinned key that may sign this kind,
      a lifetime within the key's, signature and payload. */
  ghost predicate Genuine(t: Trust, a: SignedArtifact, subjectHash: Digest) {
    var u := a.unsigned;
    && ValidEnvelope(u, a.signature) && u.organization == t.organization
    && u.keyId in t.keys && u.kind in t.keys[u.keyId].purposes
    && var key := t.keys[u.keyId];
    && key.notBefore <= u.issuedAt < u.expiresAt <= key.expiresAt
    && t.world.verifies(key.publicKeyPem, u, a.signature)
    && match u.kind case SnapshotKind => ProperSnapshot(u) case ReviewKind => ProperReview(u, key.principal, subjectHash)
  }

  ghost predicate Revoked(v: VState, u: Unsigned) {
    u.keyId in v.revokedKeys || (u.kind, u.artifactId) in v.revokedArtifacts
  }

  ghost predicate RevisionAdmits(v: VState, u: Unsigned) {
    StreamOf(u) in v.latest ==>
      var last := v.latest[StreamOf(u)];
      u.revision > last.revision || (u.revision == last.revision && EnvelopeDigest(u) == last.digest)
  }

  ghost predicate ClockAdmits(v: VState, now: int) {
    0 <= now <= 9007199254740991 && v.lastTime <= now
  }

  lemma PayloadMeaning(u: Unsigned, principal: string, subjectHash: Digest)
    ensures PayloadOk(u, principal, subjectHash) <==>
      match u.kind case SnapshotKind => ProperSnapshot(u) case ReviewKind => ProperReview(u, principal, subjectHash)
  {
    hide UniqueSnapshotIds, DistinctIds, ValidSnapshot, ValidRecord;
    if u.payload.SnapshotPayload? { DistinctIdsIff(u.payload.snapshot); }
  }

  lemma AcceptedIff(t: Trust, v: VState, a: SignedArtifact, kind: Kind, now: int, subjectHash: Digest)
    ensures Refusal(t, v, a, kind, now, subjectHash).None?
       <==> ClockAdmits(v, now) && a.unsigned.kind == kind && Genuine(t, a, subjectHash) && !Revoked(v, a.unsigned)
            && a.unsigned.issuedAt <= now < a.unsigned.expiresAt && RevisionAdmits(v, a.unsigned)
  {
    hide PayloadOk, ProperSnapshot, ProperReview, ValidEnvelope;
    if a.unsigned.keyId in t.keys { PayloadMeaning(a.unsigned, t.keys[a.unsigned.keyId].principal, subjectHash); }
  }

  /** The reason names the condition that fails first: clock, shape, organization, then the key and its purposes,
      revocation and the validity window. */
  lemma RefusalReasons(t: Trust, v: VState, a: SignedArtifact, kind: Kind, now: int, subjectHash: Digest)
    ensures var u, reason := a.unsigned, Refusal(t, v, a, kind, now, subjectHash);
      var shaped := ValidEnvelope(u, a.signature) && u.kind == kind;
      var ours := ClockAdmits(v, now) && shaped && u.organization == t.organization;
      var maySign := u.keyId in t.keys && kind in t.keys[u.keyId].purposes;
      && (reason == Some(InvalidOrRolledBackClock) <==> !ClockAdmits(v, now))
      && (reason == Some(InvalidEnvelope) <==> ClockAdmits(v, now) && !shaped)
      && (reason == Some(OrganizationMismatch) <==> ClockAdmits(v, now) && shaped && !ours)
      && (reason == Some(UntrustedSigner) <==> ours && !maySign)
      && (reason == Some(KeyRevoked) <==> ours && maySign && u.keyId in v.revokedKeys)
      && (reason == Some(ArtifactRevoked) <==> ours && maySign && u.keyId !in v.revokedKeys && (kind, u.artifactId) in v.revokedArtifacts)
      && (ours && maySign && !Revoked(v, u) ==>
            (reason == Some(OutsideValidityWindow) <==>
               !(t.keys[u.keyId].notBefore <= u.issuedAt <= now < u.expiresAt <= t.keys[u.keyId].expiresAt)))
  {
    hide PayloadOk, ProperSnapshot, ProperReview, ValidEnvelope;
  }

  /** Genuine and timely, an artifact is refused only for its revision: below the mark, or at it with other content. */
  lemma RevisionReasons(t: Trust, v: VState, a: SignedArtifact, now: int, subjectHash: Digest)
    requires ClockAdmits(v, now) && Genuine(t, a, subjectHash) && !Revoked(v, a.unsigned)
    requires a.unsigned.issuedAt <= now < a.unsigned.expiresAt && StreamOf(a.unsigned) in v.latest
    ensures var u, last, reason := a.unsigned, v.latest[StreamOf(a.unsigned)], Refusal(t, v, a, a.unsigned.kind, now, subjectHash);
      && (reason == Some(RevisionRollback) <==> u.revision < last.revision)
      && (reason == Some(RevisionConflict) <==> u.revision == last.revision && last.digest != EnvelopeDigest(u))
      && (reason.None? <==> u.revision > last.revision || (u.revision == last.revision && last.digest == EnvelopeDigest(u)))
  {
    hide PayloadOk, ProperSnapshot, ProperReview, ValidEnvelope;
    PayloadMeaning(a.unsigned, t.keys[a.unsigned.keyId].principal, subjectHash);
  }

  /** Re-verifying something genuine whose mark still stands can only fail because of a
      revocation or because a lifetime ended. */
  lemma RecheckFailsOnlyByRevocationOrExpiry(t: Trust, v: VState, a: SignedArtifact, now: int, subjectHash: Digest)
    requires Genuine(t, a, subjectHash) && ClockAdmits(v, now) && a.unsigned.issuedAt <= now
    requires StreamOf(a.unsigned) in v.latest
    requires v.latest[StreamOf(a.unsigned)] == Mark(a.unsigned.revision, EnvelopeDigest(a.unsigned))
    ensures var reason := Refusal(t, v, a, a.unsigned.kind, now, subjectHash);
      && (reason == Some(KeyRevoked) <==> a.unsigned.keyId in v.revokedKeys)
      && (reason == Some(ArtifactRevoked) <==>
            a.unsigned.keyId !in v.revokedKeys && (a.unsigned.kind, a.unsigned.artifactId) in v.revokedArtifacts)
      && (reason == Some(OutsideValidityWindow) <==> !Revoked(v, a.unsigned) && now >= a.unsigned.expiresAt)
      && (reason.None? <==> !Revoked(v, a.unsigned) && now < a.unsigned.expiresAt)
    ensures v.lastTime == now ==> Verify(t, v, a, a.unsigned.kind, now, subjectHash).0 == v
  {
    hide PayloadOk, ProperSnapshot, ProperReview, ValidEnvelope;
    PayloadMeaning(a.unsigned, t.keys[a.unsigned.keyId].principal, subjectHash);
    assert v.latest[StreamOf(a.unsigned) := Mark(a.unsigned.revision, EnvelopeDigest(a.unsigned))] == v.latest;
  }

  // ---------- the trust configuration ----------

  predicate KeyWellFormed(world: World, organization: string, k: TrustedKey) {
    && k.id != "" && k.principal != "" && k.organization == organization && k.purposes != []
    && SafeInteger(k.notBefore) && k.notBefore >= 0 && SafeInteger(k.expiresAt) && k.expiresAt > k.notBefore
    && world.ed25519(k.publicKeyPem)
  }

  ghost predicate ConfigurationOk(world: World, organization: string, keys: seq<TrustedKey>) {
    && organization != ""
    && (forall k | k in keys ::
          && k.id != "" && k.principal != "" && k.organization == organization && |k.purposes| > 0
          && 0 <= k.notBefore < k.expiresAt <= 9007199254740991 && world.ed25519(k.publicKeyPem))
    && DistinctKeyIds(keys)
  }

  /** The key table lists exactly the given keys under their ids. */
  ghost predicate Lists(table: map<string, TrustedKey>, keys: seq<TrustedKey>) {
    && (forall k | k in keys :: k.id in table && table[k.id] == k)
    && (forall id | id in table :: table[id] in keys && table[id].id == id)
  }

  ghost predicate DistinctKeyIds(keys: seq<TrustedKey>) {
    forall i, j | 0 <= i < j < |keys| :: keys[i].id != keys[j].id
  }

  lemma ListsOneMore(table: map<string, TrustedKey>, keys: seq<TrustedKey>, key: TrustedKey)
    requires Lists(table, keys) && DistinctKeyIds(keys)
    ensures key.id !in table ==> Lists(table[key.id := key], keys + [key]) && DistinctKeyIds(keys + [key])
    ensures key.id in table ==> !DistinctKeyIds(keys + [key])
  {
    if key.id in table {
      var i :| 0 <= i < |keys| && keys[i] == table[key.id];
      assert (keys + [key])[i].id == (keys + [key])[|keys|].id;
    }
  }

  /** The constructor's loop; None stands for INVALID_TRUST_CONFIGURATION. */
  method BuildTrust(world: World, organization: string, keys: seq<TrustedKey>) returns (trust: Option<Trust>)
    ensures trust.Some? <==> ConfigurationOk(world, organization, keys)
    ensures trust.Some? ==> trust.value.world == world && trust.value.organization == organization && Lists(trust.value.keys, keys)
  {
    hide Lists;
    if organization == "" { return None; }
    var table: map<string, TrustedKey> := map[];
    assert Lists(table, []) by { NoKeys(); }
    for i := 0 to |keys|
      invariant forall k | 0 <= k < i :: KeyWellFormed(world, organization, keys[k])
      invariant DistinctKeyIds(keys[..i]) && Lists(table, keys[..i])
    {
      var key := keys[i];
      assert keys[..i + 1] == keys[..i] + [key];
      ListsOneMore(table, keys[..i], key);
      if !KeyWellFormed(world, organization, key) { return None; }
      if key.id in table { return None; }
      table := table[key.id := key];
    }
    assert keys[..|keys|] == keys;
    return Some(Trust(world, organization, table));
  }

  lemma NoKeys()
    ensures Lists(map[], [])
  {}

  /** The order of JavaScript strings, on key ids. */
  predicate Precedes(a: TrustedKey, b: TrustedKey) {
    CanonicalJson.Before(JsonEncoding.Key(a.id), JsonEncoding.Key(b.id))
  }

  function InsertKey(k: TrustedKey, sorted: seq<TrustedKey>): seq<TrustedKey> {
    if sorted == [] || !Precedes(sorted[0], k) then [k] + sorted else [sorted[0]] + InsertKey(k, sorted[1..])
  }

  function SortById(keys: seq<TrustedKey>): seq<TrustedKey> {
    if keys == [] then [] else InsertKey(keys[0], SortById(keys[1..]))
  }

  function PolicyTrustDigest(keys: seq<TrustedKey>): Digest {
    TrustDigest(SortById(keys))
  }

  ghost predicate Ascending(keys: seq<TrustedKey>) {
    forall i, j | 0 <= i < j < |keys| :: Precedes(keys[i], keys[j])
  }

  lemma OrderOfIds(a: TrustedKey, b: TrustedKey)
    ensures Precedes(a, b) || Precedes(b, a) || a.id == b.id
    ensures Precedes(a, b) ==> !Precedes(b, a) && a.id != b.id
  {
    CanonicalTheorems.BeforeIsTotal(JsonEncoding.Key(a.id), JsonEncoding.Key(b.id));
    CanonicalTheorems.BeforeIsTotal(JsonEncoding.Key(a.id), JsonEncoding.Key(a.id));
    if JsonEncoding.Key(a.id) == JsonEncoding.Key(b.id) { JsonEncoding.KeysDiffer(a.id, b.id); }
  }

  lemma PrecedesIsTransitive(a: TrustedKey, b: TrustedKey, c: TrustedKey)
    requires Precedes(a, b) && Precedes(b, c)
    ensures Precedes(a, c)
  {
    CanonicalTheorems.BeforeIsTransitive(JsonEncoding.Key(a.id), JsonEncoding.Key(b.id), JsonEncoding.Key(c.id));
  }

  lemma {:induction false} InsertKeyKeeps(k: TrustedKey, sorted: seq<TrustedKey>)
    ensures forall x :: x in InsertKey(k, sorted) <==> x == k || x in sorted
    ensures Ascending(sorted) && (forall x | x in sorted :: x.id != k.id) ==> Ascending(InsertKey(k, sorted))
  {
    hide Precedes;
    if sorted == [] {
    } else if !Precedes(sorted[0], k) {
      if Ascending(sorted) && forall x | x in sorted :: x.id != k.id {
        forall j | 0 <= j < |sorted| ensures Precedes(k, sorted[j]) {
          assert sorted[0] in sorted;
          OrderOfIds(sorted[0], k);
          if j > 0 { PrecedesIsTransitive(k, sorted[0], sorted[j]); }
        }
      }
    } else {
      var rest := InsertKey(k, sorted[1..]);
      InsertKeyKeeps(k, sorted[1..]);
      assert sorted == [sorted[0]] + sorted[1..];
      if Ascending(sorted) && forall x | x in sorted :: x.id != k.id {
        assert Ascending(sorted[1..]);
        forall j | 0 <= j < |rest| ensures Precedes(sorted[0], rest[j]) {
          assert rest[j] in rest;
          if rest[j] != k {
            var i :| 0 <= i < |sorted[1..]| && sorted[1..][i] == rest[j];
            assert sorted[i + 1] == rest[j];
          }
        }
      }
    }
  }

  lemma {:induction false} SortByIdKeeps(keys: seq<TrustedKey>)
    ensures forall x :: x in SortById(keys) <==> x in keys
    ensures DistinctKeyIds(keys) ==> Ascending(SortById(keys))
  {
    if keys != [] {
      SortByIdKeeps(keys[1..]);
      InsertKeyKeeps(keys[0], SortById(keys[1..]));
      assert keys == [keys[0]] + keys[1..];
      if DistinctKeyIds(keys) {
        forall x | x in SortById(keys[1..]) ensures x.id != keys[0].id {
          var i :| 0 <= i < |keys[1..]| && keys[1..][i] == x;
          assert keys[i + 1] == x;
        }
      }
    }
  }

  lemma {:induction false} AscendingIsUnique(a: seq<TrustedKey>, b: seq<TrustedKey>)
    requires Ascending(a) && Ascending(b) && forall x :: x in a <==> x in b
    ensures a == b
  {
    hide Precedes;
    assert a != [] ==> a[0] in a;
    assert b != [] ==> b[0] in b;
    if a != [] && b != [] {
      var i :| 0 <= i < |b| && b[i] == a[0];
      var j :| 0 <= j < |a| && a[j] == b[0];
      if i > 0 && j > 0 { OrderOfIds(a[0], b[0]); }
      assert a[0] == b[0];
      TailMembers(a);
      TailMembers(b);
      AscendingIsUnique(a[1..], b[1..]);
      assert a == [a[0]] + a[1..] && b == [b[0]] + b[1..];
    }
  }

  lemma TailMembers(a: seq<TrustedKey>)
    requires Ascending(a) && a != []
    ensures forall x :: x in a[1..] <==> x in a && x != a[0]
    ensures Ascending(a[1..])
  {
    hide Precedes;
    assert a == [a[0]] + a[1..];
    forall i | 1 <= i < |a| ensures a[i] != a[0] { OrderOfIds(a[0], a[i]); }
  }

  /** Sorting makes the digest speak about the set of keys: for keys with distinct ids, equal digests are equal sets. */
  lemma TrustDigestIgnoresOrder(ka: seq<TrustedKey>, kb: seq<TrustedKey>)
    requires DistinctKeyIds(ka) && DistinctKeyIds(kb)
    ensures PolicyTrustDigest(ka) == PolicyTrustDigest(kb) <==> ToSet(ka) == ToSet(kb)
  {
    SortByIdKeeps(ka);
    SortByIdKeeps(kb);
    if ToSet(ka) == ToSet(kb) {
      forall k ensures k in SortById(ka) <==> k in SortById(kb) {
        assert k in ToSet(ka) <==> k in ka;
        assert k in ToSet(kb) <==> k in kb;
      }
      AscendingIsUnique(SortById(ka), SortById(kb));
    }
    if PolicyTrustDigest(ka) == PolicyTrustDigest(kb) {
      assert forall k :: k in ka <==> k in kb;
    }
  }

  /** Two key lists with one digest make the same verifier, whatever their order. */
  lemma TrustDigestDeterminesKeys(a: map<string, TrustedKey>, b: map<string, TrustedKey>, ka: seq<TrustedKey>, kb: seq<TrustedKey>)
    requires Lists(a, ka) && Lists(b, kb) && PolicyTrustDigest(ka) == PolicyTrustDigest(kb)
    ensures a == b
  {
    SortByIdKeeps(ka);
    SortByIdKeeps(kb);
    assert forall k :: k in ka <==> k in kb;
    forall id ensures id in a <==> id in b {
      if id in a { assert a[id] in kb; }
      if id in b { assert b[id] in ka; }
    }
    forall id | id in a ensures a[id] == b[id] { assert a[id] in kb; }
  }

  class InMemoryPolicyVerifier {
    const trust: Trust
    var latest: map<Stream, Mark>
    var lastTime: int
    var revokedKeys: set<string>
    var revokedArtifacts: set<(Kind, string)>

    function State(): VState
      reads this
    {
      VState(latest, lastTime, revokedKeys, revokedArtifacts)
    }

    constructor (trust: Trust)
      ensures this.trust == trust && State() == FRESH
    {
      this.trust := trust;
      latest, lastTime, revokedKeys, revokedArtifacts := map[], -1, {}, {};
    }

    method RevokeKey(keyId: string)
      modifies this
      ensures State() == old(State()).(revokedKeys := old(revokedKeys) + {keyId})
    {
      revokedKeys := revokedKeys + {keyId};
    }

    method RevokeArtifact(kind: Kind, artifactId: string)
      modifies this
      ensures State() == old(State()).(revokedArtifacts := old(revokedArtifacts) + {(kind, artifactId)})
    {
      revokedArtifacts := revokedArtifacts + {(kind, artifactId)};
    }

    method Check(a: SignedArtifact, kind: Kind, now: int, subjectHash: Digest) returns (refusal: Option<Reason>)
      modifies this
      ensures (State(), refusal) == Verify(trust, old(State()), a, kind, now, subjectHash)
    {
      hide SafeInteger, ValidEnvelope, InWindow, SnapshotPayloadOk, ReviewPayloadOk;
      var u := a.unsigned;
      if !SafeInteger(now) || now < 0 || now < lastTime { return Some(InvalidOrRolledBackClock); }
      if !ValidEnvelope(u, a.signature) || u.kind != kind { return Some(InvalidEnvelope); }
      if u.organization != trust.organization { return Some(OrganizationMismatch); }
      if u.keyId !in trust.keys || kind !in trust.keys[u.keyId].purposes { return Some(UntrustedSigner); }
      var key := trust.keys[u.keyId];
      if u.keyId in revokedKeys { return Some(KeyRevoked); }
      if (kind, u.artifactId) in revokedArtifacts { return Some(ArtifactRevoked); }
      if !InWindow(u, key, now) { return Some(OutsideValidityWindow); }
      if !trust.world.verifies(key.publicKeyPem, u, a.signature) { return Some(InvalidSignature); }
      if kind == SnapshotKind {
        if !SnapshotPayloadOk(u) { return Some(InvalidSnapshotPayload); }
      } else {
        if !ReviewPayloadOk(u, key.principal, subjectHash) { return Some(InvalidReviewPayload); }
      }
      var stream := StreamOf(u);
      if stream in latest && u.revision < latest[stream].revision { return Some(RevisionRollback); }
      if stream in latest && u.revision == latest[stream].revision && EnvelopeDigest(u) != latest[stream].digest {
        return Some(RevisionConflict);
      }
      latest := latest[stream := Mark(u.revision, EnvelopeDigest(u))];
      lastTime := now;
      return None;
    }
  }
}
