/** Commands over the stored log (class DurablePolicySimulation in
    scripts/review-policy/durable-boundary.ts). Every command rebuilds the projection from the log,
    accepts one event and either commits or leaves the log as it was. */
module Durable {
  import opened Collections
  import opened PolicyTypes
  import opened Boundary
  import opened Verifier
  import opened Projections
  import opened HistoryStore
  import opened EventLog
  import opened CandidateReview

  datatype Command =
    | AcceptEvent(event: Event)
    | AcceptCandidate(subject: Subject, context: EvidenceContext, artifact: SignedArtifact, now: int)
    | CheckAccess(request: Request, artifact: SignedArtifact, now: int)
    | CheckReview(subject: Subject, artifact: SignedArtifact, now: int)
    | CheckCandidate(subject: Subject, context: EvidenceContext, artifact: SignedArtifact, now: int)

  const UNAVAILABLE := Verdict(false, StoreUnavailableOrCorrupt)

  /** What is refused before the store is opened. */
  ghost function Preliminary(t: Trust, cmd: Command): Option<Reason> {
    match cmd
    case AcceptEvent(_) => None
    case CheckAccess(_, _, _) => None
    case AcceptCandidate(subject, context, artifact, now) =>
      if CandidateRefusal(t.world, subject, context, now).Some? then CandidateRefusal(t.world, subject, context, now)
      else SubmissionRefusal(subject.candidate.pkg, artifact.unsigned.payload)
    case CheckReview(subject, _, _) => ReviewContractRefusal(subject)
    case CheckCandidate(subject, context, _, now) => CandidateRefusal(t.world, subject, context, now)
  }

  /** A rejection needs no assessment; everything else needs one that is bound to the package. */
  function SubmissionRefusal(pkg: Package, payload: Payload): Option<Reason> {
    match payload
    case ReviewPayload(record) => if record.decision == Reject then None else AssessmentRefusal(pkg, record)
    case _ => Some(SignedCandidateAssessmentRequired)
  }

  function ReviewContractRefusal(subject: Subject): Option<Reason> {
    if !ValidSubject(subject) then Some(InvalidReviewContract)
    else if subject.candidate.PackageCandidate? || subject.candidate.claimsPackageVersion then Some(UseCandidateReviewBoundary)
    else None
  }

  /** The one event a command accepts. */
  function EventOf(cmd: Command): Event {
    match cmd
    case AcceptEvent(e) => e
    case AcceptCandidate(subject, _, artifact, now) => ArtifactEvent(now, artifact, Some(SubjectDigest(subject)))
    case CheckAccess(_, artifact, now) => ArtifactEvent(now, artifact, None)
    case CheckReview(_, artifact, now) => ArtifactEvent(now, artifact, None)
    case CheckCandidate(_, _, artifact, now) => ArtifactEvent(now, artifact, None)
  }

  predicate IsFor(a: SignedArtifact, binding: Digest) {
    a.unsigned.payload.ReviewPayload? && a.unsigned.payload.record.subjectHash == binding
  }

  /** The stored reviews of one subject, in the order in which their ids were first stored. */
  function StoredFor(reviews: map<string, SignedArtifact>, ids: seq<string>, binding: Digest): (r: seq<SignedArtifact>)
    ensures forall a | a in r :: IsFor(a, binding)
  {
    if ids == [] then [] else
    var front, id := ids[..|ids| - 1], ids[|ids| - 1];
    StoredFor(reviews, front, binding) + (if id in reviews && IsFor(reviews[id], binding) then [reviews[id]] else [])
  }

  function RecordsIn(artifacts: seq<SignedArtifact>): (r: seq<ReviewRecord>)
    requires forall a | a in artifacts :: a.unsigned.payload.ReviewPayload?
    ensures |r| == |artifacts|
  {
    seq(|artifacts|, i requires 0 <= i < |artifacts| => artifacts[i].unsigned.payload.record)
  }

  /** Verify the stored reviews again, one after the other, up to the first refusal. */
  function Recheck(t: Trust, v: VState, artifacts: seq<SignedArtifact>, binding: Digest, now: int): (VState, Option<Reason>) {
    if artifacts == [] then (v, None) else
    var (v1, refusal) := Recheck(t, v, artifacts[..|artifacts| - 1], binding, now);
    if refusal.Some? then (v1, refusal) else Verify(t, v1, artifacts[|artifacts| - 1], ReviewKind, now, binding)
  }

  /** Work done after the event is accepted: an answer to commit with, or an error that rolls back. */
  datatype Finished = Done(verdict: Verdict) | Threw(reason: Reason)

  predicate AudienceMayReadSources(subject: Subject, pkg: Package, s: Snapshot, receipt: SnapshotReceipt) {
    forall a | a in subject.audience :: ActorMayReadSources(subject, a, pkg, s, receipt)
  }

  predicate ActorMayReadSources(subject: Subject, actor: string, pkg: Package, s: Snapshot, receipt: SnapshotReceipt) {
    forall x | x in pkg.sources :: SourceReadable(subject, actor, x, s, receipt)
  }

  predicate SourceReadable(subject: Subject, actor: string, x: Source, s: Snapshot, receipt: SnapshotReceipt) {
    ScopedAccess(ReadRequest(subject, actor).(resource := x.receipt.resource), s, receipt).yes
  }

  function SourceResources(pkg: Package): seq<string> {
    seq(|pkg.sources|, i requires 0 <= i < |pkg.sources| => pkg.sources[i].receipt.resource)
  }

  predicate EligibleCandidateRecord(subject: Subject, pkg: Package, s: Snapshot, receipt: SnapshotReceipt, r: ReviewRecord) {
    AssessmentComplete(pkg, r) && ReviewerCanReadSources(subject, r, [subject.resource] + SourceResources(pkg), s, receipt)
  }

  function EligibilityTest(subject: Subject, pkg: Package, s: Snapshot, receipt: SnapshotReceipt): ReviewRecord -> bool {
    r => EligibleCandidateRecord(subject, pkg, s, receipt, r)
  }

  /** The review itself, once records and snapshot are verified. */
  function Judge(subject: Subject, pkg: Option<Package>, records: seq<ReviewRecord>, s: Snapshot, receipt: SnapshotReceipt): Finished {
    match pkg
    case None => Done(ScopedReview(subject, records, s, receipt))
    case Some(pkg) =>
      if !AudienceMayReadSources(subject, pkg, s, receipt) then Threw(AudienceEvidenceAccessDenied) else
      var reviewed := ScopedReview(subject, Filter(records, EligibilityTest(subject, pkg, s, receipt)), s, receipt);
      Done(if reviewed.yes then Verdict(true, CandidateReviewCompleteNotReleaseAuthority) else reviewed)
  }

  function FinishReview(t: Trust, p: PState, subject: Subject, pkg: Option<Package>, snapshot: SignedArtifact, now: int): (PState, Finished) {
    var binding := SubjectDigest(subject);
    if binding in p.rejected then (p, Done(Verdict(false, ReviewRejected))) else
    var stored := StoredFor(p.reviews, p.order, binding);
    var (v1, refusal) := Recheck(t, p.verifier, stored, binding, now);
    if refusal.Some? then (p.(verifier := v1), Threw(refusal.value)) else
    var again := Refusal(t, v1, snapshot, SnapshotKind, now, NO_HASH);
    if again.Some? then (p.(verifier := v1), Threw(again.value)) else
    var s := snapshot.unsigned.payload.snapshot;
    (p.(verifier := Advance(v1, snapshot.unsigned, now)), Judge(subject, pkg, RecordsIn(stored), s, ReceiptFor(t, s, now)))
  }

  function PackageOf(cmd: Command): Option<Package> {
    if cmd.CheckCandidate? && cmd.subject.candidate.PackageCandidate? then Some(cmd.subject.candidate.pkg) else None
  }

  function Finish(t: Trust, p: PState, cmd: Command): (PState, Finished) {
    match cmd
    case AcceptEvent(_) => (p, Done(Verdict(true, Recorded)))
    case AcceptCandidate(_, _, _, _) => (p, Done(Verdict(true, Recorded)))
    case CheckAccess(request, snapshot, now) =>
      var again := Refusal(t, p.verifier, snapshot, SnapshotKind, now, NO_HASH);
      if again.Some? then (p, Threw(again.value)) else
      var s := snapshot.unsigned.payload.snapshot;
      (p.(verifier := Advance(p.verifier, snapshot.unsigned, now)), Done(ScopedAccess(request, s, ReceiptFor(t, s, now))))
    case CheckReview(subject, snapshot, now) => FinishReview(t, p, subject, None, snapshot, now)
    case CheckCandidate(subject, _, snapshot, now) => FinishReview(t, p, subject, PackageOf(cmd), snapshot, now)
  }

  function Extended(h: seq<Event>, e: Event): seq<Event> {
    if e in h then h else h + [e]
  }

  predicate Full(h: seq<Event>, e: Event) { e !in h && |h| >= CAPACITY }

  /** Commit with an answer, or roll back with an error. */
  function Settled(h: seq<Event>, e: Event, finished: Finished): (seq<Event>, Verdict) {
    match finished
    case Threw(reason) => (h, Verdict(false, reason))
    case Done(verdict) => (Extended(h, e), verdict)
  }

  /** One command on a stored log: the new log and the answer. */
  ghost function Step(t: Trust, h: seq<Event>, cmd: Command): (seq<Event>, Verdict) {
    if Preliminary(t, cmd).Some? then (h, Verdict(false, Preliminary(t, cmd).value)) else
    match Replay(t, h)
    case None => (h, UNAVAILABLE)
    case Some(p) =>
      var (p1, refusal) := Outcome(t, p, EventOf(cmd));
      if refusal.Some? then (h, Verdict(false, refusal.value))
      else if Full(h, EventOf(cmd)) then (h, UNAVAILABLE)
      else Settled(h, EventOf(cmd), Finish(t, p1, cmd).1)
  }

  lemma PreliminaryStops(t: Trust, cmd: Command)
    requires Preliminary(t, cmd).Some?
    ensures forall h :: Step(t, h, cmd) == (h, Verdict(false, Preliminary(t, cmd).value))
  {
    hide Preliminary, Replay, Outcome, Finish;
  }

  /** A command past its contract: refused event, full store, failed work, or an answer and a longer log. */
  lemma StepUnfolds(t: Trust, h: seq<Event>, cmd: Command)
    requires Replay(t, h).Some? && Preliminary(t, cmd).None?
    ensures var p, e := Replay(t, h).value, EventOf(cmd);
      Step(t, h, cmd) ==
        if !Admits(t, p, e) then (h, Verdict(false, Outcome(t, p, e).1.value))
        else if Full(h, e) then (h, UNAVAILABLE)
        else Settled(h, e, Finish(t, After(t, p, e), cmd).1)
  {
    hide Preliminary, Replay, Outcome, Finish, Full, Settled;
  }

  /** A run of commands: the log after it and the answers. Opening and closing stores in between changes nothing. */
  ghost function Run(t: Trust, h: seq<Event>, cmds: seq<Command>): (seq<Event>, seq<Verdict>) {
    if cmds == [] then (h, []) else
    var (h1, verdicts) := Run(t, h, cmds[..|cmds| - 1]);
    var (h2, verdict) := Step(t, h1, cmds[|cmds| - 1]);
    (h2, verdicts + [verdict])
  }

  // ---------- the object ----------

  class DurablePolicySimulation {
    const trust: Trust
    const store: SqlitePolicyHistoryStore

    constructor (trust: Trust, store: SqlitePolicyHistoryStore)
      ensures this.trust == trust && this.store == store
    {
      this.trust, this.store := trust, store;
    }

    /** Refuses a bad key configuration and a store that was made for other keys. */
    static method Open(world: World, keys: seq<TrustedKey>, store: SqlitePolicyHistoryStore) returns (simulation: DurablePolicySimulation?)
      ensures simulation != null <==>
        ConfigurationOk(world, store.config.organization, keys) && store.config.trustDigest == PolicyTrustDigest(keys)
      ensures simulation != null ==> fresh(simulation) && simulation.store == store
      ensures simulation != null ==> simulation.trust.world == world && simulation.trust.organization == store.config.organization
      ensures simulation != null ==> Lists(simulation.trust.keys, keys)
    {
      var trust := BuildTrust(world, store.config.organization, keys);
      if trust.None? || store.config.trustDigest != PolicyTrustDigest(keys) { return null; }
      simulation := new DurablePolicySimulation(trust.value, store);
    }

    /** Events that are written can be read back: no two digests are spelled alike. */
    ghost predicate Valid() { ReadsEvents(trust.world) }

    /** The store can be opened now and its file stands for this log. */
    ghost predicate Ready(h: seq<Event>)
      reads this, store, store.file
    {
      && !store.active && !store.closed && !store.file.locked
      && Stands(trust.world, store.config, store.file.rows, store.file.meta, h)
    }

    /** Nothing is under way and the file is as it was. */
    twostate predicate Untouched()
      reads this, store, store.file
    {
      && store.file.rows == old(store.file.rows) && store.file.meta == old(store.file.meta)
      && store.file.locked == old(store.file.locked) && store.active == old(store.active) && store.closed == old(store.closed)
    }

    twostate lemma UntouchedIsAsReady()
      requires Untouched()
      ensures forall h :: Ready(h) <==> old(Ready(h))
    {}

    /** Open a transaction and rebuild the projection from the whole log. */
    method Enter() returns (projection: Projection?, history: seq<Event>, observed: set<Event>, ghost js: seq<CanonicalJson.Json>)
      modifies store, store.file`locked
      ensures projection == null ==> Untouched() && forall h | old(Ready(h)) :: Replay(trust, h).None?
      ensures projection != null ==>
        && fresh(projection) && fresh(projection.verifier) && projection.Valid() && projection.trust == trust
        && old(Ready(history)) && store.InTransaction(js) && Decodes(trust.world, js, history) && !store.changed && !store.closed
        && store.file.rows == old(store.file.rows) && store.file.meta == old(store.file.meta)
        && Replay(trust, history) == Some(projection.State()) && observed == ToSet(history)
    {
      hide Outcome, Holds, Decodes, SqlitePolicyHistoryStore.InTransaction;
      projection, history, observed, js := null, [], {}, [];
      LogsOpen(trust.world, store.config, store.file.rows, store.file.meta);
      var begun := store.Begin();
      if begun.None? { return; }
      js := begun.value;
      LogOf(trust.world, store.config, store.file.rows, store.file.meta, js);
      projection, history, observed := Rebuild(begun.value);
      if projection == null { store.Rollback(js); }
    }

    /** The replay loop; a JSON value that is no event is refused like an event that is not admitted. */
    method Rebuild(js: seq<CanonicalJson.Json>) returns (projection: Projection?, history: seq<Event>, observed: set<Event>)
      ensures projection == null <==> forall h | Decodes(trust.world, js, h) :: Replay(trust, h).None?
      ensures projection != null ==> fresh(projection) && fresh(projection.verifier) && projection.Valid() && projection.trust == trust
      ensures projection != null ==> Decodes(trust.world, js, history)
      ensures projection != null ==> Replay(trust, history) == Some(projection.State()) && observed == ToSet(history)
    {
      hide Outcome;
      var rebuilt := new Projection(trust);
      history, observed := [], {};
      for i := 0 to |js|
        invariant fresh(rebuilt) && fresh(rebuilt.verifier) && rebuilt.Valid() && rebuilt.trust == trust
        invariant Decodes(trust.world, js[..i], history)
        invariant Replay(trust, history) == Some(rebuilt.State())
        invariant observed == ToSet(history)
      {
        DecodedPrefix(trust.world, js, i, history);
        var event := trust.world.eventOf(js[i]);
        if event.None? { return null, [], {}; }
        ReplayStep(trust, history, event.value);
        var refusal := rebuilt.Apply(event.value);
        history := history + [event.value];
        if refusal.Some? {
          forall h | Decodes(trust.world, js, h) ensures Replay(trust, h).None? { BrokenLog(trust, h, i + 1); }
          return null, [], {};
        }
        observed := observed + {event.value};
        assert js[..i + 1] == js[..i] + [js[i]];
      }
      assert js[..|js|] == js;
      OneDecoding(trust.world, js, history);
      projection := rebuilt;
    }

    /** Apply an event and append it unless the log holds it already. */
    method Record(projection: Projection, e: Event, observed: set<Event>, ghost history: seq<Event>, ghost js: seq<CanonicalJson.Json>)
      returns (refusal: Option<Reason>, ghost after: seq<CanonicalJson.Json>)
      requires Valid() && projection.Valid() && projection.trust == trust && observed == ToSet(history)
      requires store.InTransaction(js) && Decodes(trust.world, js, history)
      modifies projection, projection.verifier, store`pending, store`tail, store`digest, store`changed
      ensures projection.State() == After(trust, old(projection.State()), e)
      ensures !Admits(trust, old(projection.State()), e) ==> refusal == Outcome(trust, old(projection.State()), e).1
      ensures Admits(trust, old(projection.State()), e) && Full(history, e) ==> refusal == Some(StoreUnavailableOrCorrupt)
      ensures Admits(trust, old(projection.State()), e) && !Full(history, e) ==> refusal == None
      ensures store.InTransaction(after) && Decodes(trust.world, after, if refusal.None? then Extended(history, e) else history)
    {
      hide Outcome, SqlitePolicyHistoryStore.InTransaction;
      after := js;
      refusal := projection.Apply(e);
      if refusal.Some? { return; }
      if e !in observed {
        DecodesMore(trust.world, js, history, e);
        var appended := store.Append(trust.world.jsonOf(e), js);
        if !appended { return Some(StoreUnavailableOrCorrupt), js; }
        after := js + [trust.world.jsonOf(e)];
      }
    }

    /** acceptSnapshot, acceptReview, revokeKey and revokeArtifact. */
    method Accept(e: Event) returns (verdict: Verdict)
      requires Valid()
      modifies store, store.file
      ensures Effect(AcceptEvent(e), verdict)
    {
      hide Outcome, Holds, Decodes, Step, Replay, SqlitePolicyHistoryStore.InTransaction, Extended;
      ghost var cmd := AcceptEvent(e);
      var projection, history, observed, js := Enter();
      if projection == null {
        EffectWhenUnavailable(cmd);
        return UNAVAILABLE;
      }
      StepUnfolds(trust, history, cmd);
      var refusal, after := Record(projection, e, observed, history, js);
      if refusal.Some? {
        store.Rollback(after);
        verdict := Verdict(false, refusal.value);
      } else {
        store.Commit(after);
        verdict := Verdict(true, Recorded);
      }
      OneLog(trust.world, store.config, old(store.file.rows), old(store.file.meta), history);
    }

    /** A signed review of a candidate package; the contract is checked before the store is opened. */
    method AcceptCandidateReview(subject: Subject, context: EvidenceContext, artifact: SignedArtifact, now: int) returns (verdict: Verdict)
      requires Valid()
      modifies store, store.file
      ensures Effect(AcceptCandidate(subject, context, artifact, now), verdict)
    {
      hide CandidateRefusal, SubmissionRefusal, Stands, Step;
      ghost var cmd := AcceptCandidate(subject, context, artifact, now);
      if Preliminary(trust, cmd).Some? { PreliminaryStops(trust, cmd); } else { SubmittedAsReview(trust, cmd); }
      var refusal := ValidateCandidateReviewSubject(trust.world, subject, context, now);
      if refusal.Some? { return Verdict(false, refusal.value); }
      refusal := SubmissionRefusal(subject.candidate.pkg, artifact.unsigned.payload);
      if refusal.Some? { return Verdict(false, refusal.value); }
      verdict := Accept(ArtifactEvent(now, artifact, Some(SubjectDigest(subject))));
    }

    method CheckAccess(request: Request, snapshot: SignedArtifact, now: int) returns (verdict: Verdict)
      requires Valid()
      modifies store, store.file
      ensures Effect(Command.CheckAccess(request, snapshot, now), verdict)
    {
      hide Outcome, Refusal, ScopedAccess, Holds, Decodes, Step, Replay, SqlitePolicyHistoryStore.InTransaction, Extended;
      ghost var cmd := Command.CheckAccess(request, snapshot, now);
      var e := ArtifactEvent(now, snapshot, None);
      var projection, history, observed, js := Enter();
      if projection == null {
        EffectWhenUnavailable(cmd);
        return UNAVAILABLE;
      }
      StepUnfolds(trust, history, cmd);
      var refusal, after := Record(projection, e, observed, history, js);
      if refusal.Some? {
        store.Rollback(after);
        verdict := Verdict(false, refusal.value);
      } else {
        refusal := projection.verifier.Check(snapshot, SnapshotKind, now, NO_HASH);
        if refusal.Some? {
          store.Rollback(after);
          verdict := Verdict(false, refusal.value);
        } else {
          var s := snapshot.unsigned.payload.snapshot;
          verdict := ScopedAccess(request, s, ReceiptFor(trust, s, now));
          store.Commit(after);
        }
      }
      OneLog(trust.world, store.config, old(store.file.rows), old(store.file.meta), history);
    }

    method CheckReview(subject: Subject, snapshot: SignedArtifact, now: int) returns (verdict: Verdict)
      requires Valid()
      modifies store, store.file
      ensures Effect(Command.CheckReview(subject, snapshot, now), verdict)
    {
      hide ReviewContractRefusal, Stands, Step, FinishReview;
      ghost var cmd := Command.CheckReview(subject, snapshot, now);
      if Preliminary(trust, cmd).Some? { PreliminaryStops(trust, cmd); }
      var refusal := ReviewContractRefusal(subject);
      if refusal.Some? { return Verdict(false, refusal.value); }
      verdict := Review(cmd, subject, None, snapshot, now);
    }

    method CheckCandidateReview(subject: Subject, context: EvidenceContext, snapshot: SignedArtifact, now: int) returns (verdict: Verdict)
      requires Valid()
      modifies store, store.file
      ensures Effect(CheckCandidate(subject, context, snapshot, now), verdict)
    {
      hide CandidateRefusal, Stands, Step, FinishReview;
      ghost var cmd := CheckCandidate(subject, context, snapshot, now);
      if Preliminary(trust, cmd).Some? { PreliminaryStops(trust, cmd); }
      var refusal := ValidateCandidateReviewSubject(trust.world, subject, context, now);
      if refusal.Some? { return Verdict(false, refusal.value); }
      verdict := Review(cmd, subject, Some(subject.candidate.pkg), snapshot, now);
    }

    /** The transaction shared by the two review checks. */
    method Review(ghost cmd: Command, subject: Subject, pkg: Option<Package>, snapshot: SignedArtifact, now: int) returns (verdict: Verdict)
      requires Valid() && Preliminary(trust, cmd).None? && EventOf(cmd) == ArtifactEvent(now, snapshot, None)
      requires forall p :: Finish(trust, p, cmd) == FinishReview(trust, p, subject, pkg, snapshot, now)
      modifies store, store.file
      ensures Effect(cmd, verdict)
    {
      hide Outcome, FinishReview, Finish, Preliminary, Holds, Decodes, Step, Replay,
        SqlitePolicyHistoryStore.InTransaction, Extended;
      var e := ArtifactEvent(now, snapshot, None);
      var projection, history, observed, js := Enter();
      if projection == null {
        EffectWhenUnavailable(cmd);
        return UNAVAILABLE;
      }
      StepUnfolds(trust, history, cmd);
      var refusal, after := Record(projection, e, observed, history, js);
      if refusal.Some? {
        store.Rollback(after);
        verdict := Verdict(false, refusal.value);
      } else {
        ghost var p := projection.State();
        var finished := Conclude(projection, subject, pkg, snapshot, now);
        assert finished == Finish(trust, p, cmd).1;
        match finished {
          case Threw(reason) =>
            store.Rollback(after);
            verdict := Verdict(false, reason);
          case Done(answer) =>
            store.Commit(after);
            verdict := answer;
        }
      }
      OneLog(trust.world, store.config, old(store.file.rows), old(store.file.meta), history);
    }

    method Conclude(projection: Projection, subject: Subject, pkg: Option<Package>, snapshot: SignedArtifact, now: int) returns (finished: Finished)
      requires projection.Valid() && projection.trust == trust
      modifies projection.verifier
      ensures (projection.State(), finished) == FinishReview(trust, old(projection.State()), subject, pkg, snapshot, now)
    {
      hide Judge, Refusal, Recheck;
      var binding := SubjectDigest(subject);
      if binding in projection.rejected { return Done(Verdict(false, ReviewRejected)); }
      var refusal, records := Reverify(projection.verifier, projection.reviews, projection.order, binding, now);
      if refusal.Some? { return Threw(refusal.value); }
      refusal := projection.verifier.Check(snapshot, SnapshotKind, now, NO_HASH);
      if refusal.Some? { return Threw(refusal.value); }
      var s := snapshot.unsigned.payload.snapshot;
      finished := JudgeRecords(subject, pkg, records, s, ReceiptFor(trust, s, now));
    }

    /** One stored review: passed over when it is about another subject, otherwise verified again. */
    method ReverifyOne(verifier: InMemoryPolicyVerifier, ghost start: VState, reviews: map<string, SignedArtifact>,
                       order: seq<string>, i: nat, binding: Digest, now: int, before: seq<ReviewRecord>)
      returns (refusal: Option<Reason>, records: seq<ReviewRecord>)
      requires verifier.trust == trust && i < |order|
      requires (verifier.State(), None) == Recheck(trust, start, StoredFor(reviews, order[..i], binding), binding, now)
      requires before == RecordsIn(StoredFor(reviews, order[..i], binding))
      modifies verifier
      ensures (verifier.State(), refusal) == Recheck(trust, start, StoredFor(reviews, order[..i + 1], binding), binding, now)
      ensures refusal.None? ==> records == RecordsIn(StoredFor(reviews, order[..i + 1], binding))
    {
      hide Verify, Refusal, StoredFor, Recheck;
      RecheckNext(trust, start, reviews, order, i, binding, now);
      if order[i] !in reviews || !IsFor(reviews[order[i]], binding) { return None, before; }
      refusal := verifier.Check(reviews[order[i]], ReviewKind, now, binding);
      records := before + [reviews[order[i]].unsigned.payload.record];
    }

    /** The loop over the stored reviews. */
    method Reverify(verifier: InMemoryPolicyVerifier, reviews: map<string, SignedArtifact>, order: seq<string>, binding: Digest, now: int)
      returns (refusal: Option<Reason>, records: seq<ReviewRecord>)
      requires verifier.trust == trust
      modifies verifier
      ensures (verifier.State(), refusal) == Recheck(trust, old(verifier.State()), StoredFor(reviews, order, binding), binding, now)
      ensures refusal.None? ==> records == RecordsIn(StoredFor(reviews, order, binding))
    {
      ghost var start := verifier.State();
      records := [];
      for i := 0 to |order|
        invariant (verifier.State(), None) == Recheck(trust, start, StoredFor(reviews, order[..i], binding), binding, now)
        invariant records == RecordsIn(StoredFor(reviews, order[..i], binding))
      {
        refusal, records := ReverifyOne(verifier, start, reviews, order, i, binding, now, records);
        if refusal.Some? {
          RecheckStops(trust, start, reviews, order, i + 1, binding, now);
          return;
        }
      }
      assert order[..|order|] == order;
      refusal := None;
    }

    /** What a finished command has done to the file and what it answers. */
    twostate predicate Effect(cmd: Command, verdict: Verdict)
      reads this, store, store.file
    {
      && (forall h | old(Ready(h)) :: Ready(Step(trust, h, cmd).0) && verdict == Step(trust, h, cmd).1)
      && ((forall h :: !old(Ready(h))) ==>
            Untouched() && verdict == (if Preliminary(trust, cmd).Some? then Verdict(false, Preliminary(trust, cmd).value) else UNAVAILABLE))
    }

    twostate lemma EffectWhenUnavailable(cmd: Command)
      requires Untouched() && Preliminary(trust, cmd).None?
      requires forall h | old(Ready(h)) :: Replay(trust, h).None?
      ensures Effect(cmd, UNAVAILABLE)
    {
      hide Preliminary, Stands, Outcome, Finish;
    }
  }

  /** Past its contract, a candidate review is accepted like any review. */
  lemma SubmittedAsReview(t: Trust, cmd: Command)
    requires cmd.AcceptCandidate? && Preliminary(t, cmd).None?
    ensures forall h :: Step(t, h, cmd) == Step(t, h, AcceptEvent(EventOf(cmd)))
  {}

  lemma StoredGrows(reviews: map<string, SignedArtifact>, order: seq<string>, i: nat, binding: Digest)
    requires i < |order|
    ensures StoredFor(reviews, order[..i + 1], binding)
         == if order[i] in reviews && IsFor(reviews[order[i]], binding)
            then StoredFor(reviews, order[..i], binding) + [reviews[order[i]]]
            else StoredFor(reviews, order[..i], binding)
  {
    assert order[..i + 1][..i] == order[..i];
  }

  lemma RecheckNext(t: Trust, v: VState, reviews: map<string, SignedArtifact>, order: seq<string>, i: nat, binding: Digest, now: int)
    requires i < |order| && Recheck(t, v, StoredFor(reviews, order[..i], binding), binding, now).1.None?
    ensures var before, after := StoredFor(reviews, order[..i], binding), StoredFor(reviews, order[..i + 1], binding);
      if order[i] in reviews && IsFor(reviews[order[i]], binding) then
        && Recheck(t, v, after, binding, now) == Verify(t, Recheck(t, v, before, binding, now).0, reviews[order[i]], ReviewKind, now, binding)
        && RecordsIn(after) == RecordsIn(before) + [reviews[order[i]].unsigned.payload.record]
      else after == before
  {
    hide Verify, StoredFor, Recheck, RecordsIn;
    StoredGrows(reviews, order, i, binding);
    if order[i] in reviews && IsFor(reviews[order[i]], binding) {
      var before, a := StoredFor(reviews, order[..i], binding), reviews[order[i]];
      RecheckSnoc(t, v, before, a, binding, now);
      RecordsGrow(before, a);
    }
  }

  lemma RecordsGrow(before: seq<SignedArtifact>, a: SignedArtifact)
    requires (forall x | x in before :: x.unsigned.payload.ReviewPayload?) && a.unsigned.payload.ReviewPayload?
    ensures forall x | x in before + [a] :: x.unsigned.payload.ReviewPayload?
    ensures RecordsIn(before + [a]) == RecordsIn(before) + [a.unsigned.payload.record]
  {}

  lemma RecheckSnoc(t: Trust, v: VState, before: seq<SignedArtifact>, a: SignedArtifact, binding: Digest, now: int)
    requires Recheck(t, v, before, binding, now).1.None?
    ensures Recheck(t, v, before + [a], binding, now) == Verify(t, Recheck(t, v, before, binding, now).0, a, ReviewKind, now, binding)
  {
    hide Verify;
    assert (before + [a])[..|before|] == before;
  }

  /** A refusal among the first ids is the refusal of the whole list. */
  lemma {:induction false} RecheckStops(
      t: Trust, v: VState, reviews: map<string, SignedArtifact>, order: seq<string>, i: nat, binding: Digest, now: int)
    requires i <= |order| && Recheck(t, v, StoredFor(reviews, order[..i], binding), binding, now).1.Some?
    ensures Recheck(t, v, StoredFor(reviews, order, binding), binding, now)
         == Recheck(t, v, StoredFor(reviews, order[..i], binding), binding, now)
    decreases |order| - i
  {
    if i == |order| {
      assert order[..i] == order;
    } else {
      var before, after := StoredFor(reviews, order[..i], binding), StoredFor(reviews, order[..i + 1], binding);
      StoredGrows(reviews, order, i, binding);
      if after != before {
        assert after[..|after| - 1] == before;
      }
      RecheckStops(t, v, reviews, order, i + 1, binding, now);
    }
  }

  method JudgeRecords(subject: Subject, pkg: Option<Package>, records: seq<ReviewRecord>, s: Snapshot, receipt: SnapshotReceipt)
    returns (finished: Finished)
    ensures finished == Judge(subject, pkg, records, s, receipt)
  {
    if pkg.None? {
      var reviewed := CheckScopedReview(subject, records, s, receipt);
      return Done(reviewed);
    }
    var package := pkg.value;
    var mayRead := All(subject.audience, (a: string) => ActorMayReadSources(subject, a, package, s, receipt));
    if !mayRead { return Threw(AudienceEvidenceAccessDenied); }
    var reviewed := CheckScopedReview(subject, Filter(records, EligibilityTest(subject, package, s, receipt)), s, receipt);
    return Done(if reviewed.yes then Verdict(true, CandidateReviewCompleteNotReleaseAuthority) else reviewed);
  }

  lemma DecodedPrefix(w: World, js: seq<CanonicalJson.Json>, i: nat, h: seq<Event>)
    requires i < |js| && Decodes(w, js[..i], h)
    ensures forall g | Decodes(w, js, g) :: w.eventOf(js[i]) == Some(g[i]) && g[..i] == h && g[..i + 1] == h + [g[i]]
  {
    OneDecoding(w, js[..i], h);
    forall g | Decodes(w, js, g) ensures w.eventOf(js[i]) == Some(g[i]) && g[..i] == h && g[..i + 1] == h + [g[i]] {
      assert Decodes(w, js[..i], g[..i]);
    }
  }

  lemma BrokenLog(t: Trust, h: seq<Event>, i: nat)
    requires i <= |h| && Replay(t, h[..i]).None?
    ensures Replay(t, h).None?
  {
    if Replay(t, h).Some? { ReplayPrefix(t, h, i); }
  }
}
