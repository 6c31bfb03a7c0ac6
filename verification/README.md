# Policy-review engine: a verified model

The engine in `scripts/review-policy/` decides, as a simulation, whether a requester may read a resource and
whether an answer has been reviewed by enough independent people. Signed policy snapshots and signed review
records enter an append-only, hash-chained log. Every operation opens the log under an exclusive lock, rebuilds
a projection from all of it, accepts one event, answers, and commits or rolls back. This project models that
engine layer by layer, with the candidate contract, the canonical JSON and the execution lifecycle it rests on,
and proves what the layers guarantee together over every run.

How the files follow the program:

| file | models |
|---|---|
| `PolicyTypes.dfy` | snapshots, records, packages, envelopes, events, the draft policy matrix, schema predicates |
| `Evaluation.dfy` | `simulate.ts`: clearances, access, the greedy choice of reviewers |
| `Boundary.dfy`, `BoundaryTheorems.dfy` | `boundary.ts`: scope, denials, audience, scoped review, and their declarative meaning |
| `Verifier.dfy` | `verifier.ts`: the stateful signature verifier |
| `Projections.dfy`, `LogTheorems.dfy`, `Admission.dfy` | class `Projection` of `durable-boundary.ts`: what every replayable log keeps true, and exactly which logs replay |
| `HistoryStore.dfy` | `history-store.ts`: rows of JSON text, the hash chain and the transaction of one connection |
| `EventLog.dfy`, `EncodedLog.dfy` | the events those rows stand for, and which edits of rows go unnoticed |
| `Processes.dfy` | many processes on one file, interleaved and crashing anywhere |
| `CandidateReview.dfy`, `CandidateTheorems.dfy` | `candidate-review.ts` and `runtime/answers/candidate.ts` |
| `Durable.dfy` | class `DurablePolicySimulation`: the commands |
| `DurableTheorems.dfy`, `ReviewSafety.dfy` | runs of commands: replay, soundness, permanence |
| `CommandAnswers.dfy` | exactly when each command says yes, as a condition on the logged events |
| `SignedBoundary.dfy` | `signed-boundary.ts` and its comparison with the durable check |
| `Workbench.dfy` | `workbench.ts` over `workbench-fixture.ts`: submissions against a seen revision |
| `CanonicalJson.dfy`, `CanonicalTheorems.dfy`, `JsonReader.dfy` | canonical JSON text, a reader of JSON text (RFC 8259, sections 2 to 7), and what the store asks of `JSON.parse` |
| `JsonEncoding.dfy`, `EncodedValues.dfy`, `EncodedSubjects.dfy` | snapshots, records, envelopes, events, packages, subjects and keys as JSON |
| `ExecutionReplay.dfy` | `runtime/executionLifecycle.ts`, `runtime/replay.ts` |

Objects whose methods update fields are classes with those fields; each method is tied to a specification
function (`Verify`, `Outcome`, `Step`, `SignedReview`, `Submit`), and the theorems are about those functions.

Digests are a free datatype with one constructor per kind of value that is hashed, so equal digests mean equal
values. That is the usual assumption about SHA-256 for one half; the other half, that canonical text determines
the value, is the program's own and is proved: for JSON in `CanonicalTheorems`, and in `EncodedValues`,
`EncodedSubjects` and `EncodedLog` for the values that are hashed. Signature checking is an arbitrary predicate
of public key, unsigned envelope and signature. `JSON.parse` is any function that reads back what
`JSON.stringify` prints and returns no object with a key twice. The commands ask one thing of the world,
`EventLog.ReadsEvents`: a JSON value is used as an event exactly when it is that event's own up to key order.
`EncodedLog.EventsCanBeRead` shows that this is what reading events means once no two digests are spelled alike.

Where the behaviour is not what one might expect, the model follows the code:

- The chain check does not notice every edit of the file. A row's text is parsed before it is hashed, so another
  spelling of the same event (white space, escapes, the order of keys) passes.
  `HistoryStore.EditedTableOpensIff` gives the exact condition, `EncodedLog.EveryRowCanBeRespelled` an unnoticed
  edit of any row, and `EventLog.EditedLogIsTheSameLog` shows that what passes is still the same log.
- Applying an event is not failure-atomic: a review that is refused for an identity conflict has already moved
  the verifier's revision mark and clock. `Projections.RefusalIsAtomicIff` says exactly when that is visible and
  `Projections.RefusedReviewMovesTheVerifier` gives a log where it is; the log stays sound because every refused
  command throws its projection away.
- The greedy choice of reviewers can miss a panel that exists. `Evaluation.ReleaseReviewMissesAPanel` is such an
  input; `Evaluation.ChoiceIsExact` and `CommandAnswers.DurableReviewIsExact` show why it cannot happen on the log.
- Revocations advance the projection's clock but not the verifier's, so the durable check can refuse a time at
  which a caller-list check on the same verifier state completes
  (`SignedBoundary.RevocationsMoveOnlyTheDurableClock`).
- The durable check completes exactly when the caller-list check completes and none of four things stops it: the
  subject is a candidate package, the time is before the last event, the store is full and does not hold the
  snapshot's event (`SignedBoundary.FullStore`), or a rejection, superseded by now, is in the log
  (`SignedBoundary.DurableCompletesIff`).

## Model

| member | source | states |
|---|---|---|
| Evaluation.SimulateReleaseReview | scripts/review-policy/simulate.ts:96-128 | the loop over the required roles, which grows the set of used reviewers, answers as the recursive greedy choice does, reason included |
| Evaluation.ChoiceIsPanel | scripts/review-policy/simulate.ts:110-126 | on every list of records a successful choice is a panel: one passing record per role, no reviewer twice |
| Evaluation.ChoiceIsExact | scripts/review-policy/simulate.ts:110-126 | when no reviewer has two records the choice succeeds if and only if every role has a passing record, whatever the order |
| Evaluation.GreedyWithTwoRoles | scripts/review-policy/simulate.ts:110-126 | on any list, with two roles, it succeeds if and only if another reviewer than the first one picked passes for the second role |
| Evaluation.GreedyCanMissAPanel | scripts/review-policy/simulate.ts:112-124 | for any test: whenever one reviewer's two records come first, the choice fails although the list contains a panel |
| Evaluation.ReleaseReviewMissesAPanel | scripts/review-policy/simulate.ts:96-128 | a governance context, subject and three records with distinct ids that contain a panel and are answered with QUALIFIED_REVIEW_REQUIRED |
| Evaluation.ReviewerRolesDistinct | scripts/review-policy/policy.ts:19-23 | every mode requires one or two different reviewer roles |
| Boundary.CheckAudience | scripts/review-policy/boundary.ts:86-88 | the audience loop is true exactly when every recipient has scoped read access |
| Boundary.CheckScopedReview | scripts/review-policy/boundary.ts:74-95 | the method with its overwritten clearances equals the specification, whose answers BoundaryTheorems.ScopedReviewIff and RequesterDenialIff state over the fields of the snapshot |
| BoundaryTheorems.AccessIffGrantedAndNotDenied | scripts/review-policy/boundary.ts:47-72 | scoped access permits if and only if request and snapshot are valid and one declarative condition over the fields holds: in scope, every denial misses the request in some list ("*" stands for all names), and the actor holds a grant issued by another, mandated administrator |
| BoundaryTheorems.SnapshotCheckIff | scripts/review-policy/boundary.ts:39-46 | a snapshot passes if and only if it is well formed, of this draft policy, repeats no id in any list, is the very snapshot the receipt is for, and is in its lifetime |
| BoundaryTheorems.ExplicitDenialIff | scripts/review-policy/boundary.ts:47-69 | past request, snapshot and scope the answer is EXPLICIT_DENIAL if and only if some denial has "*" or the request's value in each of its five lists of names, and the request's mode and operation in theirs; without one it is UNKNOWN_PRINCIPAL_OR_RESOURCE if and only if nobody has the actor's id |
| BoundaryTheorems.AccessReasons | scripts/review-policy/simulate.ts:48-58 | in scope, undenied and known, the answer names the first that fails of protection, domains, class and operation of the mode, roles of the mode, and a grant in one of them |
| BoundaryTheorems.NewGrantsNeverRevokeAccess | scripts/review-policy/simulate.ts:25-59 | a snapshot with further grants permits whatever the smaller one permits |
| BoundaryTheorems.NewDenialsNeverGrantAccess | scripts/review-policy/boundary.ts:48-52 | a snapshot with further denials permits nothing the smaller one refuses |
| BoundaryTheorems.NewDenialsNeverCompleteAReview | scripts/review-policy/boundary.ts:90-93 | further denials never complete an incomplete review, although the greedy choice is not monotone in general |
| BoundaryTheorems.ChoiceShrinks | scripts/review-policy/simulate.ts:110-126 | with at most two roles, removing people as a whole never turns a failed greedy choice into a success |
| BoundaryTheorems.QualificationMeaning | scripts/review-policy/simulate.ts:113-123 | the reviewer test with its lookups and filtered clearances says the same as the declarative Eligible |
| BoundaryTheorems.CompleteReviewStands | scripts/review-policy/boundary.ts:74-95 | a complete scoped review has a panel of distinct, eligible reviewers, readers for every recipient and no rejection |
| BoundaryTheorems.ScopedReviewIff | scripts/review-policy/boundary.ts:74-95 | on every list of records a scoped review is complete if and only if inputs are valid, it is under the draft policy and in scope, every recipient may read, no denial covers the requester, no record rejects, and the first record that serves the first role leaves somebody else for the second; a reviewer whom a denial covers serves no role |
| BoundaryTheorems.RequesterDenialIff | scripts/review-policy/boundary.ts:84-89 | past contract, snapshot, scope and readers a review is answered EXPLICIT_DENIAL if and only if some denial covers the requester |
| BoundaryTheorems.ReviewerCanReadSourcesIff | scripts/review-policy/boundary.ts:98-113 | a reviewer may read the sources if and only if the snapshot is valid, the record's role is held in the domain and asked for by the mode, and every resource is reachable, not denied and granted in that role |
| Verifier.AcceptedIff | scripts/review-policy/verifier.ts:57-97 | an artifact is accepted if and only if the clock admits it, it is genuine (its key is pinned for this kind, its payload says what the envelope says), unrevoked, in its lifetime and its revision is new or repeats the marked content |
| Verifier.RefusalReasons | scripts/review-policy/verifier.ts:60-71 | the reason names the first condition that fails; past clock, shape and organization it is UNTRUSTED_SIGNER if and only if the key is unknown or its purposes lack the kind |
| Verifier.RevisionReasons | scripts/review-policy/verifier.ts:87-94 | a genuine, timely artifact is refused only below the mark (rollback) or at it with other content (conflict) |
| Verifier.RecheckFailsOnlyByRevocationOrExpiry | scripts/review-policy/verifier.ts:57-97 | verifying again something whose mark still stands gives each of the three lapse reasons exactly when it applies, and moves nothing at an unchanged clock |
| Verifier.BuildTrust | scripts/review-policy/verifier.ts:40-51 | the key loop accepts exactly the well-formed configurations with distinct ids, and the table then lists exactly the given keys |
| Verifier.TrustDigestIgnoresOrder | scripts/review-policy/durable-boundary.ts:11-13 | sorting by id makes the digest of keys with distinct ids the same exactly for the same set of keys |
| Verifier.TrustDigestDeterminesKeys | scripts/review-policy/durable-boundary.ts:11-13 | key lists with one trust digest make the same verifier |
| Verifier.InMemoryPolicyVerifier.RevokeKey | scripts/review-policy/verifier.ts:52 | the key joins the revoked ones and nothing else changes |
| Verifier.InMemoryPolicyVerifier.RevokeArtifact | scripts/review-policy/verifier.ts:53-55 | the artifact joins the revoked ones and nothing else changes |
| Verifier.InMemoryPolicyVerifier.Check | scripts/review-policy/verifier.ts:57-97 | the method moves the state and answers as Verify, whose acceptance and reasons are AcceptedIff and RefusalReasons: a refusal leaves mark and clock alone, acceptance sets both |
| Projections.Projection.Apply | scripts/review-policy/durable-boundary.ts:29-62 | new state and refusal of one event, including the part of a refused event that stays behind; which events are admitted is Admission.AdmittedIff |
| Projections.RevocationAdmittedIff | scripts/review-policy/durable-boundary.ts:51-61 | in every state a revocation is admitted if and only if its time is a safe natural number not before the state's and its id is not empty; then the key, or the artifact of that kind, is revoked and only the clock moves besides |
| Projections.RefusalIsAtomicIff | scripts/review-policy/durable-boundary.ts:30-46 | a refused event leaves the state alone unless, seen from the state before it, the verifier accepts the review, its identity is taken, and it is not what the verifier saw last at this time |
| Projections.RefusedReviewMovesTheVerifier | scripts/review-policy/durable-boundary.ts:41-46 | a log of one review and a second one by the same reviewer on the same subject, whose refusal is not atomic |
| Projections.ConflictWouldBlockEarlierRevisions | scripts/review-policy/durable-boundary.ts:41-46 | a projection kept after an identity conflict would refuse as rollback what it would have accepted before |
| Projections.ReplayPrefix | scripts/review-policy/durable-boundary.ts:77-80 | every event of a replayable log was admitted by the state of the log before it |
| Projections.LogInvariant | scripts/review-policy/durable-boundary.ts:21-63 | every replayable log keeps: event times, marks over genuine artifacts, mutually inverse identity maps, each stored review at its stream's latest digest, the rejection set and the revocation sets exactly as logged |
| Projections.AdmittedArtifact | scripts/review-policy/durable-boundary.ts:32-50 | what an artifact must satisfy to enter the log and the whole change it makes |
| LogTheorems.StreamsNeverGoBack | scripts/review-policy/verifier.ts:87-94 | along a log times never fall, on a stream revisions never fall, and equal revisions are equal unsigned content |
| LogTheorems.AtMostOneContentPerRevision | scripts/review-policy/verifier.ts:91-92 | a log holds at most one content for a revision of a stream |
| LogTheorems.OneRecordIdPerReviewerAndSubject | scripts/review-policy/durable-boundary.ts:44-47 | across the whole log two reviews have one record id if and only if they have one reviewer and one subject |
| LogTheorems.EverythingIsLogged | scripts/review-policy/durable-boundary.ts:29-62 | every mark and every identity comes from a logged artifact |
| LogTheorems.RevocationsKeepArtifactsOut | scripts/review-policy/verifier.ts:67-68 | after a logged revocation no artifact under that key or id is logged |
| LogTheorems.ContinuationsKeepRejectionsAndRevocations | scripts/review-policy/durable-boundary.ts:49-59 | rejections and revocations only grow along continuations |
| LogTheorems.SimilarStep | scripts/review-policy/durable-boundary.ts:29-62 | states equal up to the signatures of stored reviews give equal answers and stay so |
| LogTheorems.RepeatedEventChangesNothing | scripts/review-policy/durable-boundary.ts:81-85 | a logged event that is admitted again changes at most a stored signature |
| LogTheorems.DedupIsInvisible | scripts/review-policy/durable-boundary.ts:73-87 | rebuilding from the deduplicated log gives the state reached by applying every accepted event, up to signatures |
| Admission.AdmittedIff | scripts/review-policy/durable-boundary.ts:29-62 | a replayable log admits an event if and only if it is admissible to the logged events: not before any of them, and an artifact genuine, current, under no logged revocation, above or equal to every logged content of its stream and true to the logged identities |
| Admission.ReplaysIff | scripts/review-policy/durable-boundary.ts:75-80 | a log replays if and only if each of its events is admissible to those before it |
| Admission.LoggedKeysMaySign | scripts/review-policy/verifier.ts:65-66 | every logged snapshot is under a pinned key with the purpose snapshot, every logged review under one with the purpose review held by its reviewer |
| HistoryStore.ChainDeterminesHistory | scripts/review-policy/history-store.ts:62-95 | chain digests are equal if and only if organization and trust digest are and the events are the same JSON values up to key order |
| HistoryStore.EditedTableOpensIff | scripts/review-policy/history-store.ts:77-87 | under unchanged metadata a changed table opens if and only if sequence and digest columns are unchanged and every payload parses to the same value as before up to key order |
| HistoryStore.SwappedKeysAreAccepted | scripts/review-policy/history-store.ts:80-86 | an edited row that is accepted: two keys of its text have changed places |
| EventLog.EditedLogIsTheSameLog | scripts/review-policy/history-store.ts:77-87 | rows that still open under the same metadata stand for the same log of events |
| EncodedLog.EveryRowCanBeRespelled | scripts/review-policy/history-store.ts:80-86 | every row of every log has another text that opens to the same log |
| EncodedLog.EventsCanBeRead | scripts/review-policy/history-store.ts:81 | without digest collisions there is exactly one way to read JSON as events, and it meets what the commands ask |
| EncodedLog.LinkTextDetermines | scripts/review-policy/history-store.ts:83-95 | the text hashed for a link determines, and is determined by, previous digest, sequence number and canonical event |
| HistoryStore.SqlitePolicyHistoryStore.Begin | scripts/review-policy/history-store.ts:67-87 | a transaction opens exactly when the store is free and the file stands for a history, and returns that history |
| HistoryStore.SqlitePolicyHistoryStore.Append | scripts/review-policy/history-store.ts:92-98 | an event is added to the working copy unless the store holds 10,000 |
| HistoryStore.SqlitePolicyHistoryStore.Commit | scripts/review-policy/history-store.ts:101-103 | the file then stands for the extended history |
| HistoryStore.SqlitePolicyHistoryStore.Rollback | scripts/review-policy/history-store.ts:105-108 | the file keeps what was committed |
| Processes.EveryInterleavingIsSerial | scripts/review-policy/history-store.ts:67-109 | in every interleaving with crashes anywhere the file stands for one replayable log without repetition, of at most 10,000 events, and that log is what the transactions that committed, in commit order, produce one after the other |
| Processes.CommittedNeverChanges | scripts/review-policy/history-store.ts:101-108 | what is committed stays in its place, and without a commit rows and metadata stay as they are |
| Processes.OneContentPerRevisionEver | scripts/review-policy/verifier.ts:91-92 | of two contents for one revision of one stream at most one is ever committed, by whichever process |
| Processes.InterleavedCommandsAreARun | scripts/review-policy/durable-boundary.ts:73-183 | commands issued by interleaved, crashing processes leave the log and get the answers of one run of the answered commands in the order of their answers |
| CandidateReview.ValidateAnswerCandidate | runtime/answers/candidate.ts:53-77 | the checks and both evidence loops equal the specification, in which receipts have distinct ids, references have distinct ids and every reference is a receipt |
| CandidateReview.FillReceipts | runtime/answers/candidate.ts:65-69 | the receipt map exists exactly when ids are distinct, and then is that map |
| CandidateReview.CheckReferences | runtime/answers/candidate.ts:70-74 | true exactly when ids are distinct and every reference matches its receipt |
| CandidateReview.CoverSpan | scripts/review-policy/candidate-review.ts:80-82 | the offset loop adds the whole span, or stops at an offset covered already |
| CandidateReview.CheckClaims | scripts/review-policy/candidate-review.ts:76-92 | the nested claim loops give the first refusal, the covered offsets and the cited sources |
| CandidateReview.ValidateCandidateReviewSubject | scripts/review-policy/candidate-review.ts:42-97 | the whole check equals its specification, reason by reason; what acceptance means is CandidateTheorems.CandidateAcceptedIff |
| CandidateTheorems.CandidateAcceptedIff | scripts/review-policy/candidate-review.ts:42-97 | accepted if and only if the answer is what input decision, active manifest, invocation and its text hash say, context and times fit, the four source lists are one set of sources of the subject's scope whose texts are the hashed ones, and the claims cover the answer exactly, point into the sources and cite each of them |
| CandidateTheorems.CoverageIff | scripts/review-policy/candidate-review.ts:74-93 | the walk succeeds if and only if spans are in range with ink, supports are sound, and every offset with ink is covered exactly once and no offset twice |
| CandidateTheorems.CoverageIgnoresOrder | scripts/review-policy/candidate-review.ts:77-93 | the result does not depend on the order of the claims |
| CandidateTheorems.SourceListsAgree | scripts/review-policy/candidate-review.ts:58-72 | on acceptance package sources, references and both receipt lists are one map from source id to content hash |
| CandidateTheorems.EverySourceIsCited | scripts/review-policy/candidate-review.ts:84-94 | on acceptance the cited sources are exactly the package's sources |
| CandidateTheorems.CompleteAssessmentChecksEveryClaim | scripts/review-policy/candidate-review.ts:115-135 | a complete assessment checks each claim id exactly once and finds it supported |
| CandidateTheorems.BoundAssessmentIff | scripts/review-policy/candidate-review.ts:115-127 | an assessment is bound if and only if it names this package and answer, was signed after answer and sources, and checks distinct claims of the package |
| CandidateTheorems.CompleteAssessmentIff | scripts/review-policy/candidate-review.ts:128-135 | on distinct claims it is complete if and only if besides it approves with every flag and complete coverage and has a supporting check for every claim |
| Durable.DurablePolicySimulation.Open | scripts/review-policy/durable-boundary.ts:68-72 | opens exactly for a good key configuration whose digest is the store's |
| Durable.DurablePolicySimulation.Rebuild | scripts/review-policy/durable-boundary.ts:75-80 | the replay loop gives the log's state and the set of its events, or fails exactly when the log does not replay |
| Durable.DurablePolicySimulation.Accept | scripts/review-policy/durable-boundary.ts:89-102 | log and answer move as Step; a refused event leaves the file as it was |
| Durable.DurablePolicySimulation.AcceptCandidateReview | scripts/review-policy/durable-boundary.ts:103-117 | the candidate contract is checked before the store is opened; a rejection needs no assessment |
| Durable.DurablePolicySimulation.CheckAccess | scripts/review-policy/durable-boundary.ts:123-134 | log and answer move as Step, whose answer is CommandAnswers.AccessIff |
| Durable.DurablePolicySimulation.CheckReview | scripts/review-policy/durable-boundary.ts:136-138 | log and answer move as Step; package subjects are sent to the candidate form |
| Durable.DurablePolicySimulation.CheckCandidateReview | scripts/review-policy/durable-boundary.ts:139-143 | log and answer move as Step |
| Durable.DurablePolicySimulation.Reverify | scripts/review-policy/durable-boundary.ts:156-162 | the loop over stored reviews verifies those of the subject one after the other and stops at the first refusal |
| Durable.DurablePolicySimulation.Conclude | scripts/review-policy/durable-boundary.ts:153-178 | rejection, stored reviews, snapshot, audience, eligibility and review, in the code's order |
| DurableTheorems.StepKeepsLog | scripts/review-policy/durable-boundary.ts:73-87 | a command leaves the log alone or adds its one event, and the log still replays |
| DurableTheorems.RunKeepsLog | scripts/review-policy/durable-boundary.ts:73-87 | over every run rebuilding never fails and the log only grows |
| DurableTheorems.RecheckFailsOnlyByLapse | scripts/review-policy/durable-boundary.ts:156-164 | during a check a stored review fails exactly when it lapsed, with a lapse reason, and the second verification of the snapshot never fails |
| DurableTheorems.RebuildingIsCarryingForward | scripts/review-policy/durable-boundary.ts:73-87 | every run answers exactly as one state carried forward in which refused commands have no effect and repeated events are applied again |
| ReviewSafety.CompletedReviewIsSound | scripts/review-policy/durable-boundary.ts:144-183 | a completed review in any reachable state has distinct, independent reviewers per role with logged, unsuperseded, unrevoked, unexpired approvals and mandated clearances, readers for every recipient, and no logged rejection |
| ReviewSafety.CompletedCandidateReviewIsSound | scripts/review-policy/durable-boundary.ts:139-177 | and for a candidate: an acceptable package whose answer and source texts are the hashed ones, complete assessments, and source access for reviewers and recipients |
| ReviewSafety.RejectionIsForever | scripts/review-policy/durable-boundary.ts:153-155 | after a logged rejection no continuation whatever completes that subject |
| ReviewSafety.RevokedKeyIsForever | scripts/review-policy/verifier.ts:67 | after a logged revocation no continuation logs or accepts an artifact under that key |
| ReviewSafety.RevokedArtifactIsForever | scripts/review-policy/verifier.ts:68 | the same for a revoked artifact |
| CommandAnswers.AcceptIff | scripts/review-policy/durable-boundary.ts:89-102 | an event is recorded if and only if it is admissible to the log and the store of 10,000 holds it already or has room; the log then holds it once and is otherwise as it was |
| CommandAnswers.RevocationIsRecorded | scripts/review-policy/durable-boundary.ts:119-122 | a revocation with an id, not before the log's times, is recorded below the capacity, and nothing it covers enters any continuation |
| CommandAnswers.AcceptCandidateIff | scripts/review-policy/durable-boundary.ts:103-117 | a candidate's review is recorded if and only if the candidate is acceptable, the record rejects or its assessment is bound, and the event enters under the subject's hash |
| CommandAnswers.AccessIff | scripts/review-policy/durable-boundary.ts:123-134 | the durable access check permits if and only if the snapshot's event enters, the request is well formed and the snapshot grants it without a denial; the log gains the event exactly when it enters |
| CommandAnswers.DurableReviewIsExact | scripts/review-policy/durable-boundary.ts:144-179 | on every log a review completes if and only if the subject is valid and no package, the snapshot's event enters, no rejection is logged and every current review still stands, scope, resource, recipients and requester pass, and among at most 256 current records every required role has an eligible one; whatever the answer, the event is kept unless a current review has lapsed |
| CommandAnswers.DurableCandidateReviewIsExact | scripts/review-policy/durable-boundary.ts:139-177 | the same for an acceptable candidate, with source access for every recipient and over the records that assess it completely by reviewers who may read its sources |
| SignedBoundary.CheckSignedAccess | scripts/review-policy/signed-boundary.ts:6-10 | verifier state and answer as specified |
| SignedBoundary.SignedAccessIff | scripts/review-policy/signed-boundary.ts:6-10 | it permits if and only if the verifier accepts the snapshot, the request is well formed and the snapshot grants it; the verifier moves exactly when it accepts |
| SignedBoundary.CheckSignedReview | scripts/review-policy/signed-boundary.ts:12-27 | verifier state and answer as specified: batch limit, snapshot, records one by one, scoped review |
| SignedBoundary.DurableAgreesWithCallerList | scripts/review-policy/signed-boundary.ts:12-27 | without a logged rejection the durable check gives the caller-list answer, reason included |
| SignedBoundary.DurableCompletesIff | scripts/review-policy/durable-boundary.ts:144-179 | on every log it completes if and only if the caller-list check does and neither a package, an earlier time, a full store nor a logged rejection stops it; what stops it is its answer |
| SignedBoundary.FullStore | scripts/review-policy/history-store.ts:94 | a full store that lacks the snapshot's event stops the durable check and not the caller-list check |
| SignedBoundary.LongListsFail | scripts/review-policy/signed-boundary.ts:15 | more than 256 stored records of a subject complete neither check |
| SignedBoundary.DurableClock | scripts/review-policy/durable-boundary.ts:30-31 | before the time of the last logged event the durable check always refuses the clock |
| SignedBoundary.RevocationsMoveOnlyTheDurableClock | scripts/review-policy/durable-boundary.ts:54-61 | revoking at a later time a key nobody holds makes the durable check refuse where the caller-list check completes |
| Workbench.Session.GetState | scripts/review-policy/workbench.ts:76-85 | log and answer move as specified |
| Workbench.Session.SubmitReview | scripts/review-policy/workbench.ts:88-111 | log and answer move as specified: four refusals, the revision read from the log, acceptance, then the state |
| Workbench.Session.Close | scripts/review-policy/workbench.ts:112 | a closed session answers no more |
| Workbench.SubmissionOutcome | scripts/review-policy/workbench.ts:88-111 | a malformed or stale submission leaves no trace; a current one is recorded under the next revision of its reviewer unless the store is full |
| Workbench.SubmissionErrorIff | scripts/review-policy/workbench.ts:89-96 | a submission goes through if and only if it is well shaped, by a required reviewer, about this subject, has exactly one check for each claim and no other, and names the reviewer's current revision |
| Workbench.RecordedContent | scripts/review-policy/workbench.ts:97-109 | what is recorded is the submitter's own review under the next revision and says exactly what was submitted |
| Workbench.SessionsAreGapless | scripts/review-policy/workbench.ts:95-108 | in every session each reviewer's accepted submissions carry the revisions 1, 2, 3 and so on |
| Workbench.NoLostUpdate | scripts/review-policy/workbench.ts:95-96 | of all submissions of one reviewer against one revision at most one is ever accepted; later ones are refused as stale |
| Workbench.CompletedSessionIsEndorsed | scripts/review-policy/workbench.ts:76-107 | when a session reports its review complete, the newest submission of every required reviewer approves, supports every claim and clears both flags, and none was ever a rejection |
| CanonicalJson.CanonicalIsSortedPrint | scripts/review-policy/simulate.ts:78-86 | sorting keys while printing is JSON.stringify of the value with sorted keys |
| CanonicalTheorems.StringRoundTrip | scripts/review-policy/simulate.ts:79-83 | reading an escaped string gives its code units back, surrogates included |
| CanonicalTheorems.StringifyRoundTrip | scripts/review-policy/history-store.ts:81-96 | reading JSON.stringify's text gives the value back, member order included |
| JsonReader.ParseJsonReads | scripts/review-policy/history-store.ts:81 | a reader with white space, escapes and repeated keys meets what the store asks of JSON.parse |
| CanonicalTheorems.StringifyDeterminesValue | scripts/review-policy/durable-boundary.ts:44 | JSON.stringify is one-to-one, so the keys built with it stand for pairs |
| CanonicalTheorems.BeforeMeaning | scripts/review-policy/simulate.ts:78-86 | one key sorts before another if and only if it is a proper prefix or has the smaller code unit at the first difference |
| CanonicalTheorems.CanonicalRoundTrip | scripts/review-policy/simulate.ts:78-86 | reading canonical text gives the value with its keys sorted |
| CanonicalTheorems.CanonicalDeterminesValue | scripts/review-policy/simulate.ts:78-93 | two values have one canonical text if and only if they are the same value up to key order |
| EncodedValues.EventTextDetermines | scripts/review-policy/history-store.ts:8-11 | events have one canonical text if and only if they are equal |
| EncodedValues.EnvelopeTextDetermines | scripts/review-policy/verifier.ts:89 | the same for unsigned envelopes |
| EncodedValues.SnapshotTextDetermines | scripts/review-policy/verifier.ts:106 | the same for policy snapshots |
| EncodedValues.RecordTextDetermines | scripts/review-policy/simulate.ts:65-77 | the same for review records with their assessments |
| EncodedSubjects.PackageTextDetermines | scripts/review-policy/candidate-review.ts:118 | the same for candidate packages, whose texts are strings |
| EncodedSubjects.SubjectTextDetermines | scripts/review-policy/simulate.ts:87-89 | the same for review subjects |
| EncodedSubjects.KeysTextDetermines | scripts/review-policy/durable-boundary.ts:11-13 | the same for lists of trusted keys |
| ExecutionReplay.RunsAreShort | runtime/executionLifecycle.ts:13-28 | every lifecycle run ends within six transitions, and one of six exists |
| ExecutionReplay.StatusMeaning | runtime/replay.ts:18-48 | terminal statuses are those without a transition, preparation those that can still be refused |
| ExecutionReplay.TransitionIff | runtime/executionLifecycle.ts:13-28 | a transition refuses what has not started or goes exactly one stage on |
| ExecutionReplay.ReachesPlan | runtime/replay.ts:48-57 | the phase tests say exactly that an action's status reaches the plan's status by transitions |
| ExecutionReplay.AcceptedIffConsistent | runtime/replay.ts:12-62 | a replay is accepted if and only if it is consistent: distinct ids, counts that count, only proven completed actions in a completed plan, and reachability in preparation |

## Left out

- HTTP servers, command line, browser workbench, model client and file plumbing: input and output only.
- Ed25519, SHA-256 and PEM parsing are library code: a predicate on key, envelope and signature, free digest constructors, and a predicate on PEM text.
- SQLite internals, file identity and pragmas: only the exclusive writer, all-or-nothing commit and rollback on a crash.
- JSON schemas appear as datatypes with `Valid...` predicates for bounds, uniqueness and formats of digests; unknown members, wrong types and `catch` branches reached only by them do not exist in the model.
- A signed payload that is neither a snapshot nor a review record carries no decision and no assessment; the real code would read such members before the schema refuses it, which changes at most the reason.
- Dates are integers. The comparison of `Date.parse` results is the comparison of these integers.
- Texts are sequences of code points; Unicode normalisation is not used by the program and not modelled.
- Numbers in canonical JSON are integers in decimal; fractions, exponents and negative zero are not modelled.
- A row whose text is JSON with other numbers counts as unreadable. A row whose JSON is no event passes the chain check, as in the code, and is refused when the projection is rebuilt.
- The JSON of an evidence context is not written out: it contains the whole output of the input pipeline. A candidate that is no package and a payload that is neither snapshot nor record are written as one simple JSON value each.
- The callback of a store transaction is written out as Begin, Append, Commit and Rollback; its reentrancy flag is kept, its refusal of promises is not.
- `structuredClone` and protection against later edits by a caller: values are immutable here.
- The legacy output gate inside the candidate check is an arbitrary predicate of the input decision and the text.
- `[...new Set(resources)]` in the candidate check removes repetitions from lists that are only tested for all members; the model tests the list.
- Workbench.Session.SubmitReview: one session; the table of three sessions by mode and their closing are not modelled, and the generated keys are the assumption FixtureOk.
- Workbench.SessionsAreGapless: assumes FixtureOk, that is, successful preparation of the subject and signing keys that verify what their holders sign, which the fixture establishes when it is made.
- ExecutionReplay.AcceptedIffConsistent: journals are typed records; the tests for malformed journal objects are not modelled.
- `prepareCandidateReview` builds the subject whose check is modelled.
- `runtime/pipeline.ts`, `runtime/policyEngine.ts`, authority and control-plane stubs and the registries: table lookups and one-branch guards.
