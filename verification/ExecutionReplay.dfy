/** The execution lifecycle (runtime/executionLifecycle.ts) and the check of replay artifacts against it (runtime/replay.ts). */
module ExecutionReplay {
  import opened Collections
  import opened PolicyTypes
  import CandidateReview

  datatype Status =
    | NotAttempted | Proposed | Assessed | Refused | Approved | Authorized | ExecutionStarted
    | Completed | Failed | Uncertain

  function Transitions(from: Status): seq<Status> {
    match from
    case NotAttempted => [Proposed, Refused]
    case Proposed => [Assessed, Refused]
    case Assessed => [Approved, Refused]
    case Approved => [Authorized, Refused]
    case Authorized => [ExecutionStarted, Refused]
    case ExecutionStarted => [Completed, Failed, Uncertain]
    case _ => []
  }

  predicate CanTransition(from: Status, to: Status) { to in Transitions(from) }

  /** A run of the lifecycle: every step is a transition of the table. */
  ghost predicate IsRun(run: seq<Status>) {
    run != [] && forall i | 0 <= i < |run| - 1 :: CanTransition(run[i], run[i + 1])
  }

  /** How far along a status is. */
  function Stage(s: Status): nat {
    match s
    case NotAttempted => 0
    case Proposed => 1
    case Assessed => 2
    case Approved => 3
    case Authorized => 4
    case ExecutionStarted => 5
    case _ => 6
  }

  lemma {:induction false} StagesRise(run: seq<Status>)
    requires IsRun(run)
    ensures Stage(run[0]) + |run| - 1 <= Stage(run[|run| - 1])
  {
    if |run| > 1 {
      var front := run[..|run| - 1];
      assert IsRun(front);
      StagesRise(front);
      assert CanTransition(run[|run| - 2], run[|run| - 1]);
    }
  }

  /** Every run ends within six transitions, wherever it starts; a run of six exists. */
  lemma RunsAreShort(run: seq<Status>)
    requires IsRun(run)
    ensures |run| - 1 <= 6
    ensures |run| - 1 == 6 ==> run[0] == NotAttempted && run[5] == ExecutionStarted
    ensures IsRun([NotAttempted, Proposed, Assessed, Approved, Authorized, ExecutionStarted, Completed])
  {
    StagesRise(run);
    LongestRun();
    if |run| == 7 {
      assert IsRun(run[..6]);
      StagesRise(run[..6]);
      assert CanTransition(run[5], run[6]);
    }
  }

  lemma LongestRun()
    ensures IsRun([NotAttempted, Proposed, Assessed, Approved, Authorized, ExecutionStarted, Completed])
  {}

  ghost predicate Reaches(from: Status, to: Status) {
    exists run :: IsRun(run) && run[0] == from && run[|run| - 1] == to
  }

  // ---------- the check ----------

  datatype PlanJournal = PlanJournal(
    planId: string, traceId: string, authorityId: string, policySnapshotId: string, status: Status,
    uncertainty: bool, actionCount: int, terminalActionCount: int)
  datatype ActionJournal = ActionJournal(
    actionId: string, planId: string, traceId: string, authorityId: string, status: Status, outcomeProven: Option<bool>)

  datatype Fault =
    | InvalidPlanJournal | InvalidActionJournal | ContinuityMismatch | ActionCountMismatch | DuplicateActionId
    | TerminalCountMismatch | UnprovenCompletedAction | UncertaintyMismatch | IncompleteActionInCompletedPlan
    | ActionPrecedesAuthorization | AttemptedActionInRefusedPlan | RunningActionInTerminalPlan

  /** Some character is not white space. */
  predicate Nonempty(s: string) {
    exists c | c in s :: !CandidateReview.Blank(c as int)
  }

  predicate Terminal(s: Status) { s in {Completed, Failed, Refused, Uncertain} }

  const PREPARATION := [NotAttempted, Proposed, Assessed, Approved, Authorized]

  /** indexOf in the list of preparation phases. */
  function Phase(s: Status): int {
    if s in PREPARATION then Stage(s) else -1
  }

  function ActionIds(actions: seq<ActionJournal>): seq<string> {
    seq(|actions|, i requires 0 <= i < |actions| => actions[i].actionId)
  }

  function TerminalActions(actions: seq<ActionJournal>): seq<ActionJournal> {
    Filter(actions, (a: ActionJournal) => Terminal(a.status))
  }

  function VerifyReplay(plan: PlanJournal, actions: seq<ActionJournal>): Option<Fault> {
    if !Nonempty(plan.planId) || !Nonempty(plan.traceId) || !Nonempty(plan.authorityId) || !Nonempty(plan.policySnapshotId) then
      Some(InvalidPlanJournal)
    else if exists a | a in actions :: !Nonempty(a.actionId) then Some(InvalidActionJournal)
    else if exists a | a in actions :: a.planId != plan.planId || a.traceId != plan.traceId || a.authorityId != plan.authorityId then
      Some(ContinuityMismatch)
    else if !SafeInteger(plan.actionCount) || plan.actionCount != |actions| then Some(ActionCountMismatch)
    else if |ToSet(ActionIds(actions))| != |actions| then Some(DuplicateActionId)
    else if !SafeInteger(plan.terminalActionCount) || plan.terminalActionCount != |TerminalActions(actions)| then Some(TerminalCountMismatch)
    else if exists a | a in actions :: a.status == Completed && a.outcomeProven != Some(true) then Some(UnprovenCompletedAction)
    else if plan.uncertainty != (plan.status == Uncertain) || ((exists a | a in actions :: a.status == Uncertain) && !plan.uncertainty) then
      Some(UncertaintyMismatch)
    else if plan.status == Completed && exists a | a in actions :: a.status != Completed then Some(IncompleteActionInCompletedPlan)
    else if Phase(plan.status) >= 0 && exists a | a in actions :: Phase(a.status) < 0 || Phase(a.status) > Phase(plan.status) then
      Some(ActionPrecedesAuthorization)
    else if plan.status == Refused && exists a | a in actions :: a.status !in PREPARATION && a.status != Refused then
      Some(AttemptedActionInRefusedPlan)
    else if Terminal(plan.status) && exists a | a in actions :: a.status == ExecutionStarted then Some(RunningActionInTerminalPlan)
    else None
  }

  // ---------- what an accepted replay means ----------

  /** How many actions have ended, that is, stand where no transition leads on. */
  ghost function Ended(actions: seq<ActionJournal>): nat {
    if actions == [] then 0 else (if forall s :: !CanTransition(actions[0].status, s) then 1 else 0) + Ended(actions[1..])
  }

  /** Terminal statuses are those without a transition; preparation ends where refusal is no longer possible. */
  lemma StatusMeaning(s: Status)
    ensures Terminal(s) <==> forall next :: !CanTransition(s, next)
    ensures s in PREPARATION <==> CanTransition(s, Refused)
  {
    assert Transitions(s) != [] ==> CanTransition(s, Transitions(s)[0]);
  }

  /** A transition refuses what has not started, or goes one stage on. */
  lemma TransitionIff(from: Status, to: Status)
    ensures CanTransition(from, to) <==> if to == Refused then Stage(from) < 5 else Stage(to) == Stage(from) + 1
  {}

  lemma {:induction false} TerminalActionsCounted(actions: seq<ActionJournal>)
    ensures |TerminalActions(actions)| == Ended(actions)
  {
    if actions != [] {
      TerminalActionsCounted(actions[1..]);
      StatusMeaning(actions[0].status);
    }
  }

  /** From every preparation phase the later ones can be reached, one after the other. */
  lemma {:induction false} PreparationRun(i: nat, j: nat)
    requires i <= j < |PREPARATION|
    ensures Reaches(PREPARATION[i], PREPARATION[j])
    decreases j
  {
    hide Reaches, CanTransition;
    if i == j {
      ReachesItself(PREPARATION[i]);
    } else {
      PreparationRun(i, j - 1);
      NextPhase(j);
      ReachesFurther(PREPARATION[i], PREPARATION[j - 1], PREPARATION[j]);
    }
  }

  lemma NextPhase(j: nat)
    requires 0 < j < |PREPARATION|
    ensures CanTransition(PREPARATION[j - 1], PREPARATION[j])
  {}

  lemma ReachesItself(s: Status)
    ensures Reaches(s, s)
  {
    assert IsRun([s]);
  }

  lemma ReachesFurther(from: Status, via: Status, to: Status)
    requires Reaches(from, via) && CanTransition(via, to)
    ensures Reaches(from, to)
  {
    hide CanTransition;
    var run :| IsRun(run) && run[0] == from && run[|run| - 1] == via;
    assert IsRun(run + [to]);
  }

  /** A plan still in preparation, or refused, is reached from exactly the statuses its actions may have. */
  lemma ReachesPlan(from: Status, to: Status)
    requires to in PREPARATION || to == Refused
    ensures Reaches(from, to) <==>
      if to == Refused then from in PREPARATION || from == Refused else Phase(from) >= 0 && Phase(from) <= Phase(to)
  {
    hide Reaches;
    if Reaches(from, to) { ReachesOnlyUpward(from, to); }
    ReachesItself(from);
    if to == Refused && from in PREPARATION {
      ReachesFurther(from, from, Refused);
    } else if from in PREPARATION && to in PREPARATION && Stage(from) <= Stage(to) {
      PreparationRun(Stage(from), Stage(to));
    }
  }

  lemma ReachesOnlyUpward(from: Status, to: Status)
    requires Reaches(from, to)
    ensures from == to || Stage(from) < Stage(to)
    ensures from == ExecutionStarted ==> to != Refused
  {
    hide CanTransition;
    var run :| IsRun(run) && run[0] == from && run[|run| - 1] == to;
    StagesRise(run);
    if |run| > 1 { BeforeRefusal(run); }
  }

  /** Nothing comes after execution has started but an outcome, which is never a refusal. */
  lemma BeforeRefusal(run: seq<Status>)
    requires IsRun(run) && |run| > 1
    ensures run[0] == ExecutionStarted ==> run[|run| - 1] in {Completed, Failed, Uncertain}
  {
    StagesRise(run);
    assert CanTransition(run[0], run[1]);
  }

  ghost predicate Consistent(plan: PlanJournal, actions: seq<ActionJournal>) {
    && Nonempty(plan.planId) && Nonempty(plan.traceId) && Nonempty(plan.authorityId) && Nonempty(plan.policySnapshotId)
    && (forall a | a in actions ::
          Nonempty(a.actionId) && (a.planId, a.traceId, a.authorityId) == (plan.planId, plan.traceId, plan.authorityId))
    && Distinct(ActionIds(actions))
    && SafeInteger(plan.actionCount) && plan.actionCount == |actions|
    && SafeInteger(plan.terminalActionCount) && plan.terminalActionCount == Ended(actions)
    && (forall a | a in actions && a.status == Completed :: a.outcomeProven == Some(true))
    && (plan.uncertainty <==> plan.status == Uncertain)
    && (forall a | a in actions :: StatusFits(plan.status, a.status))
  }

  /** What an action's status may be under a plan's. */
  ghost predicate StatusFits(plan: Status, action: Status) {
    && (CanTransition(plan, Refused) || plan == Refused ==> Reaches(action, plan))
    && (plan == Completed ==> action == Completed)
    && (plan == ExecutionStarted || plan == Failed ==> action != Uncertain)
    && (plan == Failed || plan == Uncertain ==> action != ExecutionStarted)
  }

  /** The checks accept exactly the consistent artifacts: ids are distinct, the counts count, a completed plan
      has only proven completed actions, and in preparation every action can still reach the plan's status. */
  lemma AcceptedIffConsistent(plan: PlanJournal, actions: seq<ActionJournal>)
    ensures VerifyReplay(plan, actions).None? <==> Consistent(plan, actions)
  {
    hide Reaches, Nonempty, Ended, CanTransition, StatusFits;
    TerminalActionsCounted(actions);
    ToSetSize(ActionIds(actions));
    forall a | a in actions { StatusFitsIff(plan.status, a.status); }
  }

  predicate StatusAllowed(plan: Status, action: Status) {
    && (action == Uncertain ==> plan == Uncertain)
    && (plan == Completed ==> action == Completed)
    && (Phase(plan) >= 0 ==> 0 <= Phase(action) <= Phase(plan))
    && (plan == Refused ==> action in PREPARATION || action == Refused)
    && (Terminal(plan) ==> action != ExecutionStarted)
  }

  lemma StatusFitsIff(plan: Status, action: Status)
    ensures StatusFits(plan, action) <==> StatusAllowed(plan, action)
  {
    hide Reaches;
    StatusMeaning(plan);
    if plan in PREPARATION || plan == Refused { ReachesPlan(action, plan); }
  }
}
