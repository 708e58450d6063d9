/** The task state machine of app/domain/state_machine.py. */
module StateMachine {
  import opened Outcomes

  datatype TaskState =
    | Created | Validating | Planning | Researching | Drafting | ValidatingResult
    | WaitingForApproval | Executing | Verifying | Completed
    | Failed | Cancelled | TimedOut | Blocked

  const TERMINAL_STATES: set<TaskState> := {Completed, Failed, Cancelled, TimedOut}

  const CANCELLABLE_STATES: set<TaskState> := {
    Created, Validating, Planning, Researching, Drafting, ValidatingResult,
    WaitingForApproval, Executing, Verifying, Blocked
  }

  const ESCALATION_TARGETS: set<TaskState> := {Failed, TimedOut, Blocked, Cancelled}

  function HappyPath(state: TaskState): set<TaskState> {
    match state
    case Created => {Validating, Cancelled}
    case Validating => {Planning}
    case Planning => {Researching, Drafting}
    case Researching => {Drafting, Planning}
    case Drafting => {ValidatingResult}
    case ValidatingResult => {WaitingForApproval, Executing, Drafting}
    case WaitingForApproval => {Executing, Cancelled}
    case Executing => {Verifying, WaitingForApproval}
    case Verifying => {Completed, Executing}
    case Completed => {}
    case Failed => {}
    case Cancelled => {}
    case TimedOut => {}
    case Blocked => {}
  }

  function AllowedTransitions(state: TaskState): set<TaskState> {
    if state in TERMINAL_STATES then HappyPath(state) else HappyPath(state) + ESCALATION_TARGETS
  }

  predicate CanTransition(current: TaskState, target: TaskState) {
    current !in TERMINAL_STATES && target in AllowedTransitions(current)
  }

  datatype TransitionError = InvalidStateTransition(current: TaskState, target: TaskState)

  function Transition(current: TaskState, target: TaskState): Result<TaskState, TransitionError> {
    if CanTransition(current, target) then Ok(target) else Raised(InvalidStateTransition(current, target))
  }

  predicate CanCancel(current: TaskState) {
    current in CANCELLABLE_STATES
  }

  /** The cancel guard and the transition table agree on every state. */
  lemma CancelGuardMatchesTable(state: TaskState)
    ensures CanCancel(state) <==> CanTransition(state, Cancelled)
    ensures CanCancel(state) <==> state !in TERMINAL_STATES
  {
  }

  /* ---- Histories: what every path in the table must look like ---- */

  ghost predicate IsPath(history: seq<TaskState>) {
    && history != [] && history[0] == Created
    && forall i :: 0 <= i < |history| - 1 ==> CanTransition(history[i], history[i + 1])
  }

  /** The states no path to completion can avoid, in order. */
  const MILESTONES: seq<TaskState> :=
    [Created, Validating, Planning, Drafting, ValidatingResult, Executing, Verifying, Completed]

  /** States a task never leaves for a working state. */
  predicate Dead(state: TaskState) {
    state in {Failed, Cancelled, TimedOut, Blocked}
  }

  /** How many milestones a path that stands at `state` has behind it. */
  function Progress(state: TaskState): nat {
    match state
    case Created => 0
    case Validating => 1
    case Planning => 2
    case Researching => 2
    case Drafting => 3
    case ValidatingResult => 4
    case WaitingForApproval => 4
    case Executing => 5
    case Verifying => 6
    case Completed => 7
    case _ => 0
  }

  lemma ProgressStep(current: TaskState, target: TaskState)
    requires CanTransition(current, target)
    ensures Progress(target) <= Progress(current) ||
            (Progress(target) == Progress(current) + 1 && target == MILESTONES[Progress(target)])
  {
  }

  /** A path has visited every milestone up to the progress it ever reached. */
  lemma {:induction false} MilestoneVisited(history: seq<TaskState>, k: nat, m: nat)
    requires IsPath(history) && k < |history| && m <= Progress(history[k])
    ensures exists i :: 0 <= i <= k && history[i] == MILESTONES[m]
  {
    if k > 0 {
      ProgressStep(history[k - 1], history[k]);
      if m <= Progress(history[k - 1]) {
        MilestoneVisited(history, k - 1, m);
      }
    }
  }

  /** Index of the first visit to a state, or the length of the history when there is none. */
  function FirstVisit(history: seq<TaskState>, state: TaskState): (i: nat)
    ensures i <= |history| && (i < |history| ==> history[i] == state)
    ensures forall j :: 0 <= j < i ==> history[j] != state
  {
    if history == [] then 0
    else if history[0] == state then 0
    else 1 + FirstVisit(history[1..], state)
  }

  lemma PathNotEmpty(history: seq<TaskState>)
    requires IsPath(history)
    ensures history != []
  {
  }

  lemma CompletedProgress(m: nat)
    requires m < |MILESTONES|
    ensures m <= Progress(Completed)
  {
  }

  lemma MilestoneProgress(m: nat, n: nat)
    requires m < n < |MILESTONES|
    ensures Progress(MILESTONES[n]) == n && MILESTONES[m] != MILESTONES[n]
  {
  }

  lemma VisitedBy(history: seq<TaskState>, k: nat, m: nat)
    requires IsPath(history) && k < |history| && m < |MILESTONES| && m <= Progress(history[k])
    ensures FirstVisit(history, MILESTONES[m]) <= k
  {
    hide IsPath;
    hide Progress;
    MilestoneVisited(history, k, m);
  }

  lemma VisitedInOrder(history: seq<TaskState>, m: nat, n: nat)
    requires IsPath(history) && m < n < |MILESTONES| && FirstVisit(history, MILESTONES[n]) < |history|
    ensures FirstVisit(history, MILESTONES[m]) < FirstVisit(history, MILESTONES[n])
  {
    hide IsPath;
    hide Progress;
    MilestoneProgress(m, n);
    VisitedBy(history, FirstVisit(history, MILESTONES[n]), m);
  }

  /** Every completed history visits all milestones, with first visits in the listed order. */
  lemma CompletionVisitsMilestonesInOrder(history: seq<TaskState>)
    requires IsPath(history) && history[|history| - 1] == Completed
    ensures forall m :: 0 <= m < |MILESTONES| ==> FirstVisit(history, MILESTONES[m]) < |history|
    ensures forall m, n :: 0 <= m < n < |MILESTONES| ==>
              FirstVisit(history, MILESTONES[m]) < FirstVisit(history, MILESTONES[n])
  {
    PathNotEmpty(history);
    hide *;
    forall m | 0 <= m < |MILESTONES|
      ensures FirstVisit(history, MILESTONES[m]) < |history|
    {
      CompletedProgress(m);
      VisitedBy(history, |history| - 1, m);
    }
    forall m, n | 0 <= m < n < |MILESTONES|
      ensures FirstVisit(history, MILESTONES[m]) < FirstVisit(history, MILESTONES[n])
    {
      VisitedInOrder(history, m, n);
    }
  }

  /** Dead are the states other than COMPLETED from which nothing but a stop is possible. */
  lemma DeadExactly(state: TaskState)
    ensures Dead(state) <==>
            && !state.Completed?
            && forall target :: CanTransition(state, target) ==>
                 target.Failed? || target.TimedOut? || target.Blocked? || target.Cancelled?
  {
    if !Dead(state) && !state.Completed? {
      var target := match state
        case Created => Validating
        case Validating => Planning
        case Planning => Drafting
        case Researching => Drafting
        case Drafting => ValidatingResult
        case ValidatingResult => Executing
        case WaitingForApproval => Executing
        case Executing => Verifying
        case _ => Completed;
      assert CanTransition(state, target);
    }
  }

  /** A terminal state is the last of its history; a dead state is followed by dead states only. */
  lemma {:induction false} DeadStatesAbsorb(history: seq<TaskState>, i: nat, j: nat)
    requires IsPath(history) && i <= j < |history|
    ensures history[i] in TERMINAL_STATES ==> i == j
    ensures Dead(history[i]) ==> Dead(history[j])
  {
    if i < j {
      DeadStatesAbsorb(history, i, j - 1);
      assert CanTransition(history[j - 1], history[j]);
    }
  }
}
