/**
 What single calls of the task and approval services do, stated on the rows before and after the call:
 which calls are accepted, what they change, and that they change nothing else.
 */
module ServiceLaws {
  import opened Outcomes
  import opened StateMachine
  import opened Protocol

  /* ---- The transition table ---- */

  /** One state comes right after the other in the happy order. */
  predicate NextInOrder(current: TaskState, target: TaskState) {
    PlaceOf(current).Some? && PlaceOf(target) == Some(PlaceOf(current).value + 1)
  }

  /** The moves back, around research, and into and out of an approval. */
  const DETOURS: set<(TaskState, TaskState)> := {
    (Planning, Drafting), (Researching, Planning), (ValidatingResult, Drafting), (Verifying, Executing),
    (ValidatingResult, WaitingForApproval), (Executing, WaitingForApproval), (WaitingForApproval, Executing)
  }

  /** A place is a position in the happy order. */
  lemma PlacesAreTheOrder(state: TaskState)
    ensures PlaceOf(state).Some? <==> state in HAPPY_ORDER
    ensures PlaceOf(state).Some? ==>
              PlaceOf(state).value < |HAPPY_ORDER| && HAPPY_ORDER[PlaceOf(state).value] == state
  {
    assert HAPPY_ORDER[0] == Created && HAPPY_ORDER[1] == Validating && HAPPY_ORDER[2] == Planning;
    assert HAPPY_ORDER[3] == Researching && HAPPY_ORDER[4] == Drafting && HAPPY_ORDER[5] == ValidatingResult;
    assert HAPPY_ORDER[6] == Executing && HAPPY_ORDER[7] == Verifying && HAPPY_ORDER[8] == Completed;
  }

  /** From a state that is not terminal a task can be stopped, go one step along the happy order, or take a detour. */
  lemma TransitionsExactly(current: TaskState, target: TaskState)
    ensures CanTransition(current, target) <==>
            && !(current.Completed? || current.Failed? || current.Cancelled? || current.TimedOut?)
            && (target.Failed? || target.TimedOut? || target.Blocked? || target.Cancelled?
                || NextInOrder(current, target) || (current, target) in DETOURS)
  {
  }

  /* ---- What a call leaves alone ---- */

  ghost predicate OtherTasksSame(w: World, v: World, id: TaskId) {
    w.tasks.Keys == v.tasks.Keys && forall other :: other in w.tasks && other != id ==> v.tasks[other] == w.tasks[other]
  }

  /** The task is in this state now, and its other fields and all other tasks are as before. */
  ghost predicate OnlyMoved(w: World, v: World, id: TaskId, state: TaskState) {
    && OtherTasksSame(w, v, id) && id in w.tasks && v.tasks[id].state == state
    && v.tasks[id].plan == w.tasks[id].plan && v.tasks[id].timeout == w.tasks[id].timeout
    && v.tasks[id].result == w.tasks[id].result && v.tasks[id].error == w.tasks[id].error
  }

  /* ---- Task service ---- */

  lemma CreatedTaskIsEmpty(w: World, id: TaskId, timeout: Option<int>)
    ensures var v := CreateTask(w, id, timeout);
            && v.tasks.Keys == w.tasks.Keys + {id} && v.approvals == w.approvals
            && (forall other :: other in w.tasks && other != id ==> v.tasks[other] == w.tasks[other])
            && v.tasks[id].state.Created? && v.tasks[id].timeout == timeout
            && v.tasks[id].plan.None? && v.tasks[id].result.None? && v.tasks[id].error.None?
            && v.log == w.log + [Entered(id, Created)]
  {
  }

  /** A transition is refused for an unknown task or a forbidden move, and else moves that one task. */
  lemma TransitionMovesOneTask(w: World, id: TaskId, target: TaskState)
    ensures var r := TransitionTask(w, id, target);
            && (r == Raised(NotFound) <==> id !in w.tasks)
            && (r == Raised(InvalidTransition) <==> id in w.tasks && !CanTransition(w.tasks[id].state, target))
            && (r.Ok? ==> OnlyMoved(w, r.value, id, target) && r.value.approvals == w.approvals
                          && r.value.log == w.log + [Entered(id, target)])
  {
  }

  /** Every existing task that is not terminal can be cancelled, and only those. */
  lemma CancelExactly(w: World, id: TaskId)
    ensures var r := CancelTask(w, id);
            && (r.Ok? <==> id in w.tasks && !(w.tasks[id].state.Completed? || w.tasks[id].state.Failed?
                                             || w.tasks[id].state.Cancelled? || w.tasks[id].state.TimedOut?))
            && (r == Raised(NotFound) <==> id !in w.tasks)
            && (r.Raised? ==> r.error == NotFound || r.error == NotCancellable)
            && (r.Ok? ==> OnlyMoved(w, r.value, id, Cancelled) && r.value.approvals == w.approvals)
  {
  }

  /* ---- Approval service ---- */

  /** A request adds one pending row for the step and pauses the task, from the two states that can pause. */
  lemma RequestPauses(w: World, id: TaskId, step: Step)
    ensures var r := CreateApproval(w, id, step);
            && (r.Ok? <==> id in w.tasks && (w.tasks[id].state.ValidatingResult? || w.tasks[id].state.Executing?))
            && (r.Ok? ==>
                  && OnlyMoved(w, r.value, id, WaitingForApproval)
                  && |r.value.approvals| == |w.approvals| + 1 && r.value.approvals[..|w.approvals|] == w.approvals
                  && var row := r.value.approvals[|w.approvals|];
                     && row.task == id && row.action == step.name && row.target == step.agent
                     && row.status.Pending? && row.decidedBy.None?)
  {
  }

  /** The row now has this status and decider, and the rows are otherwise as before. */
  ghost predicate OnlyDecided(w: World, v: World, approval: nat, status: ApprovalStatus, user: string) {
    && approval < |w.approvals| == |v.approvals|
    && (forall k :: 0 <= k < |w.approvals| && k != approval ==> v.approvals[k] == w.approvals[k])
    && v.approvals[approval].task == w.approvals[approval].task
    && v.approvals[approval].action == w.approvals[approval].action
    && v.approvals[approval].target == w.approvals[approval].target
    && v.approvals[approval].status == status && v.approvals[approval].decidedBy == Some(user)
  }

  /** Rejecting any request of a task that is not terminal cancels the task, and nothing else changes. */
  lemma RejectionCancels(w: World, approval: nat, user: string)
    ensures var r := Decide(w, approval, false, user);
            && (r.Ok? <==>
                  && approval < |w.approvals| && w.approvals[approval].task in w.tasks
                  && var state := w.tasks[w.approvals[approval].task].state;
                     !(state.Completed? || state.Failed? || state.Cancelled? || state.TimedOut?))
            && (r.Ok? ==>
                  var row := w.approvals[approval];
                  && OnlyMoved(w, r.value, row.task, Cancelled)
                  && OnlyDecided(w, r.value, approval, Rejected, user)
                  && r.value.log == w.log + [Decided(row.task, row.action, false), Entered(row.task, Cancelled)])
  {
  }

  /** Approving is possible exactly from the three states EXECUTING follows, and puts the task there. */
  lemma ApprovalResumes(w: World, approval: nat, user: string)
    ensures var r := Decide(w, approval, true, user);
            && (r.Ok? <==>
                  && approval < |w.approvals| && w.approvals[approval].task in w.tasks
                  && var state := w.tasks[w.approvals[approval].task].state;
                     state.WaitingForApproval? || state.ValidatingResult? || state.Verifying?)
            && (r.Ok? ==>
                  var row := w.approvals[approval];
                  && OnlyMoved(w, r.value, row.task, Executing)
                  && OnlyDecided(w, r.value, approval, Approved, user)
                  && r.value.log == w.log + [Decided(row.task, row.action, true), Entered(row.task, Executing)])
  {
  }

  /** What a refused decision reports. */
  lemma DecisionRefused(w: World, approval: nat, approved: bool, user: string)
    ensures var r := Decide(w, approval, approved, user);
            && (r == Raised(NotFound) <==> approval >= |w.approvals| || w.approvals[approval].task !in w.tasks)
            && (r.Raised? ==> r.error == NotFound || r.error == InvalidTransition)
            && (r.Raised? ==> OrSame(r, w) == w)
  {
  }
}
