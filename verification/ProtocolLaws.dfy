/**
 The invariant of every world the task protocol can reach, and that each service call keeps it: state
 histories are paths of the transition table, approved rows go back to decisions, and
 approval-requiring steps are invoked only after an approval.
 */
module ProtocolLaws {
  import opened Outcomes
  import opened StateMachine
  import opened Protocol

  /* ---- The invariant of every reachable world ---- */

  /** The states a task has been in, in order. */
  function StatesOf(log: seq<Event>, id: TaskId): seq<TaskState> {
    if log == [] then []
    else
      var last := log[|log| - 1];
      StatesOf(log[..|log| - 1], id) + (if last.Entered? && last.task == id then [last.state] else [])
  }

  /** A task's recorded states form a path that ends in its state. */
  ghost predicate TaskInStep(w: World, id: TaskId) {
    var states := StatesOf(w.log, id);
    if id in w.tasks then IsPath(states) && states[|states| - 1] == w.tasks[id].state
    else states == []
  }

  /** An approved row goes back to a decision that approved it. */
  ghost predicate RowJustified(log: seq<Event>, row: Approval) {
    row.status == Approved ==> Decided(row.task, row.action, true) in log
  }

  /** An invocation that requires approval comes after a decision that approved a request for its step. */
  ghost predicate Justified(log: seq<Event>, n: nat)
    requires n < |log|
  {
    log[n].Invoked? && log[n].step.requiresApproval ==>
      Decided(log[n].task, log[n].step.name, true) in log[..n]
  }

  ghost predicate Inv(w: World) {
    && (forall id :: TaskInStep(w, id))
    && (forall row :: row in w.approvals ==> RowJustified(w.log, row))
    && (forall n :: 0 <= n < |w.log| ==> Justified(w.log, n))
  }

  lemma StatesOfSnoc(log: seq<Event>, e: Event, id: TaskId)
    ensures StatesOf(log + [e], id)
            == StatesOf(log, id) + if e.Entered? && e.task == id then [e.state] else []
  {
    assert (log + [e])[..|log|] == log;
  }

  /** Appending a justified event keeps every earlier justification. */
  lemma JustifiedSnoc(log: seq<Event>, e: Event)
    requires forall n :: 0 <= n < |log| ==> Justified(log, n)
    requires e.Invoked? && e.step.requiresApproval ==> Decided(e.task, e.step.name, true) in log
    ensures forall n :: 0 <= n < |log + [e]| ==> Justified(log + [e], n)
  {
    forall n | 0 <= n < |log + [e]|
      ensures Justified(log + [e], n)
    {
      assert (log + [e])[..n] == log[..n];
      assert log[..|log|] == log;
      if n < |log| {
        assert Justified(log, n);
      }
    }
  }

  lemma PathSnoc(states: seq<TaskState>, state: TaskState)
    requires if states == [] then state == Created
             else IsPath(states) && CanTransition(states[|states| - 1], state)
    ensures IsPath(states + [state])
  {
  }

  lemma EnterKeepsInv(w: World, id: TaskId, task: Task)
    requires Inv(w)
    requires if id in w.tasks then CanTransition(w.tasks[id].state, task.state) else task.state == Created
    ensures Inv(Put(w, id, task).(log := w.log + [Entered(id, task.state)]))
  {
    hide CanTransition;
    var e := Entered(id, task.state);
    var v := Put(w, id, task).(log := w.log + [e]);
    assert TaskInStep(w, id);
    PathSnoc(StatesOf(w.log, id), task.state);
    forall other
      ensures TaskInStep(v, other)
    {
      assert TaskInStep(w, other);
      StatesOfSnoc(w.log, e, other);
    }
    JustifiedSnoc(w.log, e);
    forall row | row in v.approvals
      ensures RowJustified(v.log, row)
    {
      assert RowJustified(w.log, row);
    }
  }

  /** Rows may be added or changed as long as the approved ones are justified. */
  lemma RowsKeepInv(w: World, approvals: seq<Approval>)
    requires Inv(w) && forall row :: row in approvals ==> RowJustified(w.log, row)
    ensures Inv(w.(approvals := approvals))
  {
    forall id
      ensures TaskInStep(w.(approvals := approvals), id)
    {
      assert TaskInStep(w, id);
    }
  }

  /** Fields other than the state do not matter. */
  lemma PutKeepsInv(w: World, id: TaskId, task: Task)
    requires Inv(w) && id in w.tasks && task.state == w.tasks[id].state
    ensures Inv(Put(w, id, task))
  {
    forall other
      ensures TaskInStep(Put(w, id, task), other)
    {
      assert TaskInStep(w, other);
    }
  }

  /** Events that are not state changes. */
  lemma LogKeepsInv(w: World, e: Event)
    requires Inv(w) && !e.Entered?
    requires e.Invoked? && e.step.requiresApproval ==> Decided(e.task, e.step.name, true) in w.log
    ensures Inv(w.(log := w.log + [e]))
  {
    var v := w.(log := w.log + [e]);
    forall id
      ensures TaskInStep(v, id)
    {
      assert TaskInStep(w, id);
      StatesOfSnoc(w.log, e, id);
    }
    JustifiedSnoc(w.log, e);
    forall row | row in v.approvals
      ensures RowJustified(v.log, row)
    {
      assert RowJustified(w.log, row);
    }
  }

  lemma TransitionKeepsInv(w: World, id: TaskId, target: TaskState)
    requires Inv(w)
    ensures Inv(OrSame(TransitionTask(w, id, target), w))
  {
    hide Inv;
    if id in w.tasks && CanTransition(w.tasks[id].state, target) {
      EnterKeepsInv(w, id, w.tasks[id].(state := target));
    }
  }

  lemma RequestRowKeepsInv(w: World, id: TaskId, step: Step)
    requires Inv(w)
    ensures Inv(w.(approvals := w.approvals + [PendingRow(id, step)]))
  {
    RowsKeepInv(w, w.approvals + [PendingRow(id, step)]);
  }

  lemma CreateApprovalKeepsInv(w: World, id: TaskId, step: Step)
    requires Inv(w)
    ensures Inv(OrSame(CreateApproval(w, id, step), w))
  {
    hide Inv;
    RequestRowKeepsInv(w, id, step);
    TransitionKeepsInv(w.(approvals := w.approvals + [PendingRow(id, step)]), id, WaitingForApproval);
  }

  lemma DecideKeepsInv(w: World, approval: nat, approved: bool, user: string)
    requires Inv(w)
    ensures Inv(OrSame(Decide(w, approval, approved, user), w))
  {
    if approval < |w.approvals| {
      var row := w.approvals[approval];
      var decided := row.(status := if approved then Approved else Rejected, decidedBy := Some(user));
      var v := w.(log := w.log + [Decided(row.task, row.action, approved)]);
      LogKeepsInv(w, Decided(row.task, row.action, approved));
      RowsKeepInv(v, w.approvals[approval := decided]);
      TransitionKeepsInv(v.(approvals := w.approvals[approval := decided]), row.task,
                         if approved then Executing else Cancelled);
    }
  }

  /** Every approved action of a task goes back to a decision. */
  lemma ApprovedActionsDecided(w: World, id: TaskId, name: string)
    requires Inv(w) && name in ApprovedActions(w, id)
    ensures Decided(id, name, true) in w.log
  {
    var row :| row in w.approvals && row.task == id && row.status == Approved && row.action == name;
    assert RowJustified(w.log, row);
  }

  /* ---- Dead tasks ---- */

  ghost predicate IsDead(w: World, id: TaskId) {
    id in w.tasks && Dead(w.tasks[id].state)
  }

  lemma {:induction false} StatesGrow(before: seq<Event>, after: seq<Event>, id: TaskId)
    requires before <= after
    ensures StatesOf(before, id) <= StatesOf(after, id)
  {
    if before != after {
      StatesGrow(before, after[..|after| - 1], id);
    }
  }

  /** From any world to any later one: dead stays dead, and only BLOCKED can still change. */
  lemma DeadForGood(w: World, v: World, id: TaskId)
    requires Inv(w) && Inv(v) && w.log <= v.log
    requires IsDead(w, id)
    ensures IsDead(v, id) && (w.tasks[id].state != Blocked ==> v.tasks[id].state == w.tasks[id].state)
  {
    hide IsPath;
    assert TaskInStep(w, id) && TaskInStep(v, id);
    PathNotEmpty(StatesOf(w.log, id));
    var states := StatesOf(v.log, id);
    StatesGrow(w.log, v.log, id);
    DeadStatesAbsorb(states, |StatesOf(w.log, id)| - 1, |states| - 1);
  }

  /* ---- Invocations ---- */

  /** The steps invoked for a task. */
  function InvocationsOf(log: seq<Event>, id: TaskId): seq<Step> {
    if log == [] then []
    else
      var last := log[|log| - 1];
      InvocationsOf(log[..|log| - 1], id) + (if last.Invoked? && last.task == id then [last.step] else [])
  }

  lemma InvocationsSnoc(log: seq<Event>, e: Event, id: TaskId)
    ensures InvocationsOf(log + [e], id)
            == InvocationsOf(log, id) + if e.Invoked? && e.task == id then [e.step] else []
  {
    assert (log + [e])[..|log|] == log;
  }

  /** The calls that start a subgraph. */
  function Graphed(cfg: Config, calls: seq<Step>): seq<Step> {
    if calls == [] then []
    else
      var n := |calls| - 1;
      Graphed(cfg, calls[..n]) + (if calls[n].agent in cfg.graphs then [calls[n]] else [])
  }

  lemma GraphedSnoc(cfg: Config, calls: seq<Step>, step: Step)
    ensures Graphed(cfg, calls + [step]) == Graphed(cfg, calls) + if step.agent in cfg.graphs then [step] else []
  {
    assert (calls + [step])[..|calls|] == calls;
  }
}
