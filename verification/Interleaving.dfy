/**
 Any number of runs in flight together, interleaved with each other and with service calls at every
 point where a run waits: one step of a run is what it does between two waits.
 */
module Interleaving {
  import opened Outcomes
  import opened StateMachine
  import opened Protocol
  import opened ProtocolLaws
  import opened ServiceLaws

  /* ---- One run in flight ---- */

  /** Where a run wants its task to be next. */
  datatype Goal = ToPlan | ToExecute | ToVerify | ToComplete

  datatype Phase =
    | Starting
    | Walking(goal: Goal)
    | Moving(first: nat, last: nat, goal: Goal)  // along the happy order
    | Jumping(goal: Goal)                        // by the one direct transition
    | NeedsPlan
    | Caching
    | NeedsApprovals
    | OnStep(index: nat)
    | Asking(step: Step)
    | Trying(step: Step, retries: nat)
    | Awaiting(step: Step, retries: nat, reply: Outcome)
    | Persisting
    | Pausing(stop: Stop)                        // handling a missing approval or an escalation
    | Handling(stop: Stop)                       // handling any other exception
    | Noting(stop: Stop)
    | Ended(stop: Stop, raised: bool)

  /**
   A run in its own session.  `loaded` is the task as the session last loaded it, which is what the run reads of
   it; only a transition reads the row afresh.  After a commit the session has yet to refresh its copy.  `staged`
   is the step whose request was refused and is not yet rolled back.
   */
  datatype Flight = Flight(task: TaskId, cfg: Config, env: Environment, loaded: Task, refreshing: bool,
                           timeout: Option<int>, plan: seq<Step>, approved: set<string>, p: Progress,
                           staged: Option<Step>, phase: Phase)

  /** Stands for a task not loaded yet. */
  const UNREAD := Task(Created, None, None, None, None)

  datatype Moment = Moment(world: World, flight: Flight)

  function Fresh(id: TaskId, cfg: Config, env: Environment): Flight {
    Flight(id, cfg, env, UNREAD, false, None, [], {}, FRESH, None, Starting)
  }

  function Target(goal: Goal): TaskState {
    match goal
    case ToPlan => Planning
    case ToExecute => Executing
    case ToVerify => Verifying
    case ToComplete => Completed
  }

  function Arrived(goal: Goal): Phase {
    match goal
    case ToPlan => NeedsPlan
    case ToExecute => OnStep(0)
    case ToVerify => Walking(ToComplete)
    case ToComplete => Persisting
  }

  /** The early walk is outside the handlers. */
  function Refused(goal: Goal): Phase {
    if goal.ToPlan? then Ended(NotTransitioned, true) else Handling(NotTransitioned)
  }

  function Chosen(state: TaskState, goal: Goal): Phase {
    if state == Target(goal) then Arrived(goal)
    else if PlaceOf(state).None? then Jumping(goal)
    else if PlaceOf(state).value < PlaceOf(Target(goal)).value then
      Moving(PlaceOf(state).value + 1, PlaceOf(Target(goal)).value, goal)
    else Arrived(goal)
  }

  /** One transition, and what follows from its result. */
  function Transitioned(w: World, f: Flight, target: TaskState, done: Phase, refused: Phase): Moment {
    match TransitionTask(w, f.task, target)
    case Ok(next) => Moment(next, f.(refreshing := true, phase := done))
    case Raised(_) => Moment(w, f.(phase := refused))
  }

  /** The cached plan, or the planner's. */
  function Plan(f: Flight): Flight {
    match PlanOf(f.loaded, f.env)
    case None => f.(phase := Ended(PlannerFailed, true))
    case Some(plan) => f.(plan := plan, phase := if f.loaded.plan.Some? then NeedsApprovals else Caching)
  }

  function Look(f: Flight, i: nat): Flight {
    if i >= |f.plan| then f.(phase := Walking(ToVerify))
    else
      var q := f.p.(stepIndex := i);
      var stop := Exceeded(f.cfg.limits, f.timeout, f.env, q);
      f.(p := Checked(q),
         phase := if stop.Some? then Handling(stop.value)
                  else if f.plan[i].requiresApproval && f.plan[i].name !in f.approved then Asking(f.plan[i])
                  else Trying(f.plan[i], 0))
  }

  function Ask(w: World, f: Flight, step: Step): Moment {
    match CreateApproval(w, f.task, step)
    case Ok(next) => Moment(next, f.(refreshing := true, phase := Pausing(Unapproved(step))))
    case Raised(_) => Moment(w, f.(staged := Some(step), phase := Handling(NotTransitioned)))
  }

  function Try(w: World, f: Flight, step: Step, retries: nat): Moment {
    var stop := Exceeded(f.cfg.limits, f.timeout, f.env, f.p);
    if stop.Some? then Moment(w, f.(p := Checked(f.p), phase := Handling(stop.value)))
    else
      var reply := OutcomeOf(f.cfg, f.env, step, f.p.toolCalls);
      Moment(Invoke(w, f.cfg, f.task, step),
             f.(p := Called(Checked(f.p), step), phase := Awaiting(step, retries, reply)))
  }

  function Receive(f: Flight, step: Step, retries: nat, reply: Outcome): Flight {
    match reply
    case Succeeded => f.(p := Recorded(f.p, step), phase := OnStep(f.p.stepIndex + 1))
    case FailedWith(error) =>
      match Classify(f.cfg.limits.maxRetries, error, retries)
      case Retry => f.(p := f.p.(slept := f.p.slept + Backoff(retries)), phase := Trying(step, retries + 1))
      case Escalate => f.(phase := Pausing(Escalation(step)))
      case Fail => f.(phase := Handling(StepFailure(step)))
  }

  /** Pauses the task if the session's copy of it can be paused; a refusal escapes. */
  function Pause(w: World, f: Flight, stop: Stop): Moment {
    if !CanTransition(f.loaded.state, WaitingForApproval) then Moment(w, f.(phase := Ended(stop, false)))
    else
      match TransitionTask(w, f.task, WaitingForApproval)
      case Ok(next) => Moment(next, f.(refreshing := true, phase := Ended(stop, false)))
      case Raised(_) => Moment(w, f.(phase := Ended(stop, true)))
  }

  /** The commit of the failure also flushes a staged row; a refusal rolls it back. */
  function Handle(w: World, f: Flight, stop: Stop): Moment {
    var rows := if f.staged.Some? then [PendingRow(f.task, f.staged.value)] else [];
    match TransitionTask(w.(approvals := w.approvals + rows), f.task, if stop.OutOfLimits? then TimedOut else Failed)
    case Ok(next) => Moment(next, f.(refreshing := true, staged := None, phase := Noting(stop)))
    case Raised(_) => Moment(w, f.(staged := None, phase := Ended(stop, true)))
  }

  function Note(w: World, f: Flight, task: Task, stop: Stop): Moment {
    Moment(Put(w, f.task, task), f.(phase := Ended(stop, false)))
  }

  /** One step of a run: from one wait to the next. */
  function Advance(w: World, f: Flight): Moment {
    if f.phase.Ended? then Moment(w, f)
    else if f.task !in w.tasks then Moment(w, f.(phase := Ended(NotTransitioned, true)))
    else if f.refreshing then Moment(w, f.(loaded := w.tasks[f.task], refreshing := false))
    else
      var task := w.tasks[f.task];
      match f.phase
      case Starting =>
        Moment(w, f.(loaded := task, timeout := task.timeout,
                     phase := if task.state in {Created, Validating} then Walking(ToPlan) else NeedsPlan))
      case Walking(goal) => Moment(w, f.(phase := Chosen(f.loaded.state, goal)))
      case Moving(first, last, goal) =>
        if first > last || first >= |HAPPY_ORDER| then Moment(w, f.(phase := Arrived(goal)))
        else Transitioned(w, f, HAPPY_ORDER[first], Moving(first + 1, last, goal), Refused(goal))
      case Jumping(goal) => Transitioned(w, f, Target(goal), Arrived(goal), Refused(goal))
      case NeedsPlan => Moment(w, Plan(f))
      case Caching =>
        Moment(Put(w, f.task, task.(plan := Some(f.plan))), f.(refreshing := true, phase := NeedsApprovals))
      case NeedsApprovals => Moment(w, f.(approved := ApprovedActions(w, f.task), phase := Walking(ToExecute)))
      case OnStep(i) => Moment(w, Look(f, i))
      case Asking(step) => Ask(w, f, step)
      case Trying(step, retries) => Try(w, f, step, retries)
      case Awaiting(step, retries, reply) => Moment(w, Receive(f, step, retries, reply))
      case Persisting => Note(w, f, task.(result := Some(Summary(f.p.iterations, f.p.toolCalls, f.p.outputs))), AllDone)
      case Pausing(stop) => Pause(w, f, stop)
      case Handling(stop) => Handle(w, f, stop)
      case Noting(stop) => Note(w, f, task.(error := Some(stop)), stop)
  }

  /* ---- The system ---- */

  datatype System = System(world: World, flights: seq<Flight>)

  datatype Action =
    | Create(id: TaskId, timeout: Option<int>)
    | Decision(approval: nat, approved: bool, user: string)
    | Cancel(id: TaskId)
    | Transit(id: TaskId, target: TaskState)
    | Request(id: TaskId, step: Step)
    | Begin(id: TaskId, cfg: Config, env: Environment)
    | Continue(k: nat)

  /** What a service call of another session makes of the world. */
  function Served(w: World, a: Action): World {
    match a
    case Create(id, timeout) => if id in w.tasks then w else CreateTask(w, id, timeout)  // ids are fresh
    case Decision(approval, approved, user) => OrSame(Decide(w, approval, approved, user), w)
    case Cancel(id) => OrSame(CancelTask(w, id), w)
    case Transit(id, target) => OrSame(TransitionTask(w, id, target), w)
    case Request(id, step) => OrSame(CreateApproval(w, id, step), w)
    case Begin(_, _, _) => w
    case Continue(_) => w
  }

  function Act(s: System, a: Action): System {
    match a
    case Begin(id, cfg, env) => s.(flights := s.flights + [Fresh(id, cfg, env)])
    case Continue(k) =>
      if k >= |s.flights| then s
      else
        var m := Advance(s.world, s.flights[k]);
        System(m.world, s.flights[k := m.flight])
    case _ => s.(world := Served(s.world, a))
  }

  function History(s: System, actions: seq<Action>): System {
    if actions == [] then s
    else Act(History(s, actions[..|actions| - 1]), actions[|actions| - 1])
  }

  const IDLE := System(NOTHING, [])

  /* ---- The invariant of every reachable system ---- */

  /** What a run goes by: approvals that were decided, and, where one is needed, an approval for the step it tries. */
  ghost predicate Cleared(log: seq<Event>, f: Flight) {
    && (forall name :: name in f.approved ==> Decided(f.task, name, true) in log)
    && (f.phase.Trying? || f.phase.Awaiting? ==>
          f.phase.step.requiresApproval ==> f.phase.step.name in f.approved)
  }

  ghost predicate SysInv(s: System) {
    Inv(s.world) && forall k :: 0 <= k < |s.flights| ==> Cleared(s.world.log, s.flights[k])
  }

  lemma ClearedLater(before: seq<Event>, after: seq<Event>, f: Flight)
    requires Cleared(before, f) && before <= after
    ensures Cleared(after, f)
  {
    forall name | name in f.approved
      ensures Decided(f.task, name, true) in after
    {
      assert Decided(f.task, name, true) in before;
    }
  }

  /** A step of a run keeps the invariant of the world, only adds to its history, and stays cleared. */
  lemma AdvanceKeepsInv(w: World, f: Flight)
    requires Inv(w) && Cleared(w.log, f)
    ensures var m := Advance(w, f);
            Inv(m.world) && w.log <= m.world.log && Cleared(m.world.log, m.flight)
  {
    hide Inv;
    hide CanTransition;
    hide Exceeded;
    hide Backoff;
    hide Classify;
    AdvanceKeepsWorld(w, f);
    var m := Advance(w, f);
    ClearedLater(w.log, m.world.log, f);
    if f.phase.NeedsApprovals? && f.task in w.tasks && !f.refreshing {
      forall name | name in m.flight.approved
        ensures Decided(f.task, name, true) in m.world.log
      {
        ApprovedActionsDecided(w, f.task, name);
      }
    }
  }

  lemma AdvanceKeepsWorld(w: World, f: Flight)
    requires Inv(w) && Cleared(w.log, f)
    ensures Inv(Advance(w, f).world) && w.log <= Advance(w, f).world.log
  {
    hide Inv;
    hide CanTransition;
    hide Exceeded;
    hide Backoff;
    hide Classify;
    if f.task in w.tasks {
      var task := w.tasks[f.task];
      match f.phase {
        case Moving(first, last, goal) =>
          if first < |HAPPY_ORDER| {
            TransitionKeepsInv(w, f.task, HAPPY_ORDER[first]);
          }
        case Jumping(goal) => TransitionKeepsInv(w, f.task, Target(goal));
        case Caching => PutKeepsInv(w, f.task, task.(plan := Some(f.plan)));
        case Asking(step) => CreateApprovalKeepsInv(w, f.task, step);
        case Trying(step, retries) => TryKeepsWorld(w, f, step, retries);
        case Persisting =>
          PutKeepsInv(w, f.task, task.(result := Some(Summary(f.p.iterations, f.p.toolCalls, f.p.outputs))));
        case Pausing(stop) => TransitionKeepsInv(w, f.task, WaitingForApproval);
        case Handling(stop) => HandleKeepsWorld(w, f, stop);
        case Noting(stop) => PutKeepsInv(w, f.task, task.(error := Some(stop)));
        case _ =>
      }
    }
  }

  lemma TryKeepsWorld(w: World, f: Flight, step: Step, retries: nat)
    requires Inv(w) && Cleared(w.log, f) && (step.requiresApproval ==> step.name in f.approved)
    ensures Inv(Try(w, f, step, retries).world) && w.log <= Try(w, f, step, retries).world.log
  {
    hide Inv;
    hide Exceeded;
    LogKeepsInv(w, Invoked(f.task, step));
  }

  lemma HandleKeepsWorld(w: World, f: Flight, stop: Stop)
    requires Inv(w)
    ensures Inv(Handle(w, f, stop).world) && w.log <= Handle(w, f, stop).world.log
  {
    hide Inv;
    hide CanTransition;
    var target := if stop.OutOfLimits? then TimedOut else Failed;
    if f.staged.Some? {
      RequestRowKeepsInv(w, f.task, f.staged.value);
      TransitionKeepsInv(w.(approvals := w.approvals + [PendingRow(f.task, f.staged.value)]), f.task, target);
    } else {
      assert w.approvals + [] == w.approvals;
      TransitionKeepsInv(w, f.task, target);
    }
  }

  lemma ServedKeepsInv(w: World, a: Action)
    requires Inv(w)
    ensures Inv(Served(w, a)) && w.log <= Served(w, a).log
  {
    hide Inv;
    hide CanTransition;
    match a {
      case Create(id, timeout) =>
        if id !in w.tasks {
          EnterKeepsInv(w, id, Task(Created, None, timeout, None, None));
        }
      case Decision(approval, approved, user) => DecideKeepsInv(w, approval, approved, user);
      case Cancel(id) => TransitionKeepsInv(w, id, Cancelled);
      case Transit(id, target) => TransitionKeepsInv(w, id, target);
      case Request(id, step) => CreateApprovalKeepsInv(w, id, step);
      case _ =>
    }
  }

  lemma ActKeepsInv(s: System, a: Action)
    requires SysInv(s)
    ensures SysInv(Act(s, a)) && s.world.log <= Act(s, a).world.log
  {
    hide Inv;
    hide Advance;
    hide Served;
    hide Cleared;
    var t := Act(s, a);
    if a.Continue? && a.k < |s.flights| {
      AdvanceKeepsInv(s.world, s.flights[a.k]);
    } else if a.Begin? {
      FreshIsCleared(s.world.log, a);
    } else {
      ServedKeepsInv(s.world, a);
    }
    forall k | 0 <= k < |t.flights|
      ensures Cleared(t.world.log, t.flights[k])
    {
      if k < |s.flights| && t.flights[k] == s.flights[k] {
        ClearedLater(s.world.log, t.world.log, s.flights[k]);
      }
    }
  }

  lemma FreshIsCleared(log: seq<Event>, a: Action)
    requires a.Begin?
    ensures Cleared(log, Fresh(a.id, a.cfg, a.env))
  {
  }

  lemma {:induction false} KeepsInv(s: System, actions: seq<Action>)
    requires SysInv(s)
    ensures SysInv(History(s, actions)) && s.world.log <= History(s, actions).world.log
  {
    hide SysInv;
    hide Act;
    if actions != [] {
      KeepsInv(s, actions[..|actions| - 1]);
      ActKeepsInv(History(s, actions[..|actions| - 1]), actions[|actions| - 1]);
    }
  }

  lemma IdleIsSound()
    ensures SysInv(IDLE)
  {
    forall id
      ensures TaskInStep(NOTHING, id)
    {
      assert StatesOf([], id) == [];
    }
  }

  /** The invariant holds of every system that any interleaving of runs and service calls reaches. */
  lemma HistoryKeepsInv(actions: seq<Action>)
    ensures SysInv(History(IDLE, actions))
  {
    IdleIsSound();
    KeepsInv(IDLE, actions);
  }

  /* ---- Safety over all interleavings ---- */

  /** No subgraph runs for an approval-requiring step unless an earlier decision approved that step of that task. */
  lemma NoInvocationWithoutApproval(actions: seq<Action>, n: nat)
    requires n < |History(IDLE, actions).world.log|
    requires var e := History(IDLE, actions).world.log[n]; e.Invoked? && e.step.requiresApproval
    ensures var log := History(IDLE, actions).world.log;
            exists m :: 0 <= m < n && log[m] == Decided(log[n].task, log[n].step.name, true)
  {
    HistoryKeepsInv(actions);
    var log := History(IDLE, actions).world.log;
    assert Justified(log, n);
    var m :| 0 <= m < n && log[..n][m] == Decided(log[n].task, log[n].step.name, true);
    assert log[m] == log[..n][m];
  }

  /**
   Every task's states form a path of the table to its state, so a completed task has passed every milestone in
   order.
   */
  lemma TaskHistoriesArePaths(actions: seq<Action>, id: TaskId)
    requires id in History(IDLE, actions).world.tasks
    ensures var w := History(IDLE, actions).world;
            var states := StatesOf(w.log, id);
            && IsPath(states) && states[|states| - 1] == w.tasks[id].state
            && (w.tasks[id].state == Completed ==>
                  forall m, n :: 0 <= m < n < |MILESTONES| ==>
                    FirstVisit(states, MILESTONES[m]) < FirstVisit(states, MILESTONES[n]) < |states|)
  {
    HistoryKeepsInv(actions);
    var w := History(IDLE, actions).world;
    assert TaskInStep(w, id);
    if w.tasks[id].state == Completed {
      CompletionVisitsMilestonesInOrder(StatesOf(w.log, id));
    }
  }

  /**
   Rejection and dead ends are final: once a task is cancelled, failed, timed out or blocked, no run in
   flight, no later run and no service call brings it back, and only a blocked task can still change state.
   */
  lemma DeadTasksStayDead(before: seq<Action>, after: seq<Action>, id: TaskId)
    requires IsDead(History(IDLE, before).world, id)
    ensures var w, v := History(IDLE, before).world, History(History(IDLE, before), after).world;
            IsDead(v, id) && (w.tasks[id].state != Blocked ==> v.tasks[id].state == w.tasks[id].state)
  {
    HistoryKeepsInv(before);
    KeepsInv(History(IDLE, before), after);
    DeadForGood(History(IDLE, before).world, History(History(IDLE, before), after).world, id);
  }

  /** A task that is not terminal and whose request is rejected is cancelled, at once and whatever happens after. */
  lemma RejectionIsFinal(before: seq<Action>, approval: nat, user: string, after: seq<Action>)
    requires var w := History(IDLE, before).world;
             approval < |w.approvals| && w.approvals[approval].task in w.tasks
    ensures var s := History(IDLE, before);
            var id := s.world.approvals[approval].task;
            var t := Act(s, Decision(approval, false, user));
            s.world.tasks[id].state !in {Completed, Failed, Cancelled, TimedOut} ==>
              var v := History(t, after).world;
              && t.flights == s.flights && Decided(id, s.world.approvals[approval].action, false) in t.world.log
              && id in v.tasks && v.tasks[id].state == Cancelled
  {
    hide Inv;
    hide Cleared;
    HistoryKeepsInv(before);
    var s := History(IDLE, before);
    var id, a := s.world.approvals[approval].task, Decision(approval, false, user);
    if s.world.tasks[id].state !in {Completed, Failed, Cancelled, TimedOut} {
      RejectionCancels(s.world, approval, user);
      ActKeepsInv(s, a);
      KeepsInv(Act(s, a), after);
      DeadForGood(Act(s, a).world, History(Act(s, a), after).world, id);
    }
  }

  /** So is one that is cancelled by its user. */
  lemma CancellationIsFinal(before: seq<Action>, id: TaskId, after: seq<Action>)
    requires id in History(IDLE, before).world.tasks
    ensures var s := History(IDLE, before);
            s.world.tasks[id].state !in {Completed, Failed, Cancelled, TimedOut} ==>
              var v := History(Act(s, Cancel(id)), after).world;
              id in v.tasks && v.tasks[id].state == Cancelled
  {
    hide Inv;
    hide Cleared;
    HistoryKeepsInv(before);
    var s := History(IDLE, before);
    if s.world.tasks[id].state !in {Completed, Failed, Cancelled, TimedOut} {
      CancelExactly(s.world, id);
      ActKeepsInv(s, Cancel(id));
      KeepsInv(Act(s, Cancel(id)), after);
      DeadForGood(Act(s, Cancel(id)).world, History(Act(s, Cancel(id)), after).world, id);
    }
  }

  /* ---- Runs on a dead task ---- */

  /** A run that is over, or where a run begun on a dead task can be: it has not read its task, or has read it dead. */
  predicate Stalled(f: Flight) {
    match f.phase
    case Starting => true
    case NeedsPlan => Dead(f.loaded.state)
    case Caching => Dead(f.loaded.state)
    case NeedsApprovals => Dead(f.loaded.state)
    case Walking(goal) => goal == ToExecute && Dead(f.loaded.state)
    case Jumping(goal) => goal == ToExecute && Dead(f.loaded.state)
    case Handling(_) => true
    case Noting(_) => true
    case Ended(_, _) => true
    case _ => false
  }

  /** From `w` to `v` the log has grown without an invocation for the task. */
  ghost predicate NothingInvoked(w: World, v: World, id: TaskId) {
    InvocationsOf(v.log, id) == InvocationsOf(w.log, id)
  }

  lemma TransitionInvokesNothing(w: World, id: TaskId, other: TaskId, target: TaskState)
    ensures NothingInvoked(w, OrSame(TransitionTask(w, other, target), w), id)
  {
    hide CanTransition;
    InvocationsSnoc(w.log, Entered(other, target), id);
  }

  lemma DecideInvokesNothing(w: World, approval: nat, approved: bool, user: string, id: TaskId)
    ensures NothingInvoked(w, OrSame(Decide(w, approval, approved, user), w), id)
  {
    hide CanTransition;
    hide InvocationsOf;
    if approval < |w.approvals| {
      var row := w.approvals[approval];
      InvocationsSnoc(w.log, Decided(row.task, row.action, approved), id);
      InvocationsSnoc(w.log + [Decided(row.task, row.action, approved)],
                      Entered(row.task, if approved then Executing else Cancelled), id);
    }
  }

  lemma ServedInvokesNothing(w: World, a: Action, id: TaskId)
    ensures NothingInvoked(w, Served(w, a), id)
  {
    hide CanTransition;
    hide InvocationsOf;
    hide Decide;
    match a {
      case Create(other, timeout) => InvocationsSnoc(w.log, Entered(other, Created), id);
      case Decision(approval, approved, user) => DecideInvokesNothing(w, approval, approved, user, id);
      case Cancel(other) => TransitionInvokesNothing(w, id, other, Cancelled);
      case Transit(other, target) => TransitionInvokesNothing(w, id, other, target);
      case Request(other, step) =>
        var asked := w.(approvals := w.approvals + [PendingRow(other, step)]);
        TransitionInvokesNothing(asked, id, other, WaitingForApproval);
      case _ =>
    }
  }

  /** A step of a run invokes nothing for any other task, and for its own only where it tries a step. */
  lemma AdvanceInvokesNothing(w: World, f: Flight, id: TaskId)
    requires f.task != id || !f.phase.Trying?
    ensures NothingInvoked(w, Advance(w, f).world, id)
  {
    hide CanTransition;
    hide Exceeded;
    hide InvocationsOf;
    match f.phase {
      case Moving(first, last, goal) =>
        if first < |HAPPY_ORDER| {
          TransitionInvokesNothing(w, id, f.task, HAPPY_ORDER[first]);
        }
      case Jumping(goal) => TransitionInvokesNothing(w, id, f.task, Target(goal));
      case Asking(step) =>
        var asked := w.(approvals := w.approvals + [PendingRow(f.task, step)]);
        TransitionInvokesNothing(asked, id, f.task, WaitingForApproval);
      case Trying(step, retries) => InvocationsSnoc(w.log, Invoked(f.task, step), id);
      case Pausing(stop) => TransitionInvokesNothing(w, id, f.task, WaitingForApproval);
      case Handling(stop) => HandleInvokesNothing(w, f, stop, id);
      case _ =>
    }
  }

  lemma HandleInvokesNothing(w: World, f: Flight, stop: Stop, id: TaskId)
    ensures NothingInvoked(w, Handle(w, f, stop).world, id)
  {
    hide CanTransition;
    hide InvocationsOf;
    var rows := if f.staged.Some? then [PendingRow(f.task, f.staged.value)] else [];
    var target := if stop.OutOfLimits? then TimedOut else Failed;
    TransitionInvokesNothing(w.(approvals := w.approvals + rows), id, f.task, target);
  }

  /** On a dead task a stalled run stays so: the walk to EXECUTING is refused. */
  lemma AdvanceStaysStalled(w: World, f: Flight)
    requires Stalled(f) && IsDead(w, f.task)
    ensures !f.phase.Trying? && Stalled(Advance(w, f).flight) && Advance(w, f).flight.p == f.p
  {
  }

  /** A dead task whose runs from number `n` on are stalled. */
  ghost predicate Quiet(s: System, id: TaskId, n: nat) {
    && SysInv(s) && IsDead(s.world, id)
    && forall k :: n <= k < |s.flights| && s.flights[k].task == id ==> Stalled(s.flights[k])
  }

  lemma ActStaysQuiet(s: System, a: Action, id: TaskId, n: nat)
    requires Quiet(s, id, n) && n <= |s.flights|
    ensures Quiet(Act(s, a), id, n) && |s.flights| <= |Act(s, a).flights|
    ensures forall k :: 0 <= k < |s.flights| ==> Act(s, a).flights[k].task == s.flights[k].task
    ensures forall k :: n <= k < |Act(s, a).flights| && Act(s, a).flights[k].task == id ==>
              Act(s, a).flights[k].p == if k < |s.flights| then s.flights[k].p else FRESH
    ensures n == 0 ==> NothingInvoked(s.world, Act(s, a).world, id)
  {
    hide SysInv;
    hide Inv;
    hide Advance;
    hide Served;
    hide Stalled;
    hide Dead;
    var t := Act(s, a);
    ActKeepsInv(s, a);
    WorldsInv(s, t);
    DeadForGood(s.world, t.world, id);
    if a.Continue? {
      if a.k < |s.flights| {
        var f := s.flights[a.k];
        if f.task == id && n <= a.k {
          AdvanceStaysStalled(s.world, f);
        }
        AdvanceKeepsTask(s.world, f);
        if n == 0 {
          AdvanceInvokesNothing(s.world, f, id);
        }
      }
    } else if a.Begin? {
      FreshIsStalled(a);
    } else {
      ServedInvokesNothing(s.world, a, id);
    }
  }

  lemma WorldsInv(s: System, t: System)
    requires SysInv(s) && SysInv(t)
    ensures Inv(s.world) && Inv(t.world)
  {
  }

  lemma FreshIsStalled(a: Action)
    requires a.Begin?
    ensures Stalled(Fresh(a.id, a.cfg, a.env)) && Fresh(a.id, a.cfg, a.env).p == FRESH
  {
  }

  lemma AdvanceKeepsTask(w: World, f: Flight)
    ensures Advance(w, f).flight.task == f.task
  {
    hide CanTransition;
    hide Exceeded;
    hide Classify;
  }

  lemma {:induction false} StaysQuiet(s: System, actions: seq<Action>, id: TaskId, n: nat)
    requires Quiet(s, id, n) && n <= |s.flights|
    ensures Quiet(History(s, actions), id, n) && |s.flights| <= |History(s, actions).flights|
    ensures forall k :: |s.flights| <= k < |History(s, actions).flights|
                        && History(s, actions).flights[k].task == id ==>
              History(s, actions).flights[k].p == FRESH
    ensures n == 0 ==> NothingInvoked(s.world, History(s, actions).world, id)
  {
    hide Quiet;
    hide Act;
    hide InvocationsOf;
    if actions != [] {
      StaysQuiet(s, actions[..|actions| - 1], id, n);
      ActStaysQuiet(History(s, actions[..|actions| - 1]), actions[|actions| - 1], id, n);
    }
  }

  /**
   A run begun on a dead task never calls a step, whatever goes on beside it; and once every run of a dead
   task is stalled or over, nothing is ever invoked for that task again.
   */
  lemma DeadTasksAreLeftAlone(before: seq<Action>, after: seq<Action>, id: TaskId)
    requires IsDead(History(IDLE, before).world, id)
    ensures var s, t := History(IDLE, before), History(History(IDLE, before), after);
            && (forall k :: |s.flights| <= k < |t.flights| && t.flights[k].task == id ==> t.flights[k].p.calls == [])
            && ((forall k :: 0 <= k < |s.flights| && s.flights[k].task == id ==> Stalled(s.flights[k])) ==>
                  InvocationsOf(t.world.log, id) == InvocationsOf(s.world.log, id))
  {
    hide SysInv;
    hide InvocationsOf;
    hide Dead;
    HistoryKeepsInv(before);
    var s := History(IDLE, before);
    StaysQuiet(s, after, id, |s.flights|);
    if forall k :: 0 <= k < |s.flights| && s.flights[k].task == id ==> Stalled(s.flights[k]) {
      StaysQuiet(s, after, id, 0);
    }
  }
}
