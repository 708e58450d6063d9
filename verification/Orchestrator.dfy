/**
 The services and the orchestrator as they work: classes over one database session, proved to do
 what `Protocol` says.  Sources: app/services/task_service.py, app/services/approval_service.py,
 app/agents/orchestrator.py.
 */
module Orchestrator {
  import opened Outcomes
  import opened StateMachine
  import opened Protocol

  /** The database session: committed rows, and rows added but not yet committed. */
  class Session {
    var tasks: map<TaskId, Task>
    var approvals: seq<Approval>
    var staged: seq<Approval>
    var log: seq<Event>

    constructor ()
      ensures View() == NOTHING && staged == []
    {
      tasks, approvals, staged, log := map[], [], [], [];
    }

    function View(): World
      reads this
    {
      World(tasks, approvals, log)
    }

    /** The world the next commit makes visible. */
    function Pending(): World
      reads this
    {
      World(tasks, approvals + staged, log)
    }
  }

  class TaskService {
    const session: Session

    constructor (session: Session)
      ensures this.session == session
    {
      this.session := session;
    }

    method GetTask(id: TaskId) returns (r: Result<Task, ServiceError>)
      ensures r == if id in session.tasks then Ok(session.tasks[id]) else Raised(NotFound)
    {
      r := if id in session.tasks then Ok(session.tasks[id]) else Raised(NotFound);
    }

    /** Ids are fresh; the row is committed at once. */
    method CreateTask(id: TaskId, timeout: Option<int>)
      requires id !in session.tasks && session.staged == []
      modifies session
      ensures session.View() == Protocol.CreateTask(old(session.View()), id, timeout) && session.staged == []
    {
      session.tasks := session.tasks[id := Task(Created, None, timeout, None, None)];
      session.log := session.log + [Entered(id, Created)];
    }

    /** Reads, checks and writes the state; the commit also flushes staged rows. */
    method TransitionTask(id: TaskId, target: TaskState) returns (r: Result<(), ServiceError>)
      modifies session
      ensures match Protocol.TransitionTask(old(session.Pending()), id, target)
              case Ok(next) => r.Ok? && session.View() == next && session.staged == []
              case Raised(error) =>
                r == Raised(error) && session.View() == old(session.View()) && session.staged == old(session.staged)
    {
      var found := GetTask(id);
      if found.Raised? {
        return Raised(found.error);
      }
      var moved := Transition(found.value.state, target);
      if moved.Raised? {
        return Raised(InvalidTransition);
      }
      session.tasks := session.tasks[id := found.value.(state := moved.value)];
      session.log := session.log + [Entered(id, moved.value)];
      session.approvals, session.staged := session.approvals + session.staged, [];
      r := Ok(());
    }

    method CancelTask(id: TaskId) returns (r: Result<(), ServiceError>)
      requires session.staged == []
      modifies session
      ensures session.View() == OrSame(Protocol.CancelTask(old(session.View()), id), old(session.View()))
      ensures r.Ok? <==> Protocol.CancelTask(old(session.View()), id).Ok?
      ensures session.staged == []
    {
      var found := GetTask(id);
      if found.Raised? {
        return Raised(found.error);
      }
      if !CanCancel(found.value.state) {
        return Raised(NotCancellable);
      }
      r := TransitionTask(id, Cancelled);
    }
  }

  class ApprovalService {
    const session: Session
    const tasks: TaskService

    constructor (session: Session, tasks: TaskService)
      ensures this.session == session && this.tasks == tasks
    {
      this.session, this.tasks := session, tasks;
    }

    /** Adds a pending row and pauses the task; when the task refuses, the row stays staged. */
    method CreateApproval(id: TaskId, step: Step) returns (r: Result<(), ServiceError>)
      requires tasks.session == session && session.staged == []
      modifies session
      ensures match Protocol.CreateApproval(old(session.View()), id, step)
              case Ok(next) => r.Ok? && session.View() == next && session.staged == []
              case Raised(error) =>
                r == Raised(error) && session.View() == old(session.View())
                && session.staged == [PendingRow(id, step)]
    {
      session.staged := session.staged + [PendingRow(id, step)];
      r := tasks.TransitionTask(id, WaitingForApproval);
    }

    /** The newest pending request of the task. */
    method GetPendingForTask(id: TaskId) returns (r: Result<nat, ServiceError>)
      ensures r == match PendingFor(session.approvals, id, |session.approvals|)
                   case Some(row) => Ok(row)
                   case None => Raised(NoPendingApproval)
    {
      var row := PendingFor(session.approvals, id, |session.approvals|);
      r := if row.Some? then Ok(row.value) else Raised(NoPendingApproval);
    }

    /** Writes the decision and drives the task; a refused transition rolls the decision back. */
    method Decide(approval: nat, approved: bool, user: string) returns (r: Result<(), ServiceError>)
      requires tasks.session == session && session.staged == []
      modifies session
      ensures session.View()
              == OrSame(Protocol.Decide(old(session.View()), approval, approved, user), old(session.View()))
      ensures r.Ok? <==> Protocol.Decide(old(session.View()), approval, approved, user).Ok?
      ensures session.staged == []
    {
      if approval >= |session.approvals| {
        return Raised(NotFound);
      }
      var rows, log := session.approvals, session.log;
      var row := rows[approval];
      var decided := row.(status := if approved then Approved else Rejected, decidedBy := Some(user));
      session.approvals := rows[approval := decided];
      session.log := log + [Decided(row.task, row.action, approved)];
      r := tasks.TransitionTask(row.task, if approved then Executing else Cancelled);
      if r.Raised? {
        session.approvals, session.log := rows, log;
      }
    }
  }

  /** The in-memory state of one run. */
  class RunState {
    var stepIndex: nat
    var iterations: nat
    var toolCallCount: nat
    var stepOutputs: seq<StepOutput>
    var checks: nat  // readings of the clock so far
    var slept: nat   // seconds slept so far
    ghost var calls: seq<Step>

    constructor ()
      ensures View() == FRESH
    {
      stepIndex, iterations, toolCallCount, stepOutputs, checks, slept := 0, 0, 0, [], 0, 0;
      calls := [];
    }

    ghost function View(): Progress
      reads this
    {
      Progress(stepIndex, iterations, toolCallCount, stepOutputs, checks, slept, calls)
    }
  }

  class Orchestrator {
    const cfg: Config
    const session: Session
    const tasks: TaskService
    const approvals: ApprovalService

    constructor (cfg: Config, session: Session, tasks: TaskService, approvals: ApprovalService)
      ensures this.cfg == cfg && this.session == session && this.tasks == tasks && this.approvals == approvals
    {
      this.cfg, this.session, this.tasks, this.approvals := cfg, session, tasks, approvals;
    }

    ghost predicate Wired() {
      tasks.session == session && approvals.session == session && approvals.tasks == tasks
    }

    /** Where a run stands: its invocations so far are all it has added to the world it started from. */
    ghost predicate Running(start: World, id: TaskId, state: RunState)
      reads session, state`toolCallCount, state`calls
    {
      && session.View() == WithCalls(start, cfg, id, state.calls)
      && session.staged == [] && state.toolCallCount == |state.calls|
    }

    method CheckLimits(timeout: Option<int>, env: Environment, state: RunState) returns (stop: Option<Stop>)
      modifies state`checks
      ensures stop == Exceeded(cfg.limits, timeout, env, old(state.View()))
      ensures state.View() == Checked(old(state.View()))
      ensures var elapsed := env.elapsed(old(state.checks));
              var late := elapsed > cfg.limits.maxExecutionSeconds as real
                          || (timeout.Some? && timeout.value != 0 && elapsed > timeout.value as real);
              && (stop == Some(CancelledByUser) <==> env.cancelled(old(state.checks)))
              && (stop == Some(OutOfLimits) <==>
                    && !env.cancelled(old(state.checks))
                    && (late || state.iterations >= cfg.limits.maxIterations
                        || state.toolCallCount >= cfg.limits.maxToolCalls))
              && (stop.None? || stop == Some(CancelledByUser) || stop == Some(OutOfLimits))
    {
      var n := state.checks;
      state.checks := n + 1;
      if env.cancelled(n) {
        return Some(CancelledByUser);
      }
      var own := if timeout.Some? && timeout.value != 0 then timeout.value else cfg.limits.maxExecutionSeconds;
      if env.elapsed(n) > Min(own, cfg.limits.maxExecutionSeconds) as real {
        return Some(OutOfLimits);
      }
      if state.iterations >= cfg.limits.maxIterations {
        return Some(OutOfLimits);
      }
      if state.toolCallCount >= cfg.limits.maxToolCalls {
        return Some(OutOfLimits);
      }
      return None;
    }

    /** Runs the step's subgraph, if there is one. */
    method InvokeSubgraph(ghost start: World, id: TaskId, step: Step, env: Environment, state: RunState)
      returns (outcome: Outcome)
      requires Running(start, id, state)
      modifies session, state`toolCallCount, state`calls
      ensures outcome == OutcomeOf(cfg, env, step, old(state.toolCallCount))
      ensures state.View() == Called(old(state.View()), step)
      ensures Running(start, id, state)
    {
      var n := state.toolCallCount;
      if step.agent in cfg.graphs {
        session.log := session.log + [Invoked(id, step)];
        outcome := env.outcome(n);
      } else {
        outcome := FailedWith(Text);
      }
      OneMoreCall(start, cfg, id, state.calls, step);
      state.toolCallCount := n + 1;
      state.calls := state.calls + [step];
    }

    /** One step with its retries. */
    method RunStepWithRecovery(ghost start: World, id: TaskId, step: Step, timeout: Option<int>, env: Environment,
                               state: RunState)
      returns (failure: Option<Stop>)
      requires Running(start, id, state)
      modifies session, state
      ensures Running(start, id, state)
      ensures (state.View(), failure) == Attempts(cfg, timeout, env, step, old(state.View()), 0)
    {
      hide Exceeded;
      hide Backoff;
      hide Running;
      var retryCount := 0;
      while true
        invariant Running(start, id, state)
        invariant Attempts(cfg, timeout, env, step, old(state.View()), 0)
                  == Attempts(cfg, timeout, env, step, state.View(), retryCount)
        decreases cfg.limits.maxRetries - retryCount
      {
        ghost var before := state.View();
        var stop := CheckLimits(timeout, env, state);
        assert Running(start, id, state);
        if stop.Some? {
          return stop;
        }
        var outcome := InvokeSubgraph(start, id, step, env, state);
        if outcome.Succeeded? {
          return None;
        }
        var action := Classify(cfg.limits.maxRetries, outcome.error, retryCount);
        match action {
          case Retry =>
            state.slept := state.slept + Backoff(retryCount);
            retryCount := retryCount + 1;
          case Escalate =>
            return Some(Escalation(step));
          case Fail =>
            return Some(StepFailure(step));
        }
      }
    }

    /** Asks for approval of a step and pauses the task. */
    method RequestApproval(id: TaskId, step: Step) returns (r: Result<(), ServiceError>)
      requires Wired() && session.staged == []
      modifies session
      ensures match Protocol.CreateApproval(old(session.View()), id, step)
              case Ok(next) => r.Ok? && session.View() == next && session.staged == []
              case Raised(error) =>
                r == Raised(error) && session.View() == old(session.View())
                && session.staged == [PendingRow(id, step)]
    {
      r := approvals.CreateApproval(id, step);
    }

    /** Runs the plan up to the first thing that stops it; an unapproved step is also asked about. */
    method ExecutePlan(ghost start: World, id: TaskId, plan: seq<Step>, timeout: Option<int>, approved: set<string>,
                       env: Environment, state: RunState)
      returns (raised: Stop)
      requires Wired() && Running(start, id, state)
      modifies session, state
      ensures var (p, stop) := Scan(cfg, timeout, env, approved, plan, 0, old(state.View()));
              && state.View() == p
              && Asked(WithCalls(start, cfg, id, p.calls), id, stop, raised, session.View(), session.staged)
    {
      hide Exceeded;
      hide Attempts;
      hide Running;
      ghost var before := state.View();
      AllAttemptsStop(timeout, env);
      for i := 0 to |plan|
        invariant Running(start, id, state)
        invariant Scan(cfg, timeout, env, approved, plan, 0, before)
                  == Scan(cfg, timeout, env, approved, plan, i, state.View())
      {
        var step := plan[i];
        state.stepIndex := i;
        var stop := CheckLimits(timeout, env, state);
        if stop.Some? {
          Stopped(start, id, state);
          return stop.value;
        }
        if step.requiresApproval && step.name !in approved {
          Stopped(start, id, state);
          var r := RequestApproval(id, step);
          return if r.Ok? then Unapproved(step) else NotTransitioned;
        }
        var failure := RunStepWithRecovery(start, id, step, timeout, env, state);
        if failure.Some? {
          Stopped(start, id, state);
          return failure.value;
        }
        state.stepOutputs := state.stepOutputs + [StepOutput(step.name, step.agent, true)];
        state.iterations := state.iterations + 1;
      }
      Stopped(start, id, state);
      return AllDone;
    }

    /**
     What the plan's stop leaves behind: an unapproved step has been asked about, everything else has not touched
     the task.
     */
    ghost predicate Asked(w: World, id: TaskId, stop: Stop, raised: Stop, after: World, staged: seq<Approval>) {
      if stop.Unapproved? then
        match CreateApproval(w, id, stop.step)
        case Ok(next) => raised == stop && after == next && staged == []
        case Raised(_) => raised == NotTransitioned && after == w && staged == [PendingRow(id, stop.step)]
      else raised == stop && after == w && staged == []
    }

    /** No step's failure and no limit is a missing approval. */
    lemma AllAttemptsStop(timeout: Option<int>, env: Environment)
      ensures forall p :: Exceeded(cfg.limits, timeout, env, p).Some? ==>
                !Exceeded(cfg.limits, timeout, env, p).value.Unapproved?
      ensures forall step, p :: Attempts(cfg, timeout, env, step, p, 0).1.Some? ==>
                !Attempts(cfg, timeout, env, step, p, 0).1.value.Unapproved?
    {
      hide Exceeded;
      hide Attempts;
      forall p
        ensures Exceeded(cfg.limits, timeout, env, p).Some? ==> !Exceeded(cfg.limits, timeout, env, p).value.Unapproved?
      {
        ExceededStop(cfg.limits, timeout, env, p);
      }
      forall step, p
        ensures Attempts(cfg, timeout, env, step, p, 0).1.Some? ==>
                  !Attempts(cfg, timeout, env, step, p, 0).1.value.Unapproved?
      {
        AttemptsStop(cfg, timeout, env, step, p, 0);
      }
    }

    lemma Stopped(start: World, id: TaskId, state: RunState)
      requires Running(start, id, state)
      ensures session.View() == WithCalls(start, cfg, id, state.calls) && session.staged == []
    {
    }

    /** Walks the happy order towards the target, or tries the one transition when either end is off it. */
    method WalkTo(id: TaskId, target: TaskState) returns (arrived: bool)
      requires Wired() && id in session.tasks && session.staged == []
      modifies session
      ensures Walk(session.View(), arrived) == Protocol.WalkTo(old(session.View()), id, target)
      ensures session.staged == []
    {
      hide CanTransition;
      hide WalkAlong;
      assert session.Pending() == session.View();
      var current := session.tasks[id].state;
      if current == target {
        return true;
      }
      if PlaceOf(current).None? || PlaceOf(target).None? {
        var r := tasks.TransitionTask(id, target);
        return r.Ok?;
      }
      arrived := WalkOrder(id, PlaceOf(current).value + 1, PlaceOf(target).value);
    }

    method WalkOrder(id: TaskId, first: nat, last: nat) returns (arrived: bool)
      requires Wired() && last < |HAPPY_ORDER| && session.staged == []
      modifies session
      ensures Walk(session.View(), arrived) == WalkAlong(old(session.View()), id, first, last)
      ensures session.staged == []
    {
      hide Transition;
      hide CanTransition;
      var place := first;
      while place <= last
        invariant session.staged == []
        invariant WalkAlong(old(session.View()), id, first, last) == WalkAlong(session.View(), id, place, last)
      {
        assert session.Pending() == session.View();
        var r := tasks.TransitionTask(id, HAPPY_ORDER[place]);
        if r.Raised? {
          return false;
        }
        place := place + 1;
      }
      return true;
    }

    /** The cached plan, or the planner's, which is then cached; nothing when the planner fails. */
    method PlanFor(id: TaskId, env: Environment) returns (plan: Option<seq<Step>>)
      requires id in session.tasks
      modifies session`tasks
      ensures plan == PlanOf(old(session.tasks)[id], env)
      ensures session.tasks == if plan.Some? then old(session.tasks)[id := old(session.tasks)[id].(plan := plan)]
                               else old(session.tasks)
    {
      var task := session.tasks[id];
      if task.plan.Some? {
        plan := task.plan;
        assert task == task.(plan := plan);
      } else {
        plan := env.planned;
        if plan.Some? {
          session.tasks := session.tasks[id := task.(plan := plan)];
        }
      }
    }

    lemma TransitionKeepsTask(w: World, id: TaskId, target: TaskState)
      requires id in w.tasks
      ensures Protocol.TransitionTask(w, id, target).Ok? ==> id in Protocol.TransitionTask(w, id, target).value.tasks
    {
    }

    /** Keeps why the task failed. */
    method NoteError(id: TaskId, stop: Stop)
      requires id in session.tasks
      modifies session`tasks
      ensures session.tasks == old(session.tasks)[id := old(session.tasks)[id].(error := Some(stop))]
    {
      session.tasks := session.tasks[id := session.tasks[id].(error := Some(stop))];
    }

    /** The handler of last resort; a refused transition escapes and rolls staged rows back. */
    method FailTask(id: TaskId, target: TaskState, stop: Stop) returns (raised: bool)
      requires Wired() && id in session.tasks
      modifies session
      ensures match Protocol.TransitionTask(old(session.Pending()), id, target)
              case Ok(next) =>
                !raised && id in next.tasks && session.View() == Put(next, id, next.tasks[id].(error := Some(stop)))
              case Raised(_) => raised && session.View() == old(session.View())
      ensures session.staged == []
    {
      hide Protocol.TransitionTask;
      ghost var pending := session.Pending();
      TransitionKeepsTask(pending, id, target);
      var r := tasks.TransitionTask(id, target);
      raised := r.Raised?;
      if raised {
        session.staged := [];
      } else {
        NoteError(id, stop);
      }
    }

    /** The end of a run: the final walks, or the handler for whatever stopped the plan. */
    method Finish(id: TaskId, ghost before: World, ghost stop: Stop, caught: Stop, state: RunState)
      returns (raised: bool)
      requires Wired() && id in before.tasks
      requires Asked(before, id, stop, caught, session.View(), session.staged)
      modifies session
      ensures session.staged == []
      ensures var r := Protocol.Conclude(before, id, state.View(), stop);
              session.View() == r.world && raised == r.raised && state.View() == r.progress
    {
      hide Protocol.TransitionTask;
      hide Protocol.ConcludeDone;
      match caught {
        case AllDone =>
          raised := FinishDone(id, state);
        case Unapproved(_) =>
          AskedIsWaiting(before, id, stop);
          raised := PauseIfAllowed(id);
        case Escalation(_) =>
          raised := PauseIfAllowed(id);
        case OutOfLimits =>
          assert session.Pending() == before;
          raised := FailTask(id, TimedOut, caught);
        case NotTransitioned =>
          ghost var pending := session.Pending();
          raised := FailTask(id, Failed, caught);
          assert stop.Unapproved? ==> pending == before.(approvals := before.approvals + [PendingRow(id, stop.step)]);
          assert stop.NotTransitioned? ==> pending == before;
        case CancelledByUser =>
          assert session.Pending() == before;
          raised := FailTask(id, Failed, caught);
        case StepFailure(_) =>
          assert session.Pending() == before;
          raised := FailTask(id, Failed, caught);
        case PlannerFailed =>
          assert session.Pending() == before;
          raised := FailTask(id, Failed, caught);
      }
    }

    /** A task that has been asked about is already paused. */
    lemma AskedIsWaiting(w: World, id: TaskId, stop: Stop)
      requires stop.Unapproved?
      ensures var asked := CreateApproval(w, id, stop.step);
              asked.Ok? ==>
                id in asked.value.tasks && Protocol.TransitionTask(asked.value, id, WaitingForApproval).Raised?
    {
    }

    /** Pauses the task where its state still allows it. */
    method PauseIfAllowed(id: TaskId) returns (raised: bool)
      requires Wired() && id in session.tasks && session.staged == []
      modifies session
      ensures session.View()
              == OrSame(Protocol.TransitionTask(old(session.View()), id, WaitingForApproval), old(session.View()))
      ensures session.staged == [] && !raised
    {
      assert session.Pending() == session.View();
      if CanTransition(session.tasks[id].state, WaitingForApproval) {
        var r := tasks.TransitionTask(id, WaitingForApproval);
      }
      return false;
    }

    /** Verifying, completed, and the result persisted. */
    method FinishDone(id: TaskId, state: RunState) returns (raised: bool)
      requires Wired() && id in session.tasks && session.staged == []
      modifies session
      ensures session.staged == []
      ensures var r := Protocol.ConcludeDone(old(session.View()), id, state.View());
              session.View() == r.world && raised == r.raised && state.View() == r.progress
    {
      hide Protocol.WalkTo;
      hide Protocol.TransitionTask;
      WalkKeepsTasks(session.View(), id, Verifying);
      var arrived := WalkTo(id, Verifying);
      if arrived {
        WalkKeepsTasks(session.View(), id, Completed);
        arrived := WalkTo(id, Completed);
      }
      assert session.Pending() == session.View();
      if !arrived {
        raised := FailTask(id, Failed, NotTransitioned);
        return;
      }
      var summary := Summary(state.iterations, state.toolCallCount, state.stepOutputs);
      session.tasks := session.tasks[id := session.tasks[id].(result := Some(summary))];
      return false;
    }

    /** From the plan on: everything that goes wrong is handled. */
    method RunThePlan(id: TaskId, plan: seq<Step>, timeout: Option<int>, ghost before: World, env: Environment,
                      state: RunState)
      returns (raised: bool)
      requires Wired() && id in before.tasks && session.staged == [] && state.View() == FRESH
      requires session.View() == Put(before, id, before.tasks[id].(plan := Some(plan)))
      modifies session, state
      ensures session.staged == []
      ensures var r := RunPlan(before, cfg, id, timeout, env, plan);
              session.View() == r.world && raised == r.raised && state.View() == r.progress
    {
      hide Protocol.WalkTo;
      hide Scan;
      hide Conclude;
      hide Asked;
      var approved := ApprovedActions(session.View(), id);
      WalkKeepsTasks(session.View(), id, Executing);
      var arrived := WalkTo(id, Executing);
      ghost var start := session.View();
      if !arrived {
        NothingAsked(start, id);
        raised := Finish(id, start, NotTransitioned, NotTransitioned, state);
        return;
      }
      NoCalls(start, id);
      var caught := ExecutePlan(start, id, plan, timeout, approved, env, state);
      ghost var (p, stop) := Scan(cfg, timeout, env, approved, plan, 0, FRESH);
      raised := Finish(id, WithCalls(start, cfg, id, p.calls), stop, caught, state);
    }

    /** One run of the orchestrator on a task. */
    method Run(id: TaskId, env: Environment) returns (state: RunState, raised: bool)
      requires Wired() && session.staged == []
      modifies session
      ensures fresh(state) && session.staged == []
      ensures var r := RunTask(old(session.View()), cfg, id, env);
              session.View() == r.world && raised == r.raised && state.View() == r.progress
    {
      hide Protocol.WalkTo;
      hide RunPlan;
      state := new RunState();
      if id !in session.tasks {
        return state, true;
      }
      var timeout := session.tasks[id].timeout;
      WalkKeepsTasks(session.View(), id, Planning);
      if session.tasks[id].state in {Created, Validating} {
        var arrived := WalkTo(id, Planning);
        if !arrived {
          return state, true;
        }
      }
      ghost var early := session.View();
      var plan := PlanFor(id, env);
      if plan.None? {
        return state, true;
      }
      raised := RunThePlan(id, plan.value, timeout, early, env, state);
    }

    lemma NothingAsked(w: World, id: TaskId)
      ensures Asked(w, id, NotTransitioned, NotTransitioned, w, [])
    {
    }

    lemma NoCalls(w: World, id: TaskId)
      ensures WithCalls(w, cfg, id, []) == w
    {
    }
  }
}
