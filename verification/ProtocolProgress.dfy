/** The exact outcome of a run that other sessions leave alone: its end state, and what it invokes. */
module ProtocolProgress {
  import opened Outcomes
  import opened StateMachine
  import opened Protocol
  import opened ProtocolLaws
  import opened ProtocolRuns

  /* ---- A run is the scan of its plan ---- */

  /** States a run starts working from. */
  predicate Startable(state: TaskState) {
    state.WaitingForApproval? || (PlaceOf(state).Some? && PlaceOf(state).value <= 7)
  }

  /** The state a plan is executed in. */
  function Seat(state: TaskState): TaskState {
    if state.Verifying? then Verifying else Executing
  }

  lemma HappyStepAllowed(i: nat)
    requires 1 <= i < |HAPPY_ORDER|
    ensures CanTransition(HAPPY_ORDER[i - 1], HAPPY_ORDER[i])
  {
  }

  lemma {:induction false} WalkAlongArrives(w: World, id: TaskId, first: nat, last: nat)
    requires id in w.tasks && 1 <= first <= last + 1 && last < |HAPPY_ORDER|
    requires w.tasks[id].state == HAPPY_ORDER[first - 1]
    ensures var walk := WalkAlong(w, id, first, last);
            && walk.arrived && walk.world.approvals == w.approvals
            && walk.world.tasks == w.tasks[id := w.tasks[id].(state := HAPPY_ORDER[last])]
    decreases last + 1 - first
  {
    hide CanTransition;
    if first <= last {
      HappyStepAllowed(first);
      var next := TransitionTask(w, id, HAPPY_ORDER[first]).value;
      WalkAlongArrives(next, id, first + 1, last);
    }
  }

  /** A walk forward in the happy order always arrives. */
  lemma WalkArrives(w: World, id: TaskId, target: TaskState)
    requires id in w.tasks && PlaceOf(w.tasks[id].state).Some? && PlaceOf(target).Some?
    requires PlaceOf(w.tasks[id].state).value <= PlaceOf(target).value
    ensures var walk := WalkTo(w, id, target);
            && walk.arrived && walk.world.approvals == w.approvals
            && walk.world.tasks == w.tasks[id := w.tasks[id].(state := target)]
  {
    hide CanTransition;
    hide WalkAlong;
    var current := w.tasks[id].state;
    assert HAPPY_ORDER[PlaceOf(current).value] == current && HAPPY_ORDER[PlaceOf(target).value] == target;
    if current == target {
      assert w.tasks == w.tasks[id := w.tasks[id].(state := target)];
    } else {
      WalkAlongArrives(w, id, PlaceOf(current).value + 1, PlaceOf(target).value);
    }
  }

  /** Up to the plan: the early walk arrives, and changes nothing but the state. */
  lemma StartableRunStarts(w: World, id: TaskId)
    requires id in w.tasks && Startable(w.tasks[id].state)
    ensures var early := EarlyWalk(w, id);
            && early.arrived && early.world.approvals == w.approvals && id in early.world.tasks
            && early.world.tasks == w.tasks[id := w.tasks[id].(state := early.world.tasks[id].state)]
            && Startable(early.world.tasks[id].state) && Seat(early.world.tasks[id].state) == Seat(w.tasks[id].state)
  {
    hide WalkTo;
    if w.tasks[id].state in {Created, Validating} {
      WalkArrives(w, id, Planning);
    } else {
      assert w.tasks == w.tasks[id := w.tasks[id].(state := w.tasks[id].state)];
    }
  }

  /** The walk to EXECUTING arrives, or the task is past it. */
  lemma StartableWalks(w: World, id: TaskId)
    requires id in w.tasks && Startable(w.tasks[id].state)
    ensures var started := WalkTo(w, id, Executing);
            && started.arrived && started.world.approvals == w.approvals
            && started.world.tasks == w.tasks[id := w.tasks[id].(state := Seat(w.tasks[id].state))]
  {
    var state := w.tasks[id].state;
    if state.Verifying? {
      assert w.tasks == w.tasks[id := w.tasks[id].(state := Verifying)];
    } else if !state.WaitingForApproval? {
      hide WalkTo;
      WalkArrives(w, id, Executing);
    }
  }

  /** How a run reports the stop of its scan: a task being verified cannot wait for approval. */
  function Reported(seat: TaskState, stop: Stop): Stop {
    if seat.Verifying? && stop.Unapproved? then NotTransitioned else stop
  }

  function EndState(seat: TaskState, stop: Stop): TaskState {
    match stop
    case AllDone => Completed
    case Unapproved(_) => if seat.Verifying? then Failed else WaitingForApproval
    case Escalation(_) => if seat.Verifying? then Verifying else WaitingForApproval
    case OutOfLimits => TimedOut
    case _ => Failed
  }

  function EndTask(task: Task, seat: TaskState, p: Progress, stop: Stop): Task {
    var ended := task.(state := EndState(seat, stop));
    if stop.AllDone? then ended.(result := Some(Summary(p.iterations, p.toolCalls, p.outputs)))
    else if ended.state.Failed? || ended.state.TimedOut? then ended.(error := Some(Reported(seat, stop)))
    else ended
  }

  lemma ConcludeFromSeat(w: World, id: TaskId, p: Progress, stop: Stop)
    requires id in w.tasks && w.tasks[id].state in {Executing, Verifying}
    ensures var r := Conclude(w, id, p, stop);
            var seat := w.tasks[id].state;
            && !r.raised && r.stop == Reported(seat, stop) && r.progress == p
            && r.world.tasks == w.tasks[id := EndTask(w.tasks[id], seat, p, stop)]
            && r.world.approvals == w.approvals + (if stop.Unapproved? then [PendingRow(id, stop.step)] else [])
  {
    hide WalkTo;
    if stop.AllDone? {
      WalkArrives(w, id, Verifying);
      WalkArrives(WalkTo(w, id, Verifying).world, id, Completed);
    }
  }

  /**
   A run from any working state is the left-to-right scan of the plan: the scan's stop alone fixes the
   end state, no transition before it is refused, and only an unapproved step adds a request.
   */
  lemma RunIsScan(w: World, cfg: Config, id: TaskId, env: Environment, plan: seq<Step>)
    requires id in w.tasks && Startable(w.tasks[id].state) && PlanOf(w.tasks[id], env) == Some(plan)
    ensures var r := RunTask(w, cfg, id, env);
            var (p, stop) := Scan(cfg, w.tasks[id].timeout, env, ApprovedActions(w, id), plan, 0, FRESH);
            var seat := Seat(w.tasks[id].state);
            && !r.raised && r.progress == p && r.stop == Reported(seat, stop)
            && r.world.tasks == w.tasks[id := EndTask(w.tasks[id].(plan := Some(plan)), seat, p, stop)]
            && r.world.approvals == w.approvals + (if stop.Unapproved? then [PendingRow(id, stop.step)] else [])
  {
    hide Scan;
    hide RunPlan;
    hide EarlyWalk;
    hide Startable;
    StartableRunStarts(w, id);
    var early := EarlyWalk(w, id).world;
    RunPlanIsScan(early, cfg, id, w.tasks[id].timeout, env, plan);
    assert ApprovedActions(early, id) == ApprovedActions(w, id);
  }

  lemma RunPlanIsScan(w: World, cfg: Config, id: TaskId, timeout: Option<int>, env: Environment, plan: seq<Step>)
    requires id in w.tasks && Startable(w.tasks[id].state)
    ensures var r := RunPlan(w, cfg, id, timeout, env, plan);
            var (p, stop) := Scan(cfg, timeout, env, ApprovedActions(w, id), plan, 0, FRESH);
            var seat := Seat(w.tasks[id].state);
            && !r.raised && r.progress == p && r.stop == Reported(seat, stop)
            && r.world.tasks == w.tasks[id := EndTask(w.tasks[id].(plan := Some(plan)), seat, p, stop)]
            && r.world.approvals == w.approvals + (if stop.Unapproved? then [PendingRow(id, stop.step)] else [])
  {
    hide Scan;
    hide Conclude;
    hide WalkTo;
    var ready := Put(w, id, w.tasks[id].(plan := Some(plan)));
    StartableWalks(ready, id);
    var started := WalkTo(ready, id, Executing);
    assert ApprovedActions(ready, id) == ApprovedActions(w, id);
    var (p, stop) := Scan(cfg, timeout, env, ApprovedActions(ready, id), plan, 0, FRESH);
    ConcludeFromSeat(WithCalls(started.world, cfg, id, p.calls), id, p, stop);
  }

  /** Completion means one success per plan step, in plan order, persisted; and nothing else completes a run. */
  lemma CompletionIsFullSuccess(w: World, cfg: Config, id: TaskId, env: Environment, plan: seq<Step>)
    requires id in w.tasks && Startable(w.tasks[id].state) && PlanOf(w.tasks[id], env) == Some(plan)
    ensures var r := RunTask(w, cfg, id, env);
            && id in r.world.tasks && (r.world.tasks[id].state == Completed <==> |r.progress.outputs| == |plan|)
            && |r.progress.outputs| <= |plan| && r.progress.outputs == Successes(plan, |r.progress.outputs|)
            && (r.world.tasks[id].state == Completed ==>
                  r.world.tasks[id].result == Some(Summary(|plan|, r.progress.toolCalls, Successes(plan, |plan|))))
  {
    hide Scan;
    hide RunTask;
    RunIsScan(w, cfg, id, env, plan);
    assert OnTrack(cfg, plan, 0, FRESH);
    ScanStaysOnTrack(cfg, w.tasks[id].timeout, env, ApprovedActions(w, id), plan, 0, FRESH);
  }

  /** A task that waits can be run again as if it had gone on executing. */
  lemma WaitingRunsAsExecuting(w: World, cfg: Config, id: TaskId, env: Environment)
    requires id in w.tasks && w.tasks[id].state == WaitingForApproval && PlanOf(w.tasks[id], env).Some?
    ensures var r := RunTask(w, cfg, id, env);
            var q := RunTask(Put(w, id, w.tasks[id].(state := Executing)), cfg, id, env);
            && r.world.tasks == q.world.tasks && r.world.approvals == q.world.approvals
            && r.progress == q.progress && r.stop == q.stop && r.raised == q.raised
  {
    hide Scan;
    hide RunTask;
    var v := Put(w, id, w.tasks[id].(state := Executing));
    var plan := PlanOf(w.tasks[id], env).value;
    RunIsScan(w, cfg, id, env, plan);
    RunIsScan(v, cfg, id, env, plan);
    assert ApprovedActions(v, id) == ApprovedActions(w, id);
  }

  /** The planner is asked only when no plan is cached; its plan is then kept, and later runs do not ask again. */
  lemma PlanIsKept(w: World, cfg: Config, id: TaskId, env: Environment, plan: seq<Step>, other: Option<seq<Step>>)
    requires id in w.tasks && Startable(w.tasks[id].state)
    ensures w.tasks[id].plan == Some(plan) ==> RunTask(w, cfg, id, env) == RunTask(w, cfg, id, env.(planned := other))
    ensures w.tasks[id].plan == Some(plan) || (w.tasks[id].plan.None? && env.planned == Some(plan)) ==>
              var v := RunTask(w, cfg, id, env).world; id in v.tasks && v.tasks[id].plan == Some(plan)
  {
    hide Scan;
    hide RunTask;
    if w.tasks[id].plan == Some(plan) {
      PlannerIsNotAsked(w, cfg, id, env, other);
    }
    if PlanOf(w.tasks[id], env) == Some(plan) {
      RunIsScan(w, cfg, id, env, plan);
    }
  }

  lemma PlannerIsNotAsked(w: World, cfg: Config, id: TaskId, env: Environment, other: Option<seq<Step>>)
    requires id in w.tasks && w.tasks[id].plan.Some?
    ensures RunTask(w, cfg, id, env) == RunTask(w, cfg, id, env.(planned := other))
  {
    hide Conclude;
    hide WalkTo;
    WalkKeepsTasks(w, id, Planning);
    forall approved, plan, timeout
      ensures Scan(cfg, timeout, env, approved, plan, 0, FRESH)
              == Scan(cfg, timeout, env.(planned := other), approved, plan, 0, FRESH)
    {
      ScanWithoutPlanner(cfg, timeout, env, other, approved, plan, 0, FRESH);
    }
    hide Scan;
  }

  lemma {:induction false} ScanWithoutPlanner(cfg: Config, timeout: Option<int>, env: Environment,
                                              other: Option<seq<Step>>, approved: set<string>, plan: seq<Step>,
                                              i: nat, p: Progress)
    requires i <= |plan|
    ensures Scan(cfg, timeout, env, approved, plan, i, p)
            == Scan(cfg, timeout, env.(planned := other), approved, plan, i, p)
    decreases |plan| - i
  {
    hide Attempts;
    if i < |plan| {
      var start := Checked(p.(stepIndex := i));
      AttemptsWithoutPlanner(cfg, timeout, env, other, plan[i], start, 0);
      ScanWithoutPlanner(cfg, timeout, env, other, approved, plan, i + 1,
                         Recorded(Attempts(cfg, timeout, env, plan[i], start, 0).0, plan[i]));
    }
  }

  lemma {:induction false} AttemptsWithoutPlanner(cfg: Config, timeout: Option<int>, env: Environment,
                                                  other: Option<seq<Step>>, step: Step, p: Progress, retries: nat)
    ensures Attempts(cfg, timeout, env, step, p, retries)
            == Attempts(cfg, timeout, env.(planned := other), step, p, retries)
    decreases cfg.limits.maxRetries - retries
  {
    hide Backoff;
    hide EffectiveTimeout;
    var q := Called(Checked(p), step);
    var outcome := OutcomeOf(cfg, env, step, p.toolCalls);
    if outcome.FailedWith? && Classify(cfg.limits.maxRetries, outcome.error, retries).Retry? {
      AttemptsWithoutPlanner(cfg, timeout, env, other, step, q.(slept := q.slept + Backoff(retries)), retries + 1);
    }
  }

  /** A run whose planner fails raises; it has at most walked to PLANNING. */
  lemma PlannerFailureRaises(w: World, cfg: Config, id: TaskId, env: Environment)
    requires id in w.tasks && Startable(w.tasks[id].state) && w.tasks[id].plan.None? && env.planned.None?
    ensures var r := RunTask(w, cfg, id, env);
            var state := w.tasks[id].state;
            && r.raised && r.stop == PlannerFailed && r.progress == FRESH && r.world.approvals == w.approvals
            && r.world.tasks
               == w.tasks[id := w.tasks[id].(state := if state.Created? || state.Validating? then Planning else state)]
  {
    hide WalkTo;
    if w.tasks[id].state in {Created, Validating} {
      WalkArrives(w, id, Planning);
    } else {
      assert w.tasks == w.tasks[id := w.tasks[id].(state := w.tasks[id].state)];
    }
  }

  /** A run on a task that does not exist raises and changes nothing. */
  lemma MissingTaskRaises(w: World, cfg: Config, id: TaskId, env: Environment)
    requires id !in w.tasks
    ensures var r := RunTask(w, cfg, id, env); r.raised && r.world == w
    ensures var p := RunTask(w, cfg, id, env).progress;
            && p.stepIndex == 0 && p.iterations == 0 && p.toolCalls == 0 && p.checks == 0 && p.slept == 0
            && p.outputs == [] && p.calls == []
  {
  }

  /** A run on a completed task walks nowhere and executes the plan from the start again. */
  lemma CompletedTaskRunsAgain(w: World, cfg: Config, id: TaskId, env: Environment, plan: seq<Step>)
    requires id in w.tasks && w.tasks[id].state == Completed && PlanOf(w.tasks[id], env) == Some(plan)
    ensures var r := RunTask(w, cfg, id, env);
            var (p, stop) := Scan(cfg, w.tasks[id].timeout, env, ApprovedActions(w, id), plan, 0, FRESH);
            && id in r.world.tasks && r.world.tasks[id].state == Completed
            && r.world.log == w.log + InvokedBy(cfg, id, p.calls)
            && (r.raised <==> !stop.AllDone? && !stop.Escalation?)
  {
    hide Scan;
    hide InvokedBy;
    hide Conclude;
    hide CanTransition;
    var ready := Put(w, id, w.tasks[id].(plan := Some(plan)));
    var (p, stop) := Scan(cfg, w.tasks[id].timeout, env, ApprovedActions(ready, id), plan, 0, FRESH);
    assert ApprovedActions(ready, id) == ApprovedActions(w, id);
    ConcludeCompleted(WithCalls(ready, cfg, id, p.calls), id, p, stop);
  }

  lemma ConcludeCompleted(w: World, id: TaskId, p: Progress, stop: Stop)
    requires id in w.tasks && w.tasks[id].state == Completed
    ensures var r := Conclude(w, id, p, stop);
            && id in r.world.tasks && r.world.tasks[id].state == Completed && r.world.log == w.log
            && (r.raised <==> !stop.AllDone? && !stop.Escalation?)
  {
  }

  /** A run on a dead task calls nothing: it raises, or fails a blocked task when there is a plan. */
  lemma DeadRunGoesNowhere(w: World, cfg: Config, id: TaskId, env: Environment)
    requires IsDead(w, id)
    ensures var r := RunTask(w, cfg, id, env);
            && r.progress == FRESH && id in r.world.tasks && r.world.approvals == w.approvals
            && (if w.tasks[id].state == Blocked && PlanOf(w.tasks[id], env).Some?
                then !r.raised && r.world.tasks[id].state == Failed && r.world.log == w.log + [Entered(id, Failed)]
                else r.raised && r.world.tasks[id].state == w.tasks[id].state && r.world.log == w.log)
  {
    var plan := PlanOf(w.tasks[id], env);
    if plan.Some? {
      DeadIsRefused(Put(w, id, w.tasks[id].(plan := plan)), id);
    }
  }

  lemma DeadIsRefused(w: World, id: TaskId)
    requires IsDead(w, id)
    ensures WalkTo(w, id, Executing) == Walk(w, false)
  {
  }

  /* ---- As wired: errors reach recovery as text ---- */

  ghost predicate Wired(env: Environment) {
    forall n :: env.outcome(n).FailedWith? ==> env.outcome(n).error.Text?
  }

  /** Everything step `i` of a plan needs, in a run where every step takes one invocation and two limit checks. */
  ghost predicate StepPasses(cfg: Config, timeout: Option<int>, env: Environment, approved: set<string>,
                             plan: seq<Step>, i: nat)
    requires i < |plan|
  {
    && i < cfg.limits.maxIterations && i < cfg.limits.maxToolCalls
    && !env.cancelled(2 * i) && !env.cancelled(2 * i + 1)
    && InTime(cfg.limits, timeout, env.elapsed(2 * i)) && InTime(cfg.limits, timeout, env.elapsed(2 * i + 1))
    && (plan[i].requiresApproval ==> plan[i].name in approved)
    && plan[i].agent in cfg.graphs && env.outcome(i).Succeeded?
  }

  /** Why a wired run stops at step `i` when the step does not pass. */
  function WiredStop(cfg: Config, timeout: Option<int>, env: Environment, approved: set<string>, step: Step,
                     i: nat): Stop {
    if env.cancelled(2 * i) then CancelledByUser
    else if !InTime(cfg.limits, timeout, env.elapsed(2 * i)) || i >= cfg.limits.maxIterations
            || i >= cfg.limits.maxToolCalls then OutOfLimits
    else if step.requiresApproval && step.name !in approved then Unapproved(step)
    else if env.cancelled(2 * i + 1) then CancelledByUser
    else if !InTime(cfg.limits, timeout, env.elapsed(2 * i + 1)) then OutOfLimits
    else StepFailure(step)
  }

  ghost predicate AtStep(p: Progress, i: nat) {
    p.iterations == i && p.toolCalls == i && p.checks == 2 * i && |p.outputs| == i
  }

  /** One wired step: it passes exactly when everything it needs is there, and is then called once. */
  lemma WiredStep(cfg: Config, timeout: Option<int>, env: Environment, approved: set<string>, plan: seq<Step>,
                  i: nat, p: Progress)
    requires i < |plan| && Wired(env) && AtStep(p, i)
    ensures var q := p.(stepIndex := i);
            var stop := Exceeded(cfg.limits, timeout, env, q);
            var refused := plan[i].requiresApproval && plan[i].name !in approved;
            var (r, failure) := Attempts(cfg, timeout, env, plan[i], Checked(q), 0);
            && r.outputs == p.outputs
            && (StepPasses(cfg, timeout, env, approved, plan, i) <==> stop.None? && !refused && failure.None?)
            && (failure.None? ==> AtStep(Recorded(r, plan[i]), i + 1) && r.calls == p.calls + [plan[i]])
            && (!StepPasses(cfg, timeout, env, approved, plan, i) ==>
                  WiredStop(cfg, timeout, env, approved, plan[i], i)
                  == if stop.Some? then stop.value else if refused then Unapproved(plan[i]) else failure.value)
  {
    hide Backoff;
    hide InTime;
    hide Exceeded;
    var q := p.(stepIndex := i);
    StoppedExactlyBy(cfg.limits, timeout, env, q);
    StoppedExactlyBy(cfg.limits, timeout, env, Checked(q));
    ExceededStop(cfg.limits, timeout, env, q);
    ExceededStop(cfg.limits, timeout, env, Checked(q));
    assert env.outcome(i).FailedWith? ==> env.outcome(i).error.Text?;
  }

  /**
   A wired scan passes a prefix of the plan, calling each of its steps once, and the first step that does not
   pass says why it stops.
   */
  lemma {:induction false} WiredScan(cfg: Config, timeout: Option<int>, env: Environment, approved: set<string>,
                                     plan: seq<Step>, i: nat, p: Progress)
    requires i <= |plan| && Wired(env) && AtStep(p, i)
    ensures var (q, stop) := Scan(cfg, timeout, env, approved, plan, i, p);
            var k := |q.outputs|;
            && i <= k <= |plan|
            && (forall j :: i <= j < k ==> StepPasses(cfg, timeout, env, approved, plan, j))
            && (if k == |plan| then stop == AllDone && q.calls == p.calls + plan[i..]
                else !StepPasses(cfg, timeout, env, approved, plan, k)
                     && stop == WiredStop(cfg, timeout, env, approved, plan[k], k))
    decreases |plan| - i
  {
    hide Exceeded;
    hide Attempts;
    hide StepPasses;
    hide WiredStop;
    if i < |plan| {
      var q := p.(stepIndex := i);
      WiredStep(cfg, timeout, env, approved, plan, i, p);
      if StepPasses(cfg, timeout, env, approved, plan, i) {
        var (r, failure) := Attempts(cfg, timeout, env, plan[i], Checked(q), 0);
        assert failure.None? && Exceeded(cfg.limits, timeout, env, q).None?;
        WiredScan(cfg, timeout, env, approved, plan, i + 1, Recorded(r, plan[i]));
        assert plan[i..] == [plan[i]] + plan[i + 1..];
        assert Scan(cfg, timeout, env, approved, plan, i, p)
               == Scan(cfg, timeout, env, approved, plan, i + 1, Recorded(r, plan[i]));
        assert p.calls + [plan[i]] + plan[i + 1..] == p.calls + plan[i..];
      } else {
        var stop := Exceeded(cfg.limits, timeout, env, q);
        var (r, failure) := Attempts(cfg, timeout, env, plan[i], Checked(q), 0);
        if stop.Some? {
          assert Scan(cfg, timeout, env, approved, plan, i, p) == (Checked(q), stop.value);
        } else if plan[i].requiresApproval && plan[i].name !in approved {
          assert Scan(cfg, timeout, env, approved, plan, i, p) == (Checked(q), Unapproved(plan[i]));
        } else {
          assert failure.Some?;
          assert Scan(cfg, timeout, env, approved, plan, i, p) == (r, failure.value);
        }
        assert Scan(cfg, timeout, env, approved, plan, i, p).0.outputs == p.outputs;
        assert Scan(cfg, timeout, env, approved, plan, i, p).1 == WiredStop(cfg, timeout, env, approved, plan[i], i);
      }
    }
  }

  /**
   As wired, a run completes exactly when every step has all it needs, and has then invoked every step
   once, in order; otherwise the first step that lacks something fixes the state it ends in.
   */
  lemma WiredRunEndsExactly(w: World, cfg: Config, id: TaskId, env: Environment, plan: seq<Step>)
    requires id in w.tasks && Startable(w.tasks[id].state) && Wired(env) && PlanOf(w.tasks[id], env) == Some(plan)
    ensures var approved, timeout, seat := ApprovedActions(w, id), w.tasks[id].timeout, Seat(w.tasks[id].state);
            var r := RunTask(w, cfg, id, env);
            var k := |r.progress.outputs|;
            && id in r.world.tasks && k <= |plan|
            && (forall j :: 0 <= j < k ==> StepPasses(cfg, timeout, env, approved, plan, j))
            && (if k == |plan| then
                  && r.world.tasks[id].state == Completed
                  && InvocationsOf(r.world.log, id) == InvocationsOf(w.log, id) + plan
                else
                  && !StepPasses(cfg, timeout, env, approved, plan, k)
                  && r.world.tasks[id].state
                     == EndState(seat, WiredStop(cfg, timeout, env, approved, plan[k], k)) != Completed)
  {
    hide Scan;
    hide RunTask;
    hide StepPasses;
    var approved, timeout := ApprovedActions(w, id), w.tasks[id].timeout;
    RunIsScan(w, cfg, id, env, plan);
    WiredScan(cfg, timeout, env, approved, plan, 0, FRESH);
    assert plan[0..] == plan && [] + plan == plan;
    if |RunTask(w, cfg, id, env).progress.outputs| == |plan| {
      RunInvocations(w, cfg, id, env);
      forall s | s in plan
        ensures s.agent in cfg.graphs
      {
        var j :| 0 <= j < |plan| && plan[j] == s;
        PassingStepHasGraph(cfg, timeout, env, approved, plan, j);
      }
      AllGraphed(cfg, plan);
    }
  }

  lemma PassingStepHasGraph(cfg: Config, timeout: Option<int>, env: Environment, approved: set<string>,
                            plan: seq<Step>, i: nat)
    requires i < |plan| && StepPasses(cfg, timeout, env, approved, plan, i)
    ensures plan[i].agent in cfg.graphs
  {
  }

  lemma {:induction false} AllGraphed(cfg: Config, calls: seq<Step>)
    requires forall s :: s in calls ==> s.agent in cfg.graphs
    ensures Graphed(cfg, calls) == calls
  {
    if calls != [] {
      AllGraphed(cfg, calls[..|calls| - 1]);
      assert calls[|calls| - 1] in calls;
    }
  }

  /* ---- What a run invokes ---- */

  lemma {:induction false} WalkAlongInvokesNothing(w: World, id: TaskId, first: nat, last: nat)
    requires last < |HAPPY_ORDER|
    ensures InvocationsOf(WalkAlong(w, id, first, last).world.log, id) == InvocationsOf(w.log, id)
    decreases last + 1 - first
  {
    hide CanTransition;
    hide InvocationsOf;
    if first <= last && TransitionTask(w, id, HAPPY_ORDER[first]).Ok? {
      InvocationsSnoc(w.log, Entered(id, HAPPY_ORDER[first]), id);
      WalkAlongInvokesNothing(TransitionTask(w, id, HAPPY_ORDER[first]).value, id, first + 1, last);
    }
  }

  lemma WalkInvokesNothing(w: World, id: TaskId, target: TaskState)
    requires id in w.tasks
    ensures InvocationsOf(WalkTo(w, id, target).world.log, id) == InvocationsOf(w.log, id)
  {
    hide CanTransition;
    hide WalkAlong;
    hide InvocationsOf;
    InvocationsSnoc(w.log, Entered(id, target), id);
    if PlaceOf(w.tasks[id].state).Some? && PlaceOf(target).Some? {
      WalkAlongInvokesNothing(w, id, PlaceOf(w.tasks[id].state).value + 1, PlaceOf(target).value);
    }
  }

  lemma FailInvokesNothing(w: World, id: TaskId, target: TaskState, p: Progress, stop: Stop, otherwise: World)
    requires id in w.tasks && otherwise.log == w.log
    ensures InvocationsOf(FailTask(w, id, target, p, stop, otherwise).world.log, id) == InvocationsOf(w.log, id)
  {
    hide CanTransition;
    hide InvocationsOf;
    InvocationsSnoc(w.log, Entered(id, target), id);
  }

  lemma ConcludeInvokesNothing(w: World, id: TaskId, p: Progress, stop: Stop)
    requires id in w.tasks
    ensures InvocationsOf(Conclude(w, id, p, stop).world.log, id) == InvocationsOf(w.log, id)
  {
    hide CanTransition;
    hide InvocationsOf;
    hide FailTask;
    hide ConcludeDone;
    InvocationsSnoc(w.log, Entered(id, WaitingForApproval), id);
    match stop {
      case AllDone => ConcludeDoneInvokesNothing(w, id, p);
      case Unapproved(step) =>
        FailInvokesNothing(w.(approvals := w.approvals + [PendingRow(id, step)]), id, Failed, p, NotTransitioned, w);
      case Escalation(_) =>
      case OutOfLimits => FailInvokesNothing(w, id, TimedOut, p, stop, w);
      case _ => FailInvokesNothing(w, id, Failed, p, stop, w);
    }
  }

  lemma ConcludeDoneInvokesNothing(w: World, id: TaskId, p: Progress)
    requires id in w.tasks
    ensures InvocationsOf(ConcludeDone(w, id, p).world.log, id) == InvocationsOf(w.log, id)
  {
    hide InvocationsOf;
    hide FailTask;
    hide WalkTo;
    var verifying := WalkTo(w, id, Verifying);
    WalkKeepsTasks(w, id, Verifying);
    WalkInvokesNothing(w, id, Verifying);
    FailInvokesNothing(verifying.world, id, Failed, p, NotTransitioned, verifying.world);
    var done := WalkTo(verifying.world, id, Completed);
    WalkKeepsTasks(verifying.world, id, Completed);
    WalkInvokesNothing(verifying.world, id, Completed);
    FailInvokesNothing(done.world, id, Failed, p, NotTransitioned, done.world);
  }

  lemma {:induction false} InvokedAreGraphed(cfg: Config, id: TaskId, log: seq<Event>, calls: seq<Step>)
    ensures InvocationsOf(log + InvokedBy(cfg, id, calls), id) == InvocationsOf(log, id) + Graphed(cfg, calls)
  {
    if calls == [] {
      assert log + [] == log;
    } else {
      var n := |calls| - 1;
      InvokedAreGraphed(cfg, id, log, calls[..n]);
      var before := log + InvokedBy(cfg, id, calls[..n]);
      if calls[n].agent in cfg.graphs {
        InvocationsSnoc(before, Invoked(id, calls[n]), id);
        assert log + InvokedBy(cfg, id, calls) == before + [Invoked(id, calls[n])];
      } else {
        assert log + InvokedBy(cfg, id, calls) == before;
      }
    }
  }

  /** Whatever its outcome, a run starts for its task the calls of its scan that have a graph, in order. */
  lemma RunInvocations(w: World, cfg: Config, id: TaskId, env: Environment)
    ensures var r := RunTask(w, cfg, id, env);
            InvocationsOf(r.world.log, id) == InvocationsOf(w.log, id) + Graphed(cfg, r.progress.calls)
  {
    hide RunPlan;
    hide WalkTo;
    hide InvocationsOf;
    if id in w.tasks {
      WalkKeepsTasks(w, id, Planning);
      WalkInvokesNothing(w, id, Planning);
      var early := EarlyWalk(w, id);
      var plan := PlanOf(early.world.tasks[id], env);
      if early.arrived && plan.Some? {
        RunPlanInvocations(early.world, cfg, id, w.tasks[id].timeout, env, plan.value);
      }
    }
  }

  lemma RunPlanInvocations(w: World, cfg: Config, id: TaskId, timeout: Option<int>, env: Environment, plan: seq<Step>)
    requires id in w.tasks
    ensures var r := RunPlan(w, cfg, id, timeout, env, plan);
            InvocationsOf(r.world.log, id) == InvocationsOf(w.log, id) + Graphed(cfg, r.progress.calls)
  {
    hide Scan;
    hide Conclude;
    hide WalkTo;
    hide InvocationsOf;
    var ready := Put(w, id, w.tasks[id].(plan := Some(plan)));
    var started := WalkTo(ready, id, Executing).world;
    WalkKeepsTasks(ready, id, Executing);
    WalkInvokesNothing(ready, id, Executing);
    var (p, stop) := Scan(cfg, timeout, env, ApprovedActions(ready, id), plan, 0, FRESH);
    ConcludeInvokesNothing(started, id, FRESH, NotTransitioned);
    ConcludeKeepsProgress(started, id, FRESH, NotTransitioned);
    ConcludeInvokesNothing(WithCalls(started, cfg, id, p.calls), id, p, stop);
    ConcludeKeepsProgress(WithCalls(started, cfg, id, p.calls), id, p, stop);
    InvokedAreGraphed(cfg, id, started.log, p.calls);
  }
}
