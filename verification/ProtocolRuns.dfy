/** The limits of a step, of a scan and of a whole run. */
module ProtocolRuns {
  import opened Outcomes
  import opened StateMachine
  import opened Protocol

  function NonNegative(n: int): nat {
    if n < 0 then 0 else n
  }

  /* ---- Time ---- */

  /** The time allowed: the limit for all runs, and the task's own timeout if it has one that is not zero. */
  predicate InTime(limits: Limits, timeout: Option<int>, elapsed: real) {
    && elapsed <= limits.maxExecutionSeconds as real
    && (timeout.Some? && timeout.value != 0 ==> elapsed <= timeout.value as real)
  }

  /**
   A check stops a run when it is cancelled, out of time, or has used up its iterations or its calls, and only
   then.
   */
  lemma StoppedExactlyBy(limits: Limits, timeout: Option<int>, env: Environment, p: Progress)
    ensures var stop := Exceeded(limits, timeout, env, p);
            && (stop == Some(CancelledByUser) <==> env.cancelled(p.checks))
            && (stop == Some(OutOfLimits) <==>
                  && !env.cancelled(p.checks)
                  && (!InTime(limits, timeout, env.elapsed(p.checks)) || p.iterations >= limits.maxIterations
                      || p.toolCalls >= limits.maxToolCalls))
            && (stop.None? <==>
                  && !env.cancelled(p.checks) && InTime(limits, timeout, env.elapsed(p.checks))
                  && p.iterations < limits.maxIterations && p.toolCalls < limits.maxToolCalls)
  {
  }

  /* ---- Attempts ---- */

  /** The sleep that retries number `retries` + 1 and on can add up to. */
  function SleepBudget(maxRetries: int, retries: nat): nat
    decreases maxRetries - retries
  {
    if retries >= maxRetries then 0
    else Min(Power2(retries), 5) + SleepBudget(maxRetries, retries + 1)
  }

  /** One step makes at most `maxRetries` + 1 attempts, within the tool-call limit, and sleeps within its budget. */
  lemma {:induction false} AttemptsBounded(cfg: Config, timeout: Option<int>, env: Environment, step: Step,
                                           p: Progress, retries: nat)
    requires p.toolCalls == |p.calls| && p.toolCalls <= NonNegative(cfg.limits.maxToolCalls)
    ensures var (q, failure) := Attempts(cfg, timeout, env, step, p, retries);
            && q.toolCalls == |q.calls| <= NonNegative(cfg.limits.maxToolCalls)
            && p.toolCalls <= q.toolCalls <= p.toolCalls + NonNegative(cfg.limits.maxRetries - retries) + 1
            && q.slept <= p.slept + SleepBudget(cfg.limits.maxRetries, retries)
            && q.iterations == p.iterations && q.outputs == p.outputs && q.stepIndex == p.stepIndex
            && (failure.None? ==> p.iterations < cfg.limits.maxIterations && p.toolCalls < q.toolCalls)
    decreases cfg.limits.maxRetries - retries
  {
    hide Power2;
    var q := Called(Checked(p), step);
    if Exceeded(cfg.limits, timeout, env, p).None? {
      var outcome := OutcomeOf(cfg, env, step, p.toolCalls);
      if outcome.FailedWith? && Classify(cfg.limits.maxRetries, outcome.error, retries).Retry? {
        AttemptsBounded(cfg, timeout, env, step, q.(slept := q.slept + Backoff(retries)), retries + 1);
      }
    }
  }

  /** The errors recovery retries while there are retries left. */
  predicate Retried(error: AgentError) {
    error.Typed? && error.retryable
    && !(error.kind.Validation? || error.kind.Authentication? || error.kind.Authorization?
         || error.kind.ApprovalRequired? || error.kind.Timeout?)
  }

  /** Some retried error every time: exactly `maxRetries` + 1 attempts, the whole sleep budget, then escalation. */
  lemma {:induction false} RetriesAreExhausted(cfg: Config, timeout: Option<int>, env: Environment, step: Step,
                                               p: Progress, retries: nat)
    requires step.agent in cfg.graphs && retries <= NonNegative(cfg.limits.maxRetries)
    requires forall n :: env.outcome(n).FailedWith? && Retried(env.outcome(n).error)
    requires forall n :: !env.cancelled(n) && InTime(cfg.limits, timeout, env.elapsed(n))
    requires p.iterations < cfg.limits.maxIterations
    requires p.toolCalls + NonNegative(cfg.limits.maxRetries) - retries < cfg.limits.maxToolCalls
    ensures var (q, failure) := Attempts(cfg, timeout, env, step, p, retries);
            && failure == Some(Escalation(step))
            && q.toolCalls == p.toolCalls + NonNegative(cfg.limits.maxRetries) - retries + 1
            && q.slept == p.slept + SleepBudget(cfg.limits.maxRetries, retries)
    decreases cfg.limits.maxRetries - retries
  {
    hide Power2;
    hide Exceeded;
    hide InTime;
    StoppedExactlyBy(cfg.limits, timeout, env, p);
    assert Retried(env.outcome(p.toolCalls).error);
    assert !env.cancelled(p.checks) && InTime(cfg.limits, timeout, env.elapsed(p.checks));
    if retries < cfg.limits.maxRetries {
      var q := Called(Checked(p), step);
      RetriesAreExhausted(cfg, timeout, env, step, q.(slept := q.slept + Backoff(retries)), retries + 1);
    }
  }

  lemma {:induction false} SleepFrom(maxRetries: int, retries: nat)
    ensures SleepBudget(maxRetries, retries)
            == if retries >= maxRetries then 0
               else if retries < 3 then (if retries == 0 then 1 else if retries == 1 then 2 else 4)
                                        + SleepBudget(maxRetries, retries + 1)
               else 5 * (maxRetries - retries)
    decreases maxRetries - retries
  {
    if 3 <= retries < maxRetries {
      PowerOfThree(retries);
      SleepFrom(maxRetries, retries + 1);
    }
    assert Power2(1) == 2 && Power2(2) == 4;
  }

  /**
   The whole budget of a step, in seconds: 0, 1, 3 and 7 for up to three retries, and five more for each
   further one.
   */
  lemma SleepAddsUp(maxRetries: int)
    ensures SleepBudget(maxRetries, 0)
            == if maxRetries <= 0 then 0
               else if maxRetries == 1 then 1
               else if maxRetries == 2 then 3
               else 7 + 5 * (maxRetries - 3)
  {
    hide SleepBudget;
    SleepFrom(maxRetries, 0);
    SleepFrom(maxRetries, 1);
    SleepFrom(maxRetries, 2);
    SleepFrom(maxRetries, 3);
  }

  lemma {:induction false} PowerOfThree(n: nat)
    requires n >= 3
    ensures Power2(n) >= 8
  {
    if n > 3 {
      PowerOfThree(n - 1);
    } else {
      assert Power2(1) == 2 && Power2(2) == 4;
    }
  }

  /**
   An error that is not retried ends the step at its first attempt, without sleep: it escalates or fails by its
   kind.
   */
  lemma FirstErrorDecides(cfg: Config, timeout: Option<int>, env: Environment, step: Step, p: Progress,
                          error: AgentError)
    requires Exceeded(cfg.limits, timeout, env, p).None? && step.agent in cfg.graphs
    requires env.outcome(p.toolCalls) == FailedWith(error) && !Retried(error)
    ensures var (q, failure) := Attempts(cfg, timeout, env, step, p, 0);
            && q.calls == p.calls + [step] && q.slept == p.slept && q.outputs == p.outputs
            && failure == Some(if error.Typed? && (error.kind.ApprovalRequired? || error.kind.Timeout?)
                               then Escalation(step) else StepFailure(step))
  {
    hide Exceeded;
  }

  /** A step without a compiled graph fails at its first attempt, whatever the subgraphs would answer. */
  lemma NoGraphFails(cfg: Config, timeout: Option<int>, env: Environment, step: Step, p: Progress)
    requires Exceeded(cfg.limits, timeout, env, p).None? && step.agent !in cfg.graphs
    ensures var (q, failure) := Attempts(cfg, timeout, env, step, p, 0);
            q.calls == p.calls + [step] && q.slept == p.slept && failure == Some(StepFailure(step))
  {
    hide Exceeded;
  }

  /** The outputs a plan's first `n` steps leave when they succeed. */
  function Successes(plan: seq<Step>, n: nat): seq<StepOutput>
    requires n <= |plan|
  {
    seq(n, i requires 0 <= i < n => StepOutput(plan[i].name, plan[i].agent, true))
  }

  /** The progress of a scan that has passed the first `i` steps. */
  ghost predicate OnTrack(cfg: Config, plan: seq<Step>, i: nat, p: Progress)
    requires i <= |plan|
  {
    && p.toolCalls == |p.calls| <= NonNegative(cfg.limits.maxToolCalls)
    && p.iterations == i <= NonNegative(cfg.limits.maxIterations) && i <= p.toolCalls
    && p.outputs == Successes(plan, i)
  }

  /** Wherever the scan stops, it is on track for the steps it has passed; when it is done it has passed them all. */
  lemma {:induction false} ScanStaysOnTrack(cfg: Config, timeout: Option<int>, env: Environment, approved: set<string>,
                                            plan: seq<Step>, i: nat, p: Progress)
    requires i <= |plan| && OnTrack(cfg, plan, i, p)
    ensures var (q, stop) := Scan(cfg, timeout, env, approved, plan, i, p);
            && i <= |q.outputs| <= |plan| && OnTrack(cfg, plan, |q.outputs|, q)
            && (stop == AllDone <==> |q.outputs| == |plan|)
            && (stop != AllDone ==> q.stepIndex == |q.outputs|)
            && (stop.Unapproved? ==>
                  && stop.step == plan[|q.outputs|] && stop.step.requiresApproval
                  && stop.step.name !in approved)
    decreases |plan| - i
  {
    hide Exceeded;
    hide Attempts;
    var q := p.(stepIndex := i);
    if i < |plan| && Exceeded(cfg.limits, timeout, env, q).None?
       && (plan[i].requiresApproval ==> plan[i].name in approved) {
      var (r, failure) := Attempts(cfg, timeout, env, plan[i], Checked(q), 0);
      AttemptsBounded(cfg, timeout, env, plan[i], Checked(q), 0);
      AttemptsStop(cfg, timeout, env, plan[i], Checked(q), 0);
      if failure.None? {
        assert Recorded(r, plan[i]).outputs == Successes(plan, i + 1);
        ScanStaysOnTrack(cfg, timeout, env, approved, plan, i + 1, Recorded(r, plan[i]));
      }
    }
    ExceededStop(cfg.limits, timeout, env, q);
  }

  /** A scan sleeps at most the budget of a step for each step it comes to. */
  lemma {:induction false} ScanSleeps(cfg: Config, timeout: Option<int>, env: Environment, approved: set<string>,
                                      plan: seq<Step>, i: nat, p: Progress)
    requires i <= |plan| && OnTrack(cfg, plan, i, p) && p.slept <= i * SleepBudget(cfg.limits.maxRetries, 0)
    ensures Scan(cfg, timeout, env, approved, plan, i, p).0.slept <= |plan| * SleepBudget(cfg.limits.maxRetries, 0)
    decreases |plan| - i
  {
    hide Exceeded;
    hide Attempts;
    hide SleepBudget;
    var budget, start := SleepBudget(cfg.limits.maxRetries, 0), Checked(p.(stepIndex := i));
    Budgets(budget, i, |plan|);
    if i < |plan| && Exceeded(cfg.limits, timeout, env, p.(stepIndex := i)).None?
       && (plan[i].requiresApproval ==> plan[i].name in approved) {
      var (r, failure) := Attempts(cfg, timeout, env, plan[i], start, 0);
      AttemptsBounded(cfg, timeout, env, plan[i], start, 0);
      Budgets(budget, i + 1, |plan|);
      if failure.None? {
        assert Recorded(r, plan[i]).outputs == Successes(plan, i + 1);
        ScanSleeps(cfg, timeout, env, approved, plan, i + 1, Recorded(r, plan[i]));
      }
    }
  }

  lemma Budgets(budget: nat, i: nat, n: nat)
    requires i <= n
    ensures i * budget <= n * budget && (i + 1) * budget == i * budget + budget
  {
  }

  /** Every run sleeps at most the budget of a step for each step of its plan. */
  lemma RunSleeps(w: World, cfg: Config, id: TaskId, env: Environment)
    requires id in w.tasks
    ensures var plan := match PlanOf(w.tasks[id], env) case Some(steps) => steps case None => [];
            RunTask(w, cfg, id, env).progress.slept <= |plan| * SleepBudget(cfg.limits.maxRetries, 0)
  {
    hide Scan;
    hide Conclude;
    hide WalkTo;
    hide SleepBudget;
    WalkKeepsTasks(w, id, Planning);
    var early := EarlyWalk(w, id);
    var plan := PlanOf(w.tasks[id], env);
    Budgets(SleepBudget(cfg.limits.maxRetries, 0), 0, if plan.Some? then |plan.value| else 0);
    if early.arrived && plan.Some? {
      assert OnTrack(cfg, plan.value, 0, FRESH);
      var ready := Put(early.world, id, early.world.tasks[id].(plan := plan));
      ScanSleeps(cfg, w.tasks[id].timeout, env, ApprovedActions(ready, id), plan.value, 0, FRESH);
      RunPlanKeepsProgress(early.world, cfg, id, w.tasks[id].timeout, env, plan.value);
    }
  }

  /** Every run, whatever happens: calls and iterations within their limits, one output per passed step. */
  lemma RunStaysWithinLimits(w: World, cfg: Config, id: TaskId, env: Environment)
    requires id in w.tasks
    ensures var p := RunTask(w, cfg, id, env).progress;
            var plan := match PlanOf(w.tasks[id], env) case Some(steps) => steps case None => [];
            && p.toolCalls == |p.calls| <= NonNegative(cfg.limits.maxToolCalls)
            && p.iterations == |p.outputs| <= NonNegative(cfg.limits.maxIterations)
            && p.iterations <= p.toolCalls
            && |p.outputs| <= |plan| && p.outputs == Successes(plan, |p.outputs|)
  {
    hide Scan;
    hide Conclude;
    hide WalkTo;
    WalkKeepsTasks(w, id, Planning);
    var early := EarlyWalk(w, id);
    var plan := PlanOf(w.tasks[id], env);
    if early.arrived && plan.Some? {
      assert OnTrack(cfg, plan.value, 0, FRESH);
      var ready := Put(early.world, id, early.world.tasks[id].(plan := plan));
      ScanStaysOnTrack(cfg, w.tasks[id].timeout, env, ApprovedActions(ready, id), plan.value, 0, FRESH);
      RunPlanKeepsProgress(early.world, cfg, id, w.tasks[id].timeout, env, plan.value);
    }
  }

  /** A run's progress is that of its scan, or none when the plan was not started. */
  lemma RunPlanKeepsProgress(w: World, cfg: Config, id: TaskId, timeout: Option<int>, env: Environment, plan: seq<Step>)
    requires id in w.tasks
    ensures var p := RunPlan(w, cfg, id, timeout, env, plan).progress;
            var ready := Put(w, id, w.tasks[id].(plan := Some(plan)));
            p == FRESH || p == Scan(cfg, timeout, env, ApprovedActions(ready, id), plan, 0, FRESH).0
  {
    hide Scan;
    hide Conclude;
    hide WalkTo;
    var ready := Put(w, id, w.tasks[id].(plan := Some(plan)));
    WalkKeepsTasks(ready, id, Executing);
    var started := WalkTo(ready, id, Executing).world;
    var (p, stop) := Scan(cfg, timeout, env, ApprovedActions(ready, id), plan, 0, FRESH);
    ConcludeKeepsProgress(started, id, FRESH, NotTransitioned);
    ConcludeKeepsProgress(WithCalls(started, cfg, id, p.calls), id, p, stop);
  }

  lemma ConcludeKeepsProgress(w: World, id: TaskId, p: Progress, stop: Stop)
    requires id in w.tasks
    ensures Conclude(w, id, p, stop).progress == p
  {
  }
}
