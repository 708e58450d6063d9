/** A run that is left alone does, step by step, what `Protocol.RunTask` says. */
module Alone {
  import opened Outcomes
  import opened StateMachine
  import opened Protocol
  import opened Interleaving

  /* ---- Steps with nothing in between ---- */

  /** A run's first `n` steps, with nothing in between. */
  function Steps(m: Moment, n: nat): Moment {
    if n == 0 then m
    else
      var before := Steps(m, n - 1);
      Advance(before.world, before.flight)
  }

  ghost predicate Reaches(m: Moment, end: Moment) {
    exists n: nat :: Steps(m, n) == end
  }

  lemma {:induction false} StepsAdd(m: Moment, a: nat, b: nat)
    ensures Steps(Steps(m, a), b) == Steps(m, a + b)
  {
    hide Advance;
    if b > 0 {
      StepsAdd(m, a, b - 1);
    }
  }

  lemma ReachesOn(m: Moment, middle: Moment, end: Moment)
    requires Reaches(m, middle) && Reaches(middle, end)
    ensures Reaches(m, end)
  {
    var a: nat :| Steps(m, a) == middle;
    var b: nat :| Steps(middle, b) == end;
    StepsAdd(m, a, b);
  }

  lemma OneStep(w: World, f: Flight)
    ensures Reaches(Moment(w, f), Advance(w, f))
  {
    assert Steps(Moment(w, f), 0) == Moment(w, f);
    assert Steps(Moment(w, f), 1) == Advance(w, f);
  }

  lemma TwoSteps(w: World, f: Flight)
    ensures var m := Advance(w, f); Reaches(Moment(w, f), Advance(m.world, m.flight))
  {
    hide Advance;
    var m := Advance(w, f);
    OneStep(w, f);
    OneStep(m.world, m.flight);
    ReachesOn(Moment(w, f), m, Advance(m.world, m.flight));
  }

  /** The session's copy of the task is the row. */
  ghost predicate InTouch(w: World, f: Flight) {
    f.task in w.tasks && f.loaded == w.tasks[f.task] && !f.refreshing
  }

  /** The run in its next phase, its copy refreshed. */
  function Onto(w: World, f: Flight, phase: Phase): Moment
    requires f.task in w.tasks
  {
    Moment(w, f.(loaded := w.tasks[f.task], phase := phase))
  }

  /* ---- Walks ---- */

  lemma {:induction false} AloneMoving(w: World, f: Flight, first: nat, last: nat, goal: Goal)
    requires InTouch(w, f) && f.phase == Moving(first, last, goal) && last < |HAPPY_ORDER|
    ensures var walk := WalkAlong(w, f.task, first, last);
            && f.task in walk.world.tasks
            && Reaches(Moment(w, f), Onto(walk.world, f, if walk.arrived then Arrived(goal) else Refused(goal)))
    decreases last + 1 - first
  {
    hide CanTransition;
    hide Reaches;
    WalkAlongKeepsTasks(w, f.task, first, last);
    var walk := WalkAlong(w, f.task, first, last);
    if first <= last && TransitionTask(w, f.task, HAPPY_ORDER[first]).Ok? {
      var m := Advance(w, f);
      var n := Advance(m.world, m.flight);
      TwoSteps(w, f);
      AloneMoving(n.world, n.flight, first + 1, last, goal);
      ReachesOn(Moment(w, f), n, Onto(walk.world, f, if walk.arrived then Arrived(goal) else Refused(goal)));
    } else {
      OneStep(w, f);
    }
  }

  lemma AloneJumping(w: World, f: Flight, goal: Goal)
    requires InTouch(w, f) && f.phase == Jumping(goal)
    ensures match TransitionTask(w, f.task, Target(goal))
            case Ok(next) => f.task in next.tasks && Reaches(Moment(w, f), Onto(next, f, Arrived(goal)))
            case Raised(_) => Reaches(Moment(w, f), Onto(w, f, Refused(goal)))
  {
    hide CanTransition;
    hide Reaches;
    OneStep(w, f);
    if TransitionTask(w, f.task, Target(goal)).Ok? {
      TwoSteps(w, f);
    }
  }

  lemma WalkingStep(w: World, f: Flight, goal: Goal)
    requires InTouch(w, f) && f.phase == Walking(goal)
    ensures Advance(w, f) == Moment(w, f.(phase := Chosen(f.loaded.state, goal)))
  {
  }

  lemma NoWayBack(w: World, id: TaskId, first: nat, last: nat)
    requires last < first && last < |HAPPY_ORDER|
    ensures WalkAlong(w, id, first, last) == Walk(w, true)
  {
  }

  lemma AloneWalking(w: World, f: Flight, goal: Goal)
    requires InTouch(w, f) && f.phase == Walking(goal)
    ensures var walk := WalkTo(w, f.task, Target(goal));
            && f.task in walk.world.tasks
            && Reaches(Moment(w, f), Onto(walk.world, f, if walk.arrived then Arrived(goal) else Refused(goal)))
  {
    hide TransitionTask;
    hide WalkAlong;
    hide Reaches;
    hide Advance;
    WalkingStep(w, f, goal);
    var state := w.tasks[f.task].state;
    var m := Advance(w, f);
    var walk := WalkTo(w, f.task, Target(goal));
    OneStep(w, f);
    if m.flight.phase.Moving? {
      AloneMoving(w, m.flight, PlaceOf(state).value + 1, PlaceOf(Target(goal)).value, goal);
      ReachesOn(Moment(w, f), m, Onto(walk.world, f, if walk.arrived then Arrived(goal) else Refused(goal)));
    } else if m.flight.phase.Jumping? {
      AloneJumping(w, m.flight, goal);
      ReachesOn(Moment(w, f), m, Onto(walk.world, f, if walk.arrived then Arrived(goal) else Refused(goal)));
    } else if state != Target(goal) {
      NoWayBack(w, f.task, PlaceOf(state).value + 1, PlaceOf(Target(goal)).value);
    }
  }

  /* ---- The plan ---- */

  /** Where a run goes when its plan stops. */
  function AfterScan(stop: Stop): Phase {
    match stop
    case AllDone => Walking(ToVerify)
    case Unapproved(step) => Asking(step)
    case Escalation(_) => Pausing(stop)
    case _ => Handling(stop)
  }

  /** A step with its retries, one call at a time. */
  lemma {:induction false} AloneTrying(start: World, w: World, f: Flight, step: Step, retries: nat)
    requires f.task in w.tasks && !f.refreshing && f.phase == Trying(step, retries)
    requires w == WithCalls(start, f.cfg, f.task, f.p.calls)
    ensures var (q, failure) := Attempts(f.cfg, f.timeout, f.env, step, f.p, retries);
            var g := if failure.None? then f.(p := Recorded(q, step), phase := OnStep(f.p.stepIndex + 1))
                     else f.(p := q, phase := AfterScan(failure.value));
            Reaches(Moment(w, f), Moment(WithCalls(start, f.cfg, f.task, q.calls), g)) && q.stepIndex == f.p.stepIndex
    decreases f.cfg.limits.maxRetries - retries
  {
    hide Exceeded;
    hide Backoff;
    hide Reaches;
    hide WithCalls;
    ExceededStop(f.cfg.limits, f.timeout, f.env, f.p);
    OneStep(w, f);
    if Exceeded(f.cfg.limits, f.timeout, f.env, f.p).None? {
      OneMoreCall(start, f.cfg, f.task, f.p.calls, step);
      var m := Advance(w, f);
      var n := Advance(m.world, m.flight);
      OneStep(m.world, m.flight);
      ReachesOn(Moment(w, f), m, n);
      if n.flight.phase.Trying? {
        AloneTrying(start, n.world, n.flight, step, retries + 1);
        var (q, failure) := Attempts(f.cfg, f.timeout, f.env, step, f.p, retries);
        var g := if failure.None? then f.(p := Recorded(q, step), phase := OnStep(f.p.stepIndex + 1))
                 else f.(p := q, phase := AfterScan(failure.value));
        ReachesOn(Moment(w, f), n, Moment(WithCalls(start, f.cfg, f.task, q.calls), g));
      }
    }
  }

  /** The plan from step `i` on. */
  lemma {:induction false} AloneOnStep(start: World, w: World, f: Flight, i: nat)
    requires f.task in w.tasks && !f.refreshing && f.phase == OnStep(i) && i <= |f.plan|
    requires w == WithCalls(start, f.cfg, f.task, f.p.calls)
    ensures var (q, stop) := Scan(f.cfg, f.timeout, f.env, f.approved, f.plan, i, f.p);
            Reaches(Moment(w, f),
                    Moment(WithCalls(start, f.cfg, f.task, q.calls), f.(p := q, phase := AfterScan(stop))))
    decreases |f.plan| - i
  {
    hide Exceeded;
    hide Attempts;
    hide Reaches;
    hide WithCalls;
    var (q, stop) := Scan(f.cfg, f.timeout, f.env, f.approved, f.plan, i, f.p);
    var end := Moment(WithCalls(start, f.cfg, f.task, q.calls), f.(p := q, phase := AfterScan(stop)));
    var m := Advance(w, f);
    OneStep(w, f);
    ExceededStop(f.cfg.limits, f.timeout, f.env, f.p.(stepIndex := i));
    if m.flight.phase.Trying? {
      AloneTrying(start, w, m.flight, f.plan[i], 0);
      var (r, failure) := Attempts(f.cfg, f.timeout, f.env, f.plan[i], m.flight.p, 0);
      if failure.None? {
        var next := m.flight.(p := Recorded(r, f.plan[i]), phase := OnStep(i + 1));
        var v := WithCalls(start, f.cfg, f.task, r.calls);
        SameTasks(start, f.cfg, f.task, f.p.calls, r.calls);
        AloneOnStep(start, v, next, i + 1);
        ReachesOn(m, Moment(v, next), end);
      }
      ReachesOn(Moment(w, f), m, end);
    }
  }

  lemma SameTasks(w: World, cfg: Config, id: TaskId, before: seq<Step>, after: seq<Step>)
    ensures WithCalls(w, cfg, id, before).tasks == WithCalls(w, cfg, id, after).tasks
  {
  }

  /* ---- The end of a run ---- */

  ghost predicate IsOver(end: Moment, r: Report) {
    && end.world == r.world && end.flight.p == r.progress
    && end.flight.phase == Ended(r.stop, r.raised)
  }

  /** The run comes to an end with this report. */
  ghost predicate EndsAs(m: Moment, r: Report) {
    exists n: nat :: IsOver(Steps(m, n), r)
  }

  lemma EndsAfter(m: Moment, middle: Moment, r: Report)
    requires Reaches(m, middle) && EndsAs(middle, r)
    ensures EndsAs(m, r)
  {
    hide IsOver;
    var a: nat :| Steps(m, a) == middle;
    var b: nat :| IsOver(Steps(middle, b), r);
    StepsAdd(m, a, b);
  }

  lemma EndsHere(m: Moment, end: Moment, r: Report)
    requires Reaches(m, end) && IsOver(end, r)
    ensures EndsAs(m, r)
  {
    hide IsOver;
    var n: nat :| Steps(m, n) == end;
  }

  lemma AloneNoting(w: World, f: Flight, stop: Stop)
    requires f.task in w.tasks && f.refreshing && f.phase == Noting(stop)
    ensures EndsAs(Moment(w, f), Report(Put(w, f.task, w.tasks[f.task].(error := Some(stop))), f.p, stop, false))
  {
    hide Reaches;
    hide EndsAs;
    var m := Advance(w, f);
    TwoSteps(w, f);
    EndsHere(Moment(w, f), Advance(m.world, m.flight),
             Report(Put(w, f.task, w.tasks[f.task].(error := Some(stop))), f.p, stop, false));
  }

  lemma AloneHandling(w: World, f: Flight, stop: Stop, asked: World)
    requires f.task in w.tasks && !f.refreshing && f.phase == Handling(stop)
    requires asked == if f.staged.Some? then w.(approvals := w.approvals + [PendingRow(f.task, f.staged.value)]) else w
    ensures EndsAs(Moment(w, f), FailTask(asked, f.task, if stop.OutOfLimits? then TimedOut else Failed, f.p, stop, w))
  {
    hide TransitionTask;
    hide Reaches;
    hide EndsAs;
    assert w.approvals + [] == w.approvals;
    FailureIsCommitted(asked, f.task, if stop.OutOfLimits? then TimedOut else Failed);
    var r := FailTask(asked, f.task, if stop.OutOfLimits? then TimedOut else Failed, f.p, stop, w);
    var m := Advance(w, f);
    OneStep(w, f);
    if m.flight.phase.Noting? {
      AloneNoting(m.world, m.flight, stop);
      EndsAfter(Moment(w, f), m, r);
    } else {
      EndsHere(Moment(w, f), m, r);
    }
  }

  lemma FailureIsCommitted(w: World, id: TaskId, target: TaskState)
    requires id in w.tasks
    ensures TransitionTask(w, id, target).Ok? ==> id in TransitionTask(w, id, target).value.tasks
  {
  }

  /** A granted request: the task is paused, the copy refreshed, and the second pause skipped. */
  lemma AloneAsked(w: World, f: Flight, step: Step)
    requires InTouch(w, f) && f.phase == Asking(step) && CreateApproval(w, f.task, step).Ok?
    ensures EndsAs(Moment(w, f), Report(CreateApproval(w, f.task, step).value, f.p, Unapproved(step), false))
  {
    hide Reaches;
    hide EndsAs;
    var next := CreateApproval(w, f.task, step).value;
    var m := Advance(w, f);
    var n := Moment(next, f.(loaded := next.tasks[f.task], phase := Pausing(Unapproved(step))));
    TwoSteps(w, f);
    assert Advance(m.world, m.flight) == n;
    WaitingStaysPaused(next, n.flight, Unapproved(step));
    OneStep(next, n.flight);
    ReachesOn(Moment(w, f), n, Advance(next, n.flight));
    EndsHere(Moment(w, f), Advance(next, n.flight), Report(next, f.p, Unapproved(step), false));
  }

  lemma WaitingStaysPaused(w: World, f: Flight, stop: Stop)
    requires InTouch(w, f) && f.phase == Pausing(stop) && f.loaded.state == WaitingForApproval
    ensures Advance(w, f) == Moment(w, f.(phase := Ended(stop, false)))
  {
  }

  lemma AloneAsking(w: World, f: Flight, step: Step)
    requires InTouch(w, f) && f.phase == Asking(step) && f.staged.None?
    ensures EndsAs(Moment(w, f), Conclude(w, f.task, f.p, Unapproved(step)))
  {
    hide Reaches;
    hide EndsAs;
    hide FailTask;
    hide CreateApproval;
    if CreateApproval(w, f.task, step).Ok? {
      AloneAsked(w, f, step);
    } else {
      var m := Advance(w, f);
      OneStep(w, f);
      AloneHandling(w, m.flight, NotTransitioned, w.(approvals := w.approvals + [PendingRow(f.task, step)]));
      EndsAfter(Moment(w, f), m, Conclude(w, f.task, f.p, Unapproved(step)));
    }
  }

  lemma AloneEscalating(w: World, f: Flight, step: Step)
    requires InTouch(w, f) && f.phase == Pausing(Escalation(step))
    ensures EndsAs(Moment(w, f), Conclude(w, f.task, f.p, Escalation(step)))
  {
    hide Reaches;
    hide EndsAs;
    hide CanTransition;
    OneStep(w, f);
    EndsHere(Moment(w, f), Advance(w, f), Conclude(w, f.task, f.p, Escalation(step)));
  }

  /** From the end of the plan to COMPLETED and the persisted result. */
  lemma AloneVerifying(w: World, f: Flight)
    requires InTouch(w, f) && f.phase == Walking(ToVerify) && f.staged.None?
    ensures EndsAs(Moment(w, f), ConcludeDone(w, f.task, f.p))
  {
    hide Reaches;
    hide EndsAs;
    hide FailTask;
    hide WalkTo;
    AloneWalking(w, f, ToVerify);
    var verifying := WalkTo(w, f.task, Verifying);
    var m := Onto(verifying.world, f, if verifying.arrived then Walking(ToComplete) else Handling(NotTransitioned));
    if verifying.arrived {
      AloneCompleting(verifying.world, m.flight);
    } else {
      AloneHandling(verifying.world, m.flight, NotTransitioned, verifying.world);
    }
    EndsAfter(Moment(w, f), m, ConcludeDone(w, f.task, f.p));
  }

  /** How a run ends once its task is being verified. */
  function Completing(w: World, id: TaskId, p: Progress): Report
    requires id in w.tasks
  {
    var done := WalkTo(w, id, Completed);
    WalkKeepsTasks(w, id, Completed);
    if !done.arrived then FailTask(done.world, id, Failed, p, NotTransitioned, done.world)
    else
      var summary := Summary(p.iterations, p.toolCalls, p.outputs);
      Report(Put(done.world, id, done.world.tasks[id].(result := Some(summary))), p, AllDone, false)
  }

  lemma AloneCompleting(w: World, f: Flight)
    requires InTouch(w, f) && f.phase == Walking(ToComplete) && f.staged.None?
    ensures EndsAs(Moment(w, f), Completing(w, f.task, f.p))
  {
    hide Reaches;
    hide EndsAs;
    hide FailTask;
    hide WalkTo;
    AloneWalking(w, f, ToComplete);
    var done := WalkTo(w, f.task, Completed);
    var m := Onto(done.world, f, if done.arrived then Persisting else Handling(NotTransitioned));
    if done.arrived {
      OneStep(done.world, m.flight);
      EndsHere(m, Advance(done.world, m.flight), Completing(w, f.task, f.p));
    } else {
      AloneHandling(done.world, m.flight, NotTransitioned, done.world);
    }
    EndsAfter(Moment(w, f), m, Completing(w, f.task, f.p));
  }

  /** From where its scan stopped, a run ends as `Conclude` says. */
  lemma AloneConcludes(w: World, f: Flight, stop: Stop)
    requires InTouch(w, f) && f.phase == AfterScan(stop) && f.staged.None?
    ensures EndsAs(Moment(w, f), Conclude(w, f.task, f.p, stop))
  {
    hide EndsAs;
    hide FailTask;
    hide ConcludeDone;
    match stop {
      case AllDone => AloneVerifying(w, f);
      case Unapproved(step) => AloneAsking(w, f, step);
      case Escalation(step) => AloneEscalating(w, f, step);
      case _ => AloneHandling(w, f, stop, w);
    }
  }

  /* ---- The whole run ---- */

  /** A plan that is executed, up to its stop. */
  lemma AloneScans(w: World, f: Flight)
    requires InTouch(w, f) && f.phase == Walking(ToExecute) && f.p == FRESH
    requires WalkTo(w, f.task, Executing).arrived
    ensures var v := WalkTo(w, f.task, Executing).world;
            var (q, stop) := Scan(f.cfg, f.timeout, f.env, f.approved, f.plan, 0, FRESH);
            && f.task in v.tasks
            && Reaches(Moment(w, f), Onto(WithCalls(v, f.cfg, f.task, q.calls), f.(p := q), AfterScan(stop)))
  {
    hide Reaches;
    hide WalkTo;
    hide Scan;
    AloneWalking(w, f, ToExecute);
    var v := WalkTo(w, f.task, Executing).world;
    var m := Onto(v, f, OnStep(0));
    NoCallsYet(v, f.cfg, f.task);
    AloneOnStep(v, v, m.flight, 0);
    var (q, stop) := Scan(f.cfg, f.timeout, f.env, f.approved, f.plan, 0, FRESH);
    ReachesOn(Moment(w, f), m, Onto(WithCalls(v, f.cfg, f.task, q.calls), f.(p := q), AfterScan(stop)));
  }

  /** From the read approvals on. */
  lemma AloneExecuting(w: World, f: Flight)
    requires InTouch(w, f) && f.phase == Walking(ToExecute) && f.staged.None? && f.p == FRESH
    requires w.tasks[f.task].plan == Some(f.plan) && f.approved == ApprovedActions(w, f.task)
    ensures EndsAs(Moment(w, f), RunPlan(w, f.cfg, f.task, f.timeout, f.env, f.plan))
  {
    hide Reaches;
    hide EndsAs;
    hide Conclude;
    hide WalkTo;
    hide Scan;
    assert Put(w, f.task, w.tasks[f.task].(plan := Some(f.plan))) == w;
    WalkKeepsTasks(w, f.task, Executing);
    var started := WalkTo(w, f.task, Executing);
    var v := started.world;
    if started.arrived {
      AloneScans(w, f);
      var (q, stop) := Scan(f.cfg, f.timeout, f.env, f.approved, f.plan, 0, FRESH);
      var m := Onto(WithCalls(v, f.cfg, f.task, q.calls), f.(p := q), AfterScan(stop));
      AloneConcludes(m.world, m.flight, stop);
      EndsAfter(Moment(w, f), m, RunPlan(w, f.cfg, f.task, f.timeout, f.env, f.plan));
    } else {
      AloneWalking(w, f, ToExecute);
      var m := Onto(v, f, Handling(NotTransitioned));
      AloneConcludes(v, m.flight, NotTransitioned);
      EndsAfter(Moment(w, f), m, RunPlan(w, f.cfg, f.task, f.timeout, f.env, f.plan));
    }
  }

  lemma NoCallsYet(w: World, cfg: Config, id: TaskId)
    ensures WithCalls(w, cfg, id, []) == w
  {
  }

  /** The run that has its plan cached and its approvals read. */
  function Ready(w: World, f: Flight, plan: seq<Step>): Moment
    requires f.task in w.tasks
  {
    var ready := Put(w, f.task, w.tasks[f.task].(plan := Some(plan)));
    Onto(ready, f.(plan := plan, approved := ApprovedActions(ready, f.task)), Walking(ToExecute))
  }

  lemma AloneReads(w: World, f: Flight, plan: seq<Step>)
    requires InTouch(w, f) && f.phase == NeedsPlan && PlanOf(w.tasks[f.task], f.env) == Some(plan)
    ensures Reaches(Moment(w, f), Ready(w, f, plan))
  {
    hide Reaches;
    var ready := Put(w, f.task, w.tasks[f.task].(plan := Some(plan)));
    var m := Advance(w, f);
    OneStep(w, f);
    var n := Onto(ready, f.(plan := plan), NeedsApprovals);
    if m.flight.phase.NeedsApprovals? {
      assert ready == w;
    } else {
      TwoSteps(w, m.flight);
      ReachesOn(Moment(w, f), m, n);
    }
    OneStep(n.world, n.flight);
    ReachesOn(Moment(w, f), n, Ready(w, f, plan));
  }

  /** From the plan on. */
  lemma AlonePlanning(w: World, f: Flight)
    requires InTouch(w, f) && f.phase == NeedsPlan && f.staged.None? && f.p == FRESH
    ensures var plan := PlanOf(w.tasks[f.task], f.env);
            EndsAs(Moment(w, f), if plan.Some? then RunPlan(w, f.cfg, f.task, f.timeout, f.env, plan.value)
                                 else Report(w, FRESH, PlannerFailed, true))
  {
    hide Reaches;
    hide EndsAs;
    hide RunPlan;
    var plan := PlanOf(w.tasks[f.task], f.env);
    if plan.None? {
      OneStep(w, f);
      EndsHere(Moment(w, f), Advance(w, f), Report(w, FRESH, PlannerFailed, true));
    } else {
      AloneReads(w, f, plan.value);
      var m := Ready(w, f, plan.value);
      AloneExecuting(m.world, m.flight);
      SamePlan(w, f.cfg, f.task, f.timeout, f.env, plan.value);
      EndsAfter(Moment(w, f), m, RunPlan(w, f.cfg, f.task, f.timeout, f.env, plan.value));
    }
  }

  /** Caching a plan twice is caching it once. */
  lemma SamePlan(w: World, cfg: Config, id: TaskId, timeout: Option<int>, env: Environment, plan: seq<Step>)
    requires id in w.tasks
    ensures var ready := Put(w, id, w.tasks[id].(plan := Some(plan)));
            RunPlan(ready, cfg, id, timeout, env, plan) == RunPlan(w, cfg, id, timeout, env, plan)
  {
    hide Scan;
    hide Conclude;
    hide WalkTo;
    var ready := Put(w, id, w.tasks[id].(plan := Some(plan)));
    assert Put(ready, id, ready.tasks[id].(plan := Some(plan))) == ready;
  }

  /** The run after its early walk. */
  function Planned(w: World, f: Flight): Moment
    requires f.task in w.tasks
  {
    var early := EarlyWalk(w, f.task);
    WalkKeepsTasks(w, f.task, Planning);
    Onto(early.world, f.(timeout := w.tasks[f.task].timeout),
         if early.arrived then NeedsPlan else Ended(NotTransitioned, true))
  }

  lemma AloneStarts(w: World, f: Flight)
    requires f.task in w.tasks && !f.refreshing && f.phase.Starting?
    ensures Reaches(Moment(w, f), Planned(w, f))
  {
    hide Reaches;
    hide WalkTo;
    var m := Advance(w, f);
    OneStep(w, f);
    if m.flight.phase.Walking? {
      AloneWalking(w, m.flight, ToPlan);
      ReachesOn(Moment(w, f), m, Planned(w, f));
    }
  }

  /** A run that nothing comes between has the outcome of the run as one function. */
  lemma AloneIsRunTask(w: World, cfg: Config, id: TaskId, env: Environment)
    ensures EndsAs(Moment(w, Fresh(id, cfg, env)), RunTask(w, cfg, id, env))
  {
    hide Reaches;
    hide EndsAs;
    hide RunPlan;
    hide WalkTo;
    var f := Fresh(id, cfg, env);
    var r := RunTask(w, cfg, id, env);
    if id !in w.tasks {
      OneStep(w, f);
      EndsHere(Moment(w, f), Advance(w, f), r);
    } else {
      AloneStarts(w, f);
      WalkKeepsTasks(w, id, Planning);
      var m := Planned(w, f);
      if EarlyWalk(w, id).arrived {
        AlonePlanning(m.world, m.flight);
        EndsAfter(Moment(w, f), m, r);
      } else {
        EndsHere(Moment(w, f), m, r);
      }
    }
  }

  /* ---- Within a system ---- */

  /** Nothing but steps of run `k`. */
  function Turns(k: nat, n: nat): seq<Action> {
    seq(n, _ => Continue(k))
  }

  lemma {:induction false} TurnsAreSteps(s: System, k: nat, n: nat)
    requires k < |s.flights|
    ensures var m := Steps(Moment(s.world, s.flights[k]), n);
            History(s, Turns(k, n)) == System(m.world, s.flights[k := m.flight])
  {
    hide Advance;
    if n == 0 {
      assert s.flights[k := s.flights[k]] == s.flights;
    } else {
      TurnsAreSteps(s, k, n - 1);
      assert Turns(k, n)[..n - 1] == Turns(k, n - 1);
      var before := Steps(Moment(s.world, s.flights[k]), n - 1);
      assert s.flights[k := before.flight][k := Advance(before.world, before.flight).flight]
             == s.flights[k := Advance(before.world, before.flight).flight];
    }
  }

  /** Whatever else is in flight: a run begun and continued with nothing in between does what `RunTask` says. */
  lemma RunAloneIsRunTask(s: System, cfg: Config, id: TaskId, env: Environment)
    ensures exists n: nat ::
              var k := |s.flights|;
              var t := History(Act(s, Begin(id, cfg, env)), Turns(k, n));
              && |t.flights| == k + 1 && t.flights[..k] == s.flights
              && IsOver(Moment(t.world, t.flights[k]), RunTask(s.world, cfg, id, env))
  {
    hide RunTask;
    hide Advance;
    hide IsOver;
    AloneIsRunTask(s.world, cfg, id, env);
    var n: nat :| IsOver(Steps(Moment(s.world, Fresh(id, cfg, env)), n), RunTask(s.world, cfg, id, env));
    var begun := Act(s, Begin(id, cfg, env));
    TurnsAreSteps(begun, |s.flights|, n);
    var m := Steps(Moment(s.world, Fresh(id, cfg, env)), n);
    var t := History(begun, Turns(|s.flights|, n));
    assert begun.flights[|s.flights|] == Fresh(id, cfg, env);
    assert Moment(t.world, t.flights[|s.flights|]) == m;
    assert t.flights[..|s.flights|] == s.flights;
  }
}
