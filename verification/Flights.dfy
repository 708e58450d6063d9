/**
 What each run comes to among others: in every interleaving it follows the scan of its plan and keeps
 its limits, and the log holds exactly the subgraphs the runs started.
 */
module Flights {
  import opened Outcomes
  import opened StateMachine
  import opened Protocol
  import opened ProtocolLaws
  import opened ProtocolRuns
  import opened Interleaving

  /* ---- The scan a run follows ---- */

  /** The scan of the plan with the approvals the run has read. */
  function WholeScan(f: Flight): (Progress, Stop) {
    Scan(f.cfg, f.timeout, f.env, f.approved, f.plan, 0, FRESH)
  }

  /** The rest of the scan once the current step has come to `r`. */
  function Onward(f: Flight, step: Step, r: (Progress, Option<Stop>)): (Progress, Stop) {
    if r.1.Some? then (r.0, r.1.value)
    else if f.p.stepIndex >= |f.plan| then (r.0, AllDone)
    else Scan(f.cfg, f.timeout, f.env, f.approved, f.plan, f.p.stepIndex + 1, Recorded(r.0, step))
  }

  /** What the current step comes to after a reply. */
  function AfterReply(f: Flight, step: Step, retries: nat, reply: Outcome): (Progress, Option<Stop>) {
    match reply
    case Succeeded => (f.p, None)
    case FailedWith(error) =>
      match Classify(f.cfg.limits.maxRetries, error, retries)
      case Retry =>
        Attempts(f.cfg, f.timeout, f.env, step, f.p.(slept := f.p.slept + Backoff(retries)), retries + 1)
      case Escalate => (f.p, Some(Escalation(step)))
      case Fail => (f.p, Some(StepFailure(step)))
  }

  ghost predicate AtPlanStep(f: Flight, step: Step) {
    f.p.stepIndex < |f.plan| && step == f.plan[f.p.stepIndex]
  }

  /** A run that will not touch its plan any more: not started, or stopped where its scan stops. */
  ghost predicate Stopped(f: Flight, stop: Stop) {
    || (f.p == FRESH && (stop == NotTransitioned || stop == PlannerFailed))
    || (f.p == WholeScan(f).0
        && (stop == WholeScan(f).1
            || (stop == NotTransitioned && (WholeScan(f).1.AllDone? || WholeScan(f).1.Unapproved?))))
  }

  /** Wherever a run is, what it has done and has yet to do is its scan. */
  ghost predicate OnCourse(f: Flight) {
    match f.phase
    case Walking(goal) => Underway(f, goal)
    case Moving(_, _, goal) => Underway(f, goal)
    case Jumping(goal) => Underway(f, goal)
    case OnStep(i) => i <= |f.plan| && WholeScan(f) == Scan(f.cfg, f.timeout, f.env, f.approved, f.plan, i, f.p)
    case Trying(step, retries) =>
      AtPlanStep(f, step)
      && WholeScan(f) == Onward(f, step, Attempts(f.cfg, f.timeout, f.env, step, f.p, retries))
    case Awaiting(step, retries, reply) =>
      AtPlanStep(f, step) && WholeScan(f) == Onward(f, step, AfterReply(f, step, retries, reply))
    case Asking(step) => WholeScan(f) == (f.p, Unapproved(step))
    case Persisting => WholeScan(f) == (f.p, AllDone)
    case Pausing(stop) => WholeScan(f) == (f.p, stop)
    case Handling(stop) => Stopped(f, stop)
    case Noting(stop) => Stopped(f, stop)
    case Ended(stop, _) => Stopped(f, stop)
    case _ => f.p == FRESH
  }

  ghost predicate Underway(f: Flight, goal: Goal) {
    if goal.ToPlan? || goal.ToExecute? then f.p == FRESH else WholeScan(f) == (f.p, AllDone)
  }

  lemma TryStaysOnCourse(w: World, f: Flight)
    requires OnCourse(f) && f.phase.Trying?
    ensures OnCourse(Try(w, f, f.phase.step, f.phase.retries).flight)
  {
    hide Exceeded;
    hide Scan;
    hide Backoff;
    hide Classify;
  }

  lemma ReceiveStaysOnCourse(f: Flight)
    requires OnCourse(f) && f.phase.Awaiting?
    ensures OnCourse(Receive(f, f.phase.step, f.phase.retries, f.phase.reply))
  {
    hide Attempts;
    hide Scan;
    hide Backoff;
    hide Classify;
  }

  lemma LookStaysOnCourse(f: Flight)
    requires OnCourse(f) && f.phase.OnStep?
    ensures OnCourse(Look(f, f.phase.index))
  {
    hide Exceeded;
    hide Attempts;
  }

  lemma RefreshStaysOnCourse(f: Flight, row: Task)
    requires OnCourse(f)
    ensures OnCourse(f.(loaded := row, refreshing := false))
  {
    hide Scan;
    hide Attempts;
  }

  lemma EndStaysOnCourse(w: World, f: Flight)
    requires OnCourse(f) && f.task in w.tasks && !f.refreshing
    requires f.phase.Asking? || f.phase.Persisting? || f.phase.Pausing? || f.phase.Handling? || f.phase.Noting?
    ensures OnCourse(Advance(w, f).flight)
  {
    hide Scan;
    hide TransitionTask;
    hide CanTransition;
  }

  /** A step of a run keeps it on course, whatever the world has become. */
  lemma AdvanceStaysOnCourse(w: World, f: Flight)
    requires OnCourse(f) && (f.task in w.tasks || f.phase.Starting?)
    ensures OnCourse(Advance(w, f).flight)
  {
    hide Scan;
    hide Attempts;
    hide Onward;
    hide AfterReply;
    hide Look;
    hide Try;
    hide Receive;
    hide Ask;
    hide Pause;
    hide Handle;
    hide Note;
    hide TransitionTask;
    if f.refreshing && f.task in w.tasks {
      RefreshStaysOnCourse(f, w.tasks[f.task]);
      return;
    }
    match f.phase {
      case OnStep(_) => LookStaysOnCourse(f);
      case Trying(_, _) => TryStaysOnCourse(w, f);
      case Awaiting(_, _, _) => ReceiveStaysOnCourse(f);
      case Asking(_) => EndStaysOnCourse(w, f);
      case Persisting => EndStaysOnCourse(w, f);
      case Pausing(_) => EndStaysOnCourse(w, f);
      case Handling(_) => EndStaysOnCourse(w, f);
      case Noting(_) => EndStaysOnCourse(w, f);
      case _ =>
    }
  }

  /** The task of a run that has started is there to stay. */
  ghost predicate Based(w: World, f: Flight) {
    f.phase.Starting? || f.phase.Ended? || f.task in w.tasks
  }

  /** One iteration and one output for each passed step, and at least one call for each, and for the one under way. */
  ghost predicate Counted(f: Flight) {
    && f.p.iterations == |f.p.outputs|
    && f.p.iterations + (if f.phase.Awaiting? then 1 else 0) <= |f.p.calls|
  }

  lemma AdvanceStaysCounted(w: World, f: Flight)
    requires Counted(f)
    ensures Counted(Advance(w, f).flight)
  {
    hide Exceeded;
    hide CanTransition;
    hide Classify;
    hide Backoff;
  }

  ghost predicate AllOnCourse(s: System) {
    && SysInv(s)
    && forall k :: 0 <= k < |s.flights| ==>
         Based(s.world, s.flights[k]) && OnCourse(s.flights[k]) && Counted(s.flights[k])
  }

  /** A task with a history exists, so later worlds have every task of earlier ones. */
  lemma TasksStay(w: World, v: World, id: TaskId)
    requires Inv(w) && Inv(v) && w.log <= v.log && id in w.tasks
    ensures id in v.tasks
  {
    hide IsPath;
    assert TaskInStep(w, id) && TaskInStep(v, id);
    PathNotEmpty(StatesOf(w.log, id));
    StatesGrow(w.log, v.log, id);
  }

  lemma AdvanceStaysBased(w: World, f: Flight)
    requires Inv(w) && Cleared(w.log, f) && Based(w, f)
    ensures Based(Advance(w, f).world, Advance(w, f).flight)
  {
    hide Inv;
    hide CanTransition;
    hide Exceeded;
    hide Classify;
    hide Cleared;
    if f.task in w.tasks {
      AdvanceKeepsInv(w, f);
      TasksStay(w, Advance(w, f).world, f.task);
      AdvanceKeepsTask(w, f);
    }
  }

  lemma ActStaysOnCourse(s: System, a: Action)
    requires AllOnCourse(s)
    ensures AllOnCourse(Act(s, a))
  {
    hide Inv;
    hide Cleared;
    hide Advance;
    hide Served;
    hide OnCourse;
    hide Based;
    hide Counted;
    ActKeepsInv(s, a);
    var t := Act(s, a);
    forall k | 0 <= k < |t.flights|
      ensures Based(t.world, t.flights[k]) && OnCourse(t.flights[k]) && Counted(t.flights[k])
    {
      if a.Continue? && k == a.k {
        AdvanceStaysCounted(s.world, s.flights[k]);
        AdvanceStaysBased(s.world, s.flights[k]);
        BasedFlightAdvances(s.world, s.flights[k]);
      } else if k == |s.flights| {
        FreshIsOnCourse(t.world, a);
      } else {
        BasedLater(s.world, t.world, s.flights[k]);
      }
    }
  }

  lemma BasedFlightAdvances(w: World, f: Flight)
    requires Based(w, f) && OnCourse(f)
    ensures OnCourse(Advance(w, f).flight)
  {
    hide OnCourse;
    if !f.phase.Ended? {
      AdvanceStaysOnCourse(w, f);
    }
  }

  lemma BasedLater(w: World, v: World, f: Flight)
    requires Inv(w) && Inv(v) && w.log <= v.log && Based(w, f)
    ensures Based(v, f)
  {
    hide Inv;
    if f.task in w.tasks {
      TasksStay(w, v, f.task);
    }
  }

  lemma FreshIsOnCourse(w: World, a: Action)
    requires a.Begin?
    ensures var f := Fresh(a.id, a.cfg, a.env); Based(w, f) && OnCourse(f) && Counted(f)
  {
  }

  lemma {:induction false} HistoryStaysOnCourse(actions: seq<Action>)
    ensures AllOnCourse(History(IDLE, actions))
  {
    hide AllOnCourse;
    hide Act;
    if actions == [] {
      IdleIsOnCourse();
    } else {
      HistoryStaysOnCourse(actions[..|actions| - 1]);
      ActStaysOnCourse(History(IDLE, actions[..|actions| - 1]), actions[|actions| - 1]);
    }
  }

  lemma IdleIsOnCourse()
    ensures AllOnCourse(IDLE)
  {
    IdleIsSound();
  }

  /* ---- Progress never runs ahead of the scan ---- */

  ghost predicate Within(p: Progress, q: Progress) {
    && p.calls <= q.calls && p.outputs <= q.outputs
    && p.toolCalls <= q.toolCalls && p.iterations <= q.iterations && p.slept <= q.slept
  }

  lemma {:induction false} AttemptsGrow(cfg: Config, timeout: Option<int>, env: Environment, step: Step, p: Progress,
                                        retries: nat)
    ensures Within(p, Attempts(cfg, timeout, env, step, p, retries).0)
    decreases cfg.limits.maxRetries - retries
  {
    hide Exceeded;
    hide Backoff;
    var q := Called(Checked(p), step);
    if Exceeded(cfg.limits, timeout, env, p).None? {
      var outcome := OutcomeOf(cfg, env, step, p.toolCalls);
      if outcome.FailedWith? && Classify(cfg.limits.maxRetries, outcome.error, retries).Retry? {
        AttemptsGrow(cfg, timeout, env, step, q.(slept := q.slept + Backoff(retries)), retries + 1);
      }
    }
  }

  lemma {:induction false} ScanGrows(cfg: Config, timeout: Option<int>, env: Environment, approved: set<string>,
                                     plan: seq<Step>, i: nat, p: Progress)
    requires i <= |plan|
    ensures Within(p, Scan(cfg, timeout, env, approved, plan, i, p).0)
    decreases |plan| - i
  {
    hide Exceeded;
    hide Attempts;
    var q := p.(stepIndex := i);
    if i < |plan| && Exceeded(cfg.limits, timeout, env, q).None?
       && (plan[i].requiresApproval ==> plan[i].name in approved) {
      AttemptsGrow(cfg, timeout, env, plan[i], Checked(q), 0);
      var (r, failure) := Attempts(cfg, timeout, env, plan[i], Checked(q), 0);
      if failure.None? {
        ScanGrows(cfg, timeout, env, approved, plan, i + 1, Recorded(r, plan[i]));
      }
    }
  }

  lemma OnwardGrows(f: Flight, step: Step, r: (Progress, Option<Stop>))
    requires Within(f.p, r.0)
    ensures Within(f.p, Onward(f, step, r).0)
  {
    hide Scan;
    if r.1.None? && f.p.stepIndex < |f.plan| {
      ScanGrows(f.cfg, f.timeout, f.env, f.approved, f.plan, f.p.stepIndex + 1, Recorded(r.0, step));
    }
  }

  lemma AfterReplyGrows(f: Flight, step: Step, retries: nat, reply: Outcome)
    ensures Within(f.p, AfterReply(f, step, retries, reply).0)
  {
    hide Attempts;
    hide Backoff;
    AttemptsGrow(f.cfg, f.timeout, f.env, step, f.p.(slept := f.p.slept + Backoff(retries)), retries + 1);
  }

  lemma OnCourseIsWithin(f: Flight)
    requires OnCourse(f)
    ensures Within(f.p, WholeScan(f).0)
  {
    hide Scan;
    hide Attempts;
    hide Onward;
    hide AfterReply;
    hide Within;
    WithinItself(f.p);
    ScanGrows(f.cfg, f.timeout, f.env, f.approved, f.plan, 0, FRESH);
    match f.phase {
      case OnStep(i) => ScanGrows(f.cfg, f.timeout, f.env, f.approved, f.plan, i, f.p);
      case Trying(step, retries) =>
        AttemptsGrow(f.cfg, f.timeout, f.env, step, f.p, retries);
        OnwardGrows(f, step, Attempts(f.cfg, f.timeout, f.env, step, f.p, retries));
      case Awaiting(step, retries, reply) =>
        AfterReplyGrows(f, step, retries, reply);
        OnwardGrows(f, step, AfterReply(f, step, retries, reply));
      case _ =>
    }
  }

  lemma WithinItself(p: Progress)
    ensures Within(p, p)
  {
  }

  /**
   In every interleaving and at every moment, what a run has called, recorded and slept is a beginning of the
   scan of its plan with the approvals it read, within the limits; and a run that ends says how that scan stops,
   unless the plan was not reached or a transition was refused after it.
   */
  lemma EveryRunFollowsItsScan(actions: seq<Action>, k: nat)
    requires k < |History(IDLE, actions).flights|
    ensures var f := History(IDLE, actions).flights[k];
            var (q, stop) := WholeScan(f);
            && Within(f.p, q)
            && |f.p.calls| <= NonNegative(f.cfg.limits.maxToolCalls)
            && f.p.iterations == |f.p.outputs| <= NonNegative(f.cfg.limits.maxIterations)
            && f.p.iterations <= |f.p.calls|
            && |f.p.outputs| <= |f.plan| && f.p.outputs == Successes(f.plan, |f.p.outputs|)
            && (f.phase.Ended? ==> Stopped(f, f.phase.stop))
            && (f.phase.Ended? && f.phase.stop.AllDone? ==> f.p.outputs == Successes(f.plan, |f.plan|))
  {
    hide SysInv;
    hide Scan;
    HistoryStaysOnCourse(actions);
    var f := History(IDLE, actions).flights[k];
    OnCourseIsWithin(f);
    assert OnTrack(f.cfg, f.plan, 0, FRESH);
    ScanStaysOnTrack(f.cfg, f.timeout, f.env, f.approved, f.plan, 0, FRESH);
    PrefixOfSuccesses(f.plan, f.p.outputs, |WholeScan(f).0.outputs|);
  }

  lemma PrefixOfSuccesses(plan: seq<Step>, outputs: seq<StepOutput>, n: nat)
    requires n <= |plan| && outputs <= Successes(plan, n)
    ensures outputs == Successes(plan, |outputs|)
  {
  }

  /* ---- The log holds what the runs started ---- */

  function StartedBy(f: Flight): multiset<Step> {
    multiset(Graphed(f.cfg, f.p.calls))
  }

  /** The subgraphs all runs of a task have started. */
  function StartedFor(flights: seq<Flight>, id: TaskId): multiset<Step> {
    if flights == [] then multiset{}
    else
      var last := flights[|flights| - 1];
      StartedFor(flights[..|flights| - 1], id) + (if last.task == id then StartedBy(last) else multiset{})
  }

  lemma {:induction false} StartedForUpdate(flights: seq<Flight>, k: nat, f: Flight, id: TaskId, more: multiset<Step>)
    requires k < |flights| && f.task == flights[k].task && StartedBy(f) == StartedBy(flights[k]) + more
    ensures StartedFor(flights[k := f], id) == StartedFor(flights, id) + if f.task == id then more else multiset{}
  {
    hide StartedBy;
    var n := |flights| - 1;
    if k == n {
      assert flights[k := f][..n] == flights[..n];
    } else {
      StartedForUpdate(flights[..n], k, f, id, more);
      assert flights[k := f][..n] == flights[..n][k := f];
    }
  }

  /** The subgraph the next step of a run starts, if it starts one. */
  function Starts(f: Flight): seq<Step> {
    if f.phase.Trying? && !f.refreshing && f.phase.step.agent in f.cfg.graphs
       && Exceeded(f.cfg.limits, f.timeout, f.env, f.p).None?
    then [f.phase.step] else []
  }

  lemma AdvanceStarts(w: World, f: Flight)
    requires Based(w, f)
    ensures InvocationsOf(Advance(w, f).world.log, f.task) == InvocationsOf(w.log, f.task) + Starts(f)
    ensures StartedBy(Advance(w, f).flight) == StartedBy(f) + multiset(Starts(f))
  {
    hide CanTransition;
    hide Exceeded;
    hide InvocationsOf;
    hide Graphed;
    match f.phase {
      case Trying(step, retries) =>
        if !f.refreshing {
          InvocationsSnoc(w.log, Invoked(f.task, step), f.task);
          GraphedSnoc(f.cfg, f.p.calls, step);
        }
      case _ =>
        AdvanceElsewhere(w, f);
    }
  }

  lemma AdvanceElsewhere(w: World, f: Flight)
    requires !f.phase.Trying?
    ensures InvocationsOf(Advance(w, f).world.log, f.task) == InvocationsOf(w.log, f.task)
    ensures Advance(w, f).flight.p.calls == f.p.calls && Advance(w, f).flight.cfg == f.cfg
  {
    hide CanTransition;
    hide Exceeded;
    hide Classify;
    hide InvocationsOf;
    hide Backoff;
    AdvanceInvokesNothing(w, f, f.task);
  }

  lemma ContinueStarts(s: System, k: nat, id: TaskId)
    requires AllOnCourse(s) && k < |s.flights|
    requires multiset(InvocationsOf(s.world.log, id)) == StartedFor(s.flights, id)
    ensures var t := Act(s, Continue(k));
            multiset(InvocationsOf(t.world.log, id)) == StartedFor(t.flights, id)
  {
    hide SysInv;
    hide Advance;
    hide OnCourse;
    hide Based;
    hide StartedBy;
    hide StartedFor;
    hide InvocationsOf;
    hide Starts;
    var f := s.flights[k];
    AdvanceStarts(s.world, f);
    AdvanceKeepsTask(s.world, f);
    StartedForUpdate(s.flights, k, Advance(s.world, f).flight, id, multiset(Starts(f)));
    if f.task != id {
      AdvanceInvokesNothing(s.world, f, id);
    }
  }

  lemma ActStarts(s: System, a: Action, id: TaskId)
    requires AllOnCourse(s)
    requires multiset(InvocationsOf(s.world.log, id)) == StartedFor(s.flights, id)
    ensures multiset(InvocationsOf(Act(s, a).world.log, id)) == StartedFor(Act(s, a).flights, id)
  {
    hide AllOnCourse;
    hide Advance;
    hide Served;
    hide StartedFor;
    hide InvocationsOf;
    if a.Continue? {
      if a.k < |s.flights| {
        ContinueStarts(s, a.k, id);
      }
    } else if a.Begin? {
      FreshStarts(s.flights, a, id);
    } else {
      ServedInvokesNothing(s.world, a, id);
    }
  }

  lemma FreshStarts(flights: seq<Flight>, a: Action, id: TaskId)
    requires a.Begin?
    ensures StartedFor(flights + [Fresh(a.id, a.cfg, a.env)], id) == StartedFor(flights, id)
  {
    assert (flights + [Fresh(a.id, a.cfg, a.env)])[..|flights|] == flights;
  }

  /**
   In every interleaving, the invocations in the log for a task are what its runs have started, no more and no
   fewer.
   */
  lemma {:induction false} LogHoldsWhatRunsStarted(actions: seq<Action>, id: TaskId)
    ensures var s := History(IDLE, actions);
            multiset(InvocationsOf(s.world.log, id)) == StartedFor(s.flights, id)
  {
    hide Act;
    hide AllOnCourse;
    if actions != [] {
      LogHoldsWhatRunsStarted(actions[..|actions| - 1], id);
      HistoryStaysOnCourse(actions[..|actions| - 1]);
      ActStarts(History(IDLE, actions[..|actions| - 1]), actions[|actions| - 1], id);
    }
  }

  /* ---- A run that ends has moved its task accordingly ---- */

  /** The state a task enters before its run ends with this stop and without an exception. */
  function LeftIn(stop: Stop): TaskState {
    match stop
    case AllDone => Completed
    case Unapproved(_) => WaitingForApproval
    case Escalation(_) => WaitingForApproval
    case OutOfLimits => TimedOut
    case _ => Failed
  }

  /** What a run has entered its task into, or found it in, by the time it is in its phase. */
  ghost predicate Traced(log: seq<Event>, f: Flight) {
    && (!f.phase.Starting? && !f.phase.Ended? ==> Entered(f.task, f.loaded.state) in log)
    && match f.phase
       case Moving(first, last, goal) =>
         goal == ToComplete ==>
           last + 1 == |HAPPY_ORDER| && first <= last + 1 && (first > last ==> Entered(f.task, Completed) in log)
       case Persisting => Entered(f.task, Completed) in log
       case Pausing(stop) => stop.Escalation? || (stop.Unapproved? && Entered(f.task, WaitingForApproval) in log)
       case Handling(stop) => LeftIn(stop) == TimedOut || LeftIn(stop) == Failed
       case Noting(stop) =>
         (LeftIn(stop) == TimedOut || LeftIn(stop) == Failed) && Entered(f.task, LeftIn(stop)) in log
       case Ended(stop, raised) =>
         !raised && !stop.Escalation? ==> Entered(f.task, LeftIn(stop)) in log
       case _ => true
  }

  lemma TracedLater(before: seq<Event>, after: seq<Event>, f: Flight)
    requires Traced(before, f) && before <= after
    ensures Traced(after, f)
  {
    assert forall e :: e in before ==> e in after;
  }

  lemma {:induction false} StatesAreEntered(log: seq<Event>, id: TaskId)
    ensures StatesOf(log, id) != [] ==> Entered(id, StatesOf(log, id)[|StatesOf(log, id)| - 1]) in log
  {
    if log != [] {
      StatesAreEntered(log[..|log| - 1], id);
      assert log == log[..|log| - 1] + [log[|log| - 1]];
    }
  }

  lemma StateIsEntered(w: World, id: TaskId)
    requires Inv(w) && id in w.tasks
    ensures Entered(id, w.tasks[id].state) in w.log
  {
    hide IsPath;
    assert TaskInStep(w, id);
    PathNotEmpty(StatesOf(w.log, id));
    StatesAreEntered(w.log, id);
  }

  lemma TransitionIsEntered(w: World, id: TaskId, target: TaskState)
    ensures TransitionTask(w, id, target).Ok? ==>
              var v := TransitionTask(w, id, target).value; w.log <= v.log && Entered(id, target) in v.log
  {
  }

  /** The phases that move the task. */
  lemma MoveStaysTraced(w: World, f: Flight)
    requires Traced(w.log, f) && f.task in w.tasks && !f.refreshing
    requires f.phase.Moving? || f.phase.Jumping? || f.phase.Asking? || f.phase.Pausing?
    ensures Traced(Advance(w, f).world.log, Advance(w, f).flight)
  {
    hide TransitionTask;
    hide CanTransition;
    TransitionIsEntered(w, f.task, WaitingForApproval);
    match f.phase {
      case Moving(first, last, goal) =>
        if first < |HAPPY_ORDER| {
          TransitionIsEntered(w, f.task, HAPPY_ORDER[first]);
        }
      case Jumping(goal) => TransitionIsEntered(w, f.task, Target(goal));
      case Asking(step) =>
        TransitionIsEntered(w.(approvals := w.approvals + [PendingRow(f.task, step)]), f.task, WaitingForApproval);
      case _ =>
    }
  }

  lemma HandlingStaysTraced(w: World, f: Flight)
    requires Traced(w.log, f) && f.task in w.tasks && !f.refreshing && f.phase.Handling?
    ensures Traced(Advance(w, f).world.log, Advance(w, f).flight)
  {
    hide TransitionTask;
    var rows := if f.staged.Some? then [PendingRow(f.task, f.staged.value)] else [];
    TransitionIsEntered(w.(approvals := w.approvals + rows), f.task, TimedOut);
    TransitionIsEntered(w.(approvals := w.approvals + rows), f.task, Failed);
  }

  lemma WalkStaysTraced(w: World, f: Flight)
    requires Traced(w.log, f) && f.task in w.tasks && !f.refreshing && f.phase.Walking?
    ensures Traced(Advance(w, f).world.log, Advance(w, f).flight)
  {
  }

  lemma AdvanceStaysTraced(w: World, f: Flight)
    requires Inv(w) && Cleared(w.log, f) && Traced(w.log, f)
    requires f.task in w.tasks || f.phase.Starting? || f.phase.Ended?
    ensures Traced(Advance(w, f).world.log, Advance(w, f).flight)
  {
    hide Inv;
    hide Exceeded;
    hide Classify;
    hide CanTransition;
    hide Cleared;
    AdvanceKeepsInv(w, f);
    ExceededStop(f.cfg.limits, f.timeout, f.env, f.p);
    if f.phase.OnStep? {
      ExceededStop(f.cfg.limits, f.timeout, f.env, f.p.(stepIndex := f.phase.index));
    }
    if f.task in w.tasks {
      StateIsEntered(w, f.task);
      TracedLater(w.log, Advance(w, f).world.log, f);
      if f.phase.Walking? && !f.refreshing {
        WalkStaysTraced(w, f);
      } else if (f.phase.Moving? || f.phase.Jumping? || f.phase.Asking? || f.phase.Pausing?) && !f.refreshing {
        MoveStaysTraced(w, f);
      } else if f.phase.Handling? && !f.refreshing {
        HandlingStaysTraced(w, f);
      }
    }
  }

  ghost predicate AllTraced(s: System) {
    AllOnCourse(s) && forall k :: 0 <= k < |s.flights| ==> Traced(s.world.log, s.flights[k])
  }

  lemma ActStaysTraced(s: System, a: Action)
    requires AllTraced(s)
    ensures AllTraced(Act(s, a))
  {
    hide AllOnCourse;
    hide Traced;
    hide Advance;
    hide Served;
    ActStaysOnCourse(s, a);
    CourseKeepsInv(s, a);
    var t := Act(s, a);
    forall k | 0 <= k < |t.flights|
      ensures Traced(t.world.log, t.flights[k])
    {
      if a.Continue? && k == a.k {
        FlightStaysTraced(s, k);
      } else if k == |s.flights| {
        FreshIsTraced(t.world.log, a);
      } else {
        TracedLater(s.world.log, t.world.log, s.flights[k]);
      }
    }
  }

  lemma CourseKeepsInv(s: System, a: Action)
    requires AllOnCourse(s)
    ensures s.world.log <= Act(s, a).world.log
  {
    hide SysInv;
    hide Act;
    ActKeepsInv(s, a);
  }

  lemma FlightStaysTraced(s: System, k: nat)
    requires AllTraced(s) && k < |s.flights|
    ensures Traced(Advance(s.world, s.flights[k]).world.log, Advance(s.world, s.flights[k]).flight)
  {
    hide Inv;
    hide Cleared;
    hide Traced;
    hide OnCourse;
    hide Counted;
    hide Advance;
    AdvanceStaysTraced(s.world, s.flights[k]);
  }

  lemma FreshIsTraced(log: seq<Event>, a: Action)
    requires a.Begin?
    ensures Traced(log, Fresh(a.id, a.cfg, a.env))
  {
  }

  lemma {:induction false} HistoryStaysTraced(actions: seq<Action>)
    ensures AllTraced(History(IDLE, actions))
  {
    hide AllOnCourse;
    hide Traced;
    hide Act;
    if actions == [] {
      IdleIsOnCourse();
    } else {
      HistoryStaysTraced(actions[..|actions| - 1]);
      ActStaysTraced(History(IDLE, actions[..|actions| - 1]), actions[|actions| - 1]);
    }
  }

  /**
   In every interleaving a run that ends without an exception has had its task in the state its end stands for:
   COMPLETED when it is done, WAITING_FOR_APPROVAL when an approval is missing, TIMED_OUT beyond a limit, and FAILED
   after a cancellation, a failed step or a refused transition.
   */
  lemma EndsAreEntered(actions: seq<Action>, k: nat)
    requires k < |History(IDLE, actions).flights|
    ensures var s := History(IDLE, actions);
            var f := s.flights[k];
            f.phase.Ended? && !f.phase.raised ==>
              && (f.phase.stop.AllDone? ==> Entered(f.task, Completed) in s.world.log)
              && (f.phase.stop.Unapproved? ==> Entered(f.task, WaitingForApproval) in s.world.log)
              && (f.phase.stop.OutOfLimits? ==> Entered(f.task, TimedOut) in s.world.log)
              && (f.phase.stop.CancelledByUser? || f.phase.stop.StepFailure? || f.phase.stop.NotTransitioned? ==>
                    Entered(f.task, Failed) in s.world.log)
  {
    hide AllOnCourse;
    HistoryStaysTraced(actions);
    assert Traced(History(IDLE, actions).world.log, History(IDLE, actions).flights[k]);
  }
}
