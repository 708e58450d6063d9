/**
 The task protocol as values: what the task service, the approval service and one orchestrator run,
 left alone by other sessions, do to the database.  Everything random or external (the planner, the
 subgraphs, the clock, in-flight cancellation) is an argument, see `Environment`.  Runs that other
 sessions do not leave alone are the subject of `Interleaving`.
 */
module Protocol {
  import opened Outcomes
  import opened StateMachine

  /* ---- Data ---- */

  datatype AgentKind = Research | Browser | Content | FactCheck | Social | Verify | LocalSystem

  datatype Step = Step(name: string, agent: AgentKind, requiresApproval: bool)

  datatype StepOutput = StepOutput(name: string, agent: AgentKind, success: bool)

  /** Why a plan stopped. */
  datatype Stop =
    | AllDone
    | Unapproved(step: Step)
    | Escalation(step: Step)
    | OutOfLimits
    | CancelledByUser
    | StepFailure(step: Step)
    | NotTransitioned  // a state transition was refused, or there was no such task
    | PlannerFailed

  /** The result a completed run persists. */
  datatype Summary = Summary(iterations: nat, toolCalls: nat, outputs: seq<StepOutput>)

  type TaskId = nat

  datatype Task = Task(state: TaskState, plan: Option<seq<Step>>, timeout: Option<int>,
                       result: Option<Summary>, error: Option<Stop>)

  datatype ApprovalStatus = Pending | Approved | Rejected

  /** An approval row; its id is its position, and rows are created in that order. */
  datatype Approval = Approval(task: TaskId, action: string, target: AgentKind,
                               status: ApprovalStatus, decidedBy: Option<string>)

  /** History, for stating properties; nothing reads it. */
  datatype Event =
    | Entered(task: TaskId, state: TaskState)
    | Decided(task: TaskId, action: string, approved: bool)
    | Invoked(task: TaskId, step: Step)

  datatype World = World(tasks: map<TaskId, Task>, approvals: seq<Approval>, log: seq<Event>)

  datatype ServiceError = NotFound | InvalidTransition | NotCancellable | NoPendingApproval

  /* ---- Task service ---- */

  function Put(w: World, id: TaskId, task: Task): World {
    w.(tasks := w.tasks[id := task])
  }

  /** The state of a task, with the change recorded. */
  function InState(w: World, id: TaskId, state: TaskState): World
    requires id in w.tasks
  {
    Put(w, id, w.tasks[id].(state := state)).(log := w.log + [Entered(id, state)])
  }

  function CreateTask(w: World, id: TaskId, timeout: Option<int>): World {
    Put(w, id, Task(Created, None, timeout, None, None)).(log := w.log + [Entered(id, Created)])
  }

  function TransitionTask(w: World, id: TaskId, target: TaskState): Result<World, ServiceError> {
    if id !in w.tasks then Raised(NotFound)
    else if CanTransition(w.tasks[id].state, target) then Ok(InState(w, id, target))
    else Raised(InvalidTransition)
  }

  function CancelTask(w: World, id: TaskId): Result<World, ServiceError> {
    if id !in w.tasks then Raised(NotFound)
    else if !CanCancel(w.tasks[id].state) then Raised(NotCancellable)
    else TransitionTask(w, id, Cancelled)
  }

  /* ---- Approval service ---- */

  function PendingRow(id: TaskId, step: Step): Approval {
    Approval(id, step.name, step.agent, Pending, None)
  }

  function CreateApproval(w: World, id: TaskId, step: Step): Result<World, ServiceError> {
    TransitionTask(w.(approvals := w.approvals + [PendingRow(id, step)]), id, WaitingForApproval)
  }

  /** The newest pending approval of a task among the first `n` rows. */
  function PendingFor(approvals: seq<Approval>, id: TaskId, n: nat): (row: Option<nat>)
    requires n <= |approvals|
    ensures row.Some? ==> row.value < n && approvals[row.value].task == id && approvals[row.value].status == Pending
    ensures forall k :: (if row.Some? then row.value else -1) < k < n ==>
              !(approvals[k].task == id && approvals[k].status == Pending)
  {
    if n == 0 then None
    else if approvals[n - 1].task == id && approvals[n - 1].status == Pending then Some(n - 1)
    else PendingFor(approvals, id, n - 1)
  }

  /** Deciding sets the row and drives the task; when the task refuses, nothing is kept. */
  function Decide(w: World, approval: nat, approved: bool, user: string): Result<World, ServiceError> {
    if approval >= |w.approvals| then Raised(NotFound)
    else
      var row := w.approvals[approval];
      var decided := row.(status := if approved then Approved else Rejected, decidedBy := Some(user));
      TransitionTask(w.(approvals := w.approvals[approval := decided],
                        log := w.log + [Decided(row.task, row.action, approved)]),
                     row.task, if approved then Executing else Cancelled)
  }

  function ApprovedActions(w: World, id: TaskId): set<string> {
    set row | row in w.approvals && row.task == id && row.status == Approved :: row.action
  }

  /* ---- Recovery ---- */

  datatype ErrorKind = Validation | Authentication | Authorization | ApprovalRequired | Timeout | RateLimit | OtherKind

  /** What recovery is handed: text (all the orchestrator ever passes) or an application error. */
  datatype AgentError = Text | Typed(kind: ErrorKind, retryable: bool)

  datatype RecoveryAction = Retry | Escalate | Fail

  function Classify(maxRetries: int, error: AgentError, retryCount: nat): RecoveryAction {
    match error
    case Text => Fail
    case Typed(kind, retryable) =>
      if kind.Validation? || kind.Authentication? || kind.Authorization? then Fail
      else if kind.ApprovalRequired? || kind.Timeout? then Escalate
      else if !retryable then Fail
      else if retryCount < maxRetries then Retry
      else Escalate
  }

  function Power2(n: nat): nat {
    if n == 0 then 1 else 2 * Power2(n - 1)
  }

  function Min(a: int, b: int): int {
    if a <= b then a else b
  }

  /** Seconds slept before retry number `retryCount` + 1. */
  function Backoff(retryCount: nat): nat {
    Min(Min(Power2(retryCount), 30), 5)
  }

  /* ---- One run ---- */

  datatype Limits = Limits(maxIterations: int, maxToolCalls: int, maxExecutionSeconds: int, maxRetries: int)

  datatype Config = Config(limits: Limits, graphs: set<AgentKind>)

  datatype Outcome = Succeeded | FailedWith(error: AgentError)

  /**
   The world around one run: the plan the planner would give, if it does not fail; the outcome of the
   n-th subgraph invocation; and for the n-th limit check the elapsed seconds and whether the user has
   cancelled.
   */
  datatype Environment = Environment(planned: Option<seq<Step>>, outcome: nat -> Outcome,
                                     elapsed: nat -> real, cancelled: nat -> bool)

  /** The in-memory state of a run, with the checks, sleep and invocations so far. */
  datatype Progress = Progress(stepIndex: nat, iterations: nat, toolCalls: nat, outputs: seq<StepOutput>,
                               checks: nat, slept: nat, calls: seq<Step>)

  const FRESH := Progress(0, 0, 0, [], 0, 0, [])

  function EffectiveTimeout(limits: Limits, timeout: Option<int>): int {
    var own := if timeout.Some? && timeout.value != 0 then timeout.value else limits.maxExecutionSeconds;
    Min(own, limits.maxExecutionSeconds)
  }

  /** The limit check: why to stop, if at all. */
  function Exceeded(limits: Limits, timeout: Option<int>, env: Environment, p: Progress): Option<Stop> {
    if env.cancelled(p.checks) then Some(CancelledByUser)
    else if env.elapsed(p.checks) > EffectiveTimeout(limits, timeout) as real then Some(OutOfLimits)
    else if p.iterations >= limits.maxIterations then Some(OutOfLimits)
    else if p.toolCalls >= limits.maxToolCalls then Some(OutOfLimits)
    else None
  }

  function Checked(p: Progress): Progress {
    p.(checks := p.checks + 1)
  }

  function Called(p: Progress, step: Step): Progress {
    p.(toolCalls := p.toolCalls + 1, calls := p.calls + [step])
  }

  /** A step without a compiled graph fails with a text error. */
  function OutcomeOf(cfg: Config, env: Environment, step: Step, n: nat): Outcome {
    if step.agent in cfg.graphs then env.outcome(n) else FailedWith(Text)
  }

  /** A step with its retries: None when it succeeds, else why the plan stops. */
  function Attempts(cfg: Config, timeout: Option<int>, env: Environment, step: Step, p: Progress, retries: nat)
    : (Progress, Option<Stop>)
    decreases cfg.limits.maxRetries - retries
  {
    var stop := Exceeded(cfg.limits, timeout, env, p);
    if stop.Some? then (Checked(p), stop)
    else
      var q := Called(Checked(p), step);
      match OutcomeOf(cfg, env, step, p.toolCalls)
      case Succeeded => (q, None)
      case FailedWith(error) =>
        (match Classify(cfg.limits.maxRetries, error, retries)
         case Retry => Attempts(cfg, timeout, env, step, q.(slept := q.slept + Backoff(retries)), retries + 1)
         case Escalate => (q, Some(Escalation(step)))
         case Fail => (q, Some(StepFailure(step))))
  }

  /** A limit check stops a run only for these reasons. */
  lemma ExceededStop(limits: Limits, timeout: Option<int>, env: Environment, p: Progress)
    ensures Exceeded(limits, timeout, env, p) in {None, Some(CancelledByUser), Some(OutOfLimits)}
  {
  }

  /** A step stops a run only for these reasons. */
  lemma {:induction false} AttemptsStop(cfg: Config, timeout: Option<int>, env: Environment, step: Step, p: Progress,
                                        retries: nat)
    ensures Attempts(cfg, timeout, env, step, p, retries).1
            in {None, Some(CancelledByUser), Some(OutOfLimits), Some(Escalation(step)), Some(StepFailure(step))}
    decreases cfg.limits.maxRetries - retries
  {
    hide Exceeded;
    hide Backoff;
    ExceededStop(cfg.limits, timeout, env, p);
    var q := Called(Checked(p), step);
    if Exceeded(cfg.limits, timeout, env, p).None? {
      var outcome := OutcomeOf(cfg, env, step, p.toolCalls);
      if outcome.FailedWith? && Classify(cfg.limits.maxRetries, outcome.error, retries).Retry? {
        AttemptsStop(cfg, timeout, env, step, q.(slept := q.slept + Backoff(retries)), retries + 1);
      }
    }
  }

  function Recorded(p: Progress, step: Step): Progress {
    p.(outputs := p.outputs + [StepOutput(step.name, step.agent, true)], iterations := p.iterations + 1)
  }

  /** The left-to-right scan of the plan from step `i`. */
  function Scan(cfg: Config, timeout: Option<int>, env: Environment, approved: set<string>,
                plan: seq<Step>, i: nat, p: Progress): (Progress, Stop)
    requires i <= |plan|
    decreases |plan| - i
  {
    if i == |plan| then (p, AllDone)
    else
      var q := p.(stepIndex := i);
      var stop := Exceeded(cfg.limits, timeout, env, q);
      if stop.Some? then (Checked(q), stop.value)
      else if plan[i].requiresApproval && plan[i].name !in approved then (Checked(q), Unapproved(plan[i]))
      else
        var (r, failure) := Attempts(cfg, timeout, env, plan[i], Checked(q), 0);
        if failure.Some? then (r, failure.value)
        else Scan(cfg, timeout, env, approved, plan, i + 1, Recorded(r, plan[i]))
  }

  function OrSame(r: Result<World, ServiceError>, w: World): World {
    if r.Ok? then r.value else w
  }

  /** A subgraph is started only when there is one. */
  function Invoke(w: World, cfg: Config, id: TaskId, step: Step): World {
    if step.agent in cfg.graphs then w.(log := w.log + [Invoked(id, step)]) else w
  }

  /** What a run's calls leave in the log. */
  function InvokedBy(cfg: Config, id: TaskId, calls: seq<Step>): seq<Event> {
    if calls == [] then []
    else
      var n := |calls| - 1;
      InvokedBy(cfg, id, calls[..n]) + (if calls[n].agent in cfg.graphs then [Invoked(id, calls[n])] else [])
  }

  /** The world after a run has made its calls. */
  function WithCalls(w: World, cfg: Config, id: TaskId, calls: seq<Step>): World {
    w.(log := w.log + InvokedBy(cfg, id, calls))
  }

  lemma OneMoreCall(w: World, cfg: Config, id: TaskId, calls: seq<Step>, step: Step)
    ensures WithCalls(w, cfg, id, calls + [step]) == Invoke(WithCalls(w, cfg, id, calls), cfg, id, step)
  {
    assert (calls + [step])[..|calls|] == calls;
  }

  /* ---- Walking the state machine ---- */

  const HAPPY_ORDER: seq<TaskState> :=
    [Created, Validating, Planning, Researching, Drafting, ValidatingResult, Executing, Verifying, Completed]

  function PlaceOf(state: TaskState): Option<nat> {
    match state
    case Created => Some(0)
    case Validating => Some(1)
    case Planning => Some(2)
    case Researching => Some(3)
    case Drafting => Some(4)
    case ValidatingResult => Some(5)
    case Executing => Some(6)
    case Verifying => Some(7)
    case Completed => Some(8)
    case _ => None
  }

  /** How far the walk got, and whether every transition was allowed. */
  datatype Walk = Walk(world: World, arrived: bool)

  function WalkAlong(w: World, id: TaskId, first: nat, last: nat): Walk
    requires last < |HAPPY_ORDER|
    decreases last + 1 - first
  {
    if first > last then Walk(w, true)
    else
      match TransitionTask(w, id, HAPPY_ORDER[first])
      case Ok(next) => WalkAlong(next, id, first + 1, last)
      case Raised(_) => Walk(w, false)
  }

  function WalkTo(w: World, id: TaskId, target: TaskState): Walk
    requires id in w.tasks
  {
    var current := w.tasks[id].state;
    if current == target then Walk(w, true)
    else if PlaceOf(current).None? || PlaceOf(target).None? then
      match TransitionTask(w, id, target)
      case Ok(next) => Walk(next, true)
      case Raised(_) => Walk(w, false)
    else WalkAlong(w, id, PlaceOf(current).value + 1, PlaceOf(target).value)
  }

  /* ---- The whole run ---- */

  /** The outcome of a run: `raised` when an exception escapes it. */
  datatype Report = Report(world: World, progress: Progress, stop: Stop, raised: bool)

  /** The last resort: fail the task, or let the exception escape when even that is refused. */
  function FailTask(w: World, id: TaskId, target: TaskState, p: Progress, stop: Stop, otherwise: World): Report
    requires id in w.tasks
  {
    match TransitionTask(w, id, target)
    case Ok(next) => Report(Put(next, id, next.tasks[id].(error := Some(stop))), p, stop, false)
    case Raised(_) => Report(otherwise, p, stop, true)
  }

  /** How a run ends, from the world its plan execution left. */
  function Conclude(w: World, id: TaskId, p: Progress, stop: Stop): Report
    requires id in w.tasks
  {
    match stop
    case AllDone => ConcludeDone(w, id, p)
    case Unapproved(step) =>
      // A refused request leaves its row for the next commit, which is that of the failure.
      (match CreateApproval(w, id, step)
       case Ok(next) => Report(next, p, stop, false)
       case Raised(_) =>
         FailTask(w.(approvals := w.approvals + [PendingRow(id, step)]), id, Failed, p, NotTransitioned, w))
    case Escalation(_) => Report(OrSame(TransitionTask(w, id, WaitingForApproval), w), p, stop, false)
    case OutOfLimits => FailTask(w, id, TimedOut, p, stop, w)
    case CancelledByUser => FailTask(w, id, Failed, p, stop, w)
    case StepFailure(_) => FailTask(w, id, Failed, p, stop, w)
    case NotTransitioned => FailTask(w, id, Failed, p, stop, w)
    case PlannerFailed => FailTask(w, id, Failed, p, stop, w)
  }

  function ConcludeDone(w: World, id: TaskId, p: Progress): Report
    requires id in w.tasks
  {
    var verifying := WalkTo(w, id, Verifying);
    WalkKeepsTasks(w, id, Verifying);
    if !verifying.arrived then FailTask(verifying.world, id, Failed, p, NotTransitioned, verifying.world)
    else
      var done := WalkTo(verifying.world, id, Completed);
      WalkKeepsTasks(verifying.world, id, Completed);
      if !done.arrived then FailTask(done.world, id, Failed, p, NotTransitioned, done.world)
      else
        var summary := Summary(p.iterations, p.toolCalls, p.outputs);
        Report(Put(done.world, id, done.world.tasks[id].(result := Some(summary))), p, AllDone, false)
  }

  lemma {:induction false} WalkAlongKeepsTasks(w: World, id: TaskId, first: nat, last: nat)
    requires last < |HAPPY_ORDER|
    ensures WalkAlong(w, id, first, last).world.tasks.Keys == w.tasks.Keys
    ensures WalkAlong(w, id, first, last).world.approvals == w.approvals
    ensures id in w.tasks ==> WalkAlong(w, id, first, last).world.tasks[id].plan == w.tasks[id].plan
    decreases last + 1 - first
  {
    if first <= last && TransitionTask(w, id, HAPPY_ORDER[first]).Ok? {
      WalkAlongKeepsTasks(TransitionTask(w, id, HAPPY_ORDER[first]).value, id, first + 1, last);
    }
  }

  lemma WalkKeepsTasks(w: World, id: TaskId, target: TaskState)
    requires id in w.tasks
    ensures WalkTo(w, id, target).world.tasks.Keys == w.tasks.Keys
    ensures WalkTo(w, id, target).world.approvals == w.approvals
    ensures WalkTo(w, id, target).world.tasks[id].plan == w.tasks[id].plan
  {
    if PlaceOf(w.tasks[id].state).Some? && PlaceOf(target).Some? {
      WalkAlongKeepsTasks(w, id, PlaceOf(w.tasks[id].state).value + 1, PlaceOf(target).value);
    }
  }

  /** The cached plan, else the planner's, if it gives one. */
  function PlanOf(task: Task, env: Environment): Option<seq<Step>> {
    if task.plan.Some? then task.plan else env.planned
  }

  /** The walk to the planning stage, for a task that has not reached it. */
  function EarlyWalk(w: World, id: TaskId): Walk
    requires id in w.tasks
  {
    if w.tasks[id].state in {Created, Validating} then WalkTo(w, id, Planning) else Walk(w, true)
  }

  /** From the cached plan on; only from here are exceptions handled. */
  function RunPlan(w: World, cfg: Config, id: TaskId, timeout: Option<int>, env: Environment, plan: seq<Step>): Report
    requires id in w.tasks
  {
    var ready := Put(w, id, w.tasks[id].(plan := Some(plan)));
    var started := WalkTo(ready, id, Executing);
    WalkKeepsTasks(ready, id, Executing);
    if !started.arrived then Conclude(started.world, id, FRESH, NotTransitioned)
    else
      var (p, stop) := Scan(cfg, timeout, env, ApprovedActions(ready, id), plan, 0, FRESH);
      Conclude(WithCalls(started.world, cfg, id, p.calls), id, p, stop)
  }

  function RunTask(w: World, cfg: Config, id: TaskId, env: Environment): Report {
    if id !in w.tasks then Report(w, FRESH, NotTransitioned, true)
    else
      var early := EarlyWalk(w, id);
      WalkKeepsTasks(w, id, Planning);
      if !early.arrived then Report(early.world, FRESH, NotTransitioned, true)
      else
        match PlanOf(early.world.tasks[id], env)
        case None => Report(early.world, FRESH, PlannerFailed, true)
        case Some(plan) => RunPlan(early.world, cfg, id, w.tasks[id].timeout, env, plan)
  }

  const NOTHING := World(map[], [], [])
}
