/**
 What becomes of an approval that arrives while a run pauses its task.  A run asks for approval, its session
 refreshes its copy of the task, and the handler of the missing approval then pauses the task once more if
 that copy can be paused.
 */
module Pauses {
  import opened Outcomes
  import opened StateMachine
  import opened Protocol
  import opened ProtocolLaws
  import opened ProtocolProgress
  import opened Interleaving
  import opened Flights
  import opened Alone

  predicate CanWait(state: TaskState) {
    CanTransition(state, WaitingForApproval)
  }

  ghost predicate NothingPending(w: World, id: TaskId) {
    forall row :: 0 <= row < |w.approvals| ==> !(w.approvals[row].task == id && w.approvals[row].status == Pending)
  }

  /** Run `k` is about to ask for approval of a task that can wait. */
  ghost predicate AboutToAsk(s: System, k: nat) {
    && k < |s.flights| && s.flights[k].phase.Asking? && !s.flights[k].refreshing
    && s.flights[k].task in s.world.tasks && CanWait(s.world.tasks[s.flights[k].task].state)
  }

  /** Run `k` stands so, and its task is in this state. */
  ghost predicate Stands(s: System, k: nat, f: Flight, state: TaskState) {
    k < |s.flights| && s.flights[k] == f && f.task in s.world.tasks && s.world.tasks[f.task].state == state
  }

  function Requested(f: Flight): Flight
    requires f.phase.Asking?
  {
    f.(refreshing := true, phase := Pausing(Unapproved(f.phase.step)))
  }

  function Refreshed(f: Flight, row: Task): Flight {
    f.(loaded := row, refreshing := false)
  }

  /* ---- The three steps ---- */

  lemma AskStep(s: System, k: nat)
    requires AboutToAsk(s, k)
    ensures var f, t := s.flights[k], Act(s, Continue(k));
            && Stands(t, k, Requested(f), WaitingForApproval)
            && t.world.approvals == s.world.approvals + [PendingRow(f.task, f.phase.step)]
  {
    hide CanTransition;
  }

  lemma RefreshStep(s: System, k: nat, f: Flight, state: TaskState)
    requires Stands(s, k, f, state) && f.refreshing && !f.phase.Ended?
    ensures var t := Act(s, Continue(k));
            t.world == s.world && Stands(t, k, Refreshed(f, s.world.tasks[f.task]), state)
  {
  }

  /** The pause goes by the session's copy, and its transition by the row. */
  lemma PauseStep(s: System, k: nat, f: Flight, state: TaskState, stop: Stop)
    requires Stands(s, k, f, state) && !f.refreshing && f.phase == Pausing(stop)
    ensures var t := Act(s, Continue(k));
            && k < |t.flights| && t.flights[k].phase == Ended(stop, CanWait(f.loaded.state) && !CanWait(state))
            && t.world.approvals == s.world.approvals
            && f.task in t.world.tasks
            && (if CanWait(f.loaded.state) && CanWait(state) then t.world.tasks[f.task].state == WaitingForApproval
                else t.world == s.world)
  {
    hide CanTransition;
  }

  /* ---- Whatever others do ---- */

  ghost predicate Others(actions: seq<Action>, k: nat) {
    forall i :: 0 <= i < |actions| ==> actions[i] != Continue(k)
  }

  lemma OthersAct(s: System, a: Action, k: nat)
    requires SysInv(s) && k < |s.flights| && a != Continue(k)
    ensures SysInv(Act(s, a)) && k < |Act(s, a).flights| && Act(s, a).flights[k] == s.flights[k]
    ensures forall id :: id in s.world.tasks ==> id in Act(s, a).world.tasks
  {
    hide Advance;
    hide Served;
    hide Inv;
    hide Cleared;
    ActKeepsInv(s, a);
    forall id | id in s.world.tasks
      ensures id in Act(s, a).world.tasks
    {
      TasksStay(s.world, Act(s, a).world, id);
    }
  }

  lemma {:induction false} OthersLeaveTheRun(s: System, actions: seq<Action>, k: nat)
    requires SysInv(s) && k < |s.flights| && Others(actions, k)
    ensures var t := History(s, actions);
            && SysInv(t) && k < |t.flights| && t.flights[k] == s.flights[k]
            && forall id :: id in s.world.tasks ==> id in t.world.tasks
  {
    hide SysInv;
    hide Act;
    if actions != [] {
      OthersLeaveTheRun(s, actions[..|actions| - 1], k);
      OthersAct(History(s, actions[..|actions| - 1]), actions[|actions| - 1], k);
    }
  }

  /**
   Whatever comes between the request and the refresh (`a`) and between the refresh and the pause (`b`): the pause
   leaves the task waiting with nothing pending exactly when nothing was pending before it and the task was
   waiting already, or could be paused both then and when the copy was refreshed.
   */
  lemma PauseExactly(s: System, k: nat, a: seq<Action>, b: seq<Action>)
    requires SysInv(s) && AboutToAsk(s, k) && Others(a, k) && Others(b, k)
    ensures var id := s.flights[k].task;
            var u := History(Act(s, Continue(k)), a);
            var v := History(Act(u, Continue(k)), b);
            var t := Act(v, Continue(k));
            && id in u.world.tasks && id in v.world.tasks && id in t.world.tasks && k < |t.flights|
            && var before, after := CanWait(u.world.tasks[id].state), CanWait(v.world.tasks[id].state);
               && t.flights[k].phase == Ended(Unapproved(s.flights[k].phase.step), before && !after)
               && (t.world.tasks[id].state == WaitingForApproval && NothingPending(t.world, id) <==>
                     && NothingPending(v.world, id)
                     && (v.world.tasks[id].state == WaitingForApproval || (before && after)))
               && (!(before && after) ==> t.world == v.world)
  {
    hide SysInv;
    hide Act;
    hide CanWait;
    var f := s.flights[k];
    AskStep(s, k);
    ActKeepsInv(s, Continue(k));
    var asked := Act(s, Continue(k));
    OthersLeaveTheRun(asked, a, k);
    var u := History(asked, a);
    RefreshStep(u, k, Requested(f), u.world.tasks[f.task].state);
    ActKeepsInv(u, Continue(k));
    OthersLeaveTheRun(Act(u, Continue(k)), b, k);
    var v := History(Act(u, Continue(k)), b);
    PauseStep(v, k, Refreshed(Requested(f), u.world.tasks[f.task]), v.world.tasks[f.task].state,
              Unapproved(f.phase.step));
  }

  /* ---- One approval, and nothing else about the task ---- */

  /** For this task nothing differs but the log, and no request was added. */
  ghost predicate SameFor(w: World, v: World, id: TaskId) {
    && id in w.tasks && id in v.tasks && v.tasks[id] == w.tasks[id]
    && |w.approvals| <= |v.approvals|
    && (forall row :: 0 <= row < |w.approvals| ==>
          v.approvals[row].task == w.approvals[row].task
          && (w.approvals[row].task == id ==> v.approvals[row] == w.approvals[row]))
    && (forall row :: |w.approvals| <= row < |v.approvals| ==> v.approvals[row].task != id)
  }

  /** An action that is not about the task. */
  predicate Spares(s: System, a: Action, id: TaskId) {
    match a
    case Create(_, _) => true
    case Decision(row, _, _) => row >= |s.world.approvals| || s.world.approvals[row].task != id
    case Cancel(other) => other != id
    case Transit(other, _) => other != id
    case Request(other, _) => other != id
    case Begin(_, _, _) => true
    case Continue(k) => k >= |s.flights| || s.flights[k].task != id
  }

  predicate AllSpare(s: System, actions: seq<Action>, id: TaskId) {
    actions == []
    || (AllSpare(s, actions[..|actions| - 1], id)
        && Spares(History(s, actions[..|actions| - 1]), actions[|actions| - 1], id))
  }

  lemma SparingAdvance(w: World, f: Flight, id: TaskId)
    requires id in w.tasks && f.task != id
    ensures SameFor(w, Advance(w, f).world, id)
  {
    hide CanTransition;
    hide Exceeded;
    hide Classify;
  }

  lemma SparingAct(s: System, a: Action, id: TaskId)
    requires id in s.world.tasks && Spares(s, a, id)
    ensures SameFor(s.world, Act(s, a).world, id)
    ensures forall k :: 0 <= k < |s.flights| && s.flights[k].task == id ==>
              k < |Act(s, a).flights| && Act(s, a).flights[k] == s.flights[k]
  {
    hide Advance;
    hide CanTransition;
    if a.Continue? && a.k < |s.flights| {
      SparingAdvance(s.world, s.flights[a.k], id);
    }
  }

  lemma {:induction false} Spared(s: System, actions: seq<Action>, k: nat, f: Flight, state: TaskState)
    requires Stands(s, k, f, state) && AllSpare(s, actions, f.task)
    ensures Stands(History(s, actions), k, f, state) && SameFor(s.world, History(s, actions).world, f.task)
  {
    hide Act;
    hide Spares;
    if actions != [] {
      var before := History(s, actions[..|actions| - 1]);
      Spared(s, actions[..|actions| - 1], k, f, state);
      SparingAct(before, actions[|actions| - 1], f.task);
    }
  }

  /** The only pending request of the task is this one. */
  ghost predicate OnlyPending(w: World, id: TaskId, request: nat) {
    && request < |w.approvals| && w.approvals[request].task == id && w.approvals[request].status == Pending
    && forall row :: 0 <= row < |w.approvals| && row != request ==>
         !(w.approvals[row].task == id && w.approvals[row].status == Pending)
  }

  lemma ApproveStep(s: System, k: nat, f: Flight, request: nat, user: string)
    requires Stands(s, k, f, WaitingForApproval) && OnlyPending(s.world, f.task, request)
    ensures var t := Act(s, Decision(request, true, user));
            Stands(t, k, f, Executing) && NothingPending(t.world, f.task)
  {
  }

  /** A run has asked with a request that stays the only one, and has not been answered. */
  ghost predicate Unanswered(s: System, k: nat, f: Flight, request: nat) {
    Stands(s, k, f, WaitingForApproval) && OnlyPending(s.world, f.task, request)
  }

  /** The run's request has been approved. */
  ghost predicate Answered(s: System, k: nat, f: Flight) {
    Stands(s, k, f, Executing) && NothingPending(s.world, f.task)
  }

  lemma StaysUnanswered(s: System, actions: seq<Action>, k: nat, f: Flight, request: nat)
    requires Unanswered(s, k, f, request) && AllSpare(s, actions, f.task)
    ensures Unanswered(History(s, actions), k, f, request)
  {
    hide AllSpare;
    hide History;
    Spared(s, actions, k, f, WaitingForApproval);
  }

  lemma StaysAnswered(s: System, actions: seq<Action>, k: nat, f: Flight)
    requires Answered(s, k, f) && AllSpare(s, actions, f.task)
    ensures Answered(History(s, actions), k, f)
  {
    hide AllSpare;
    hide History;
    Spared(s, actions, k, f, Executing);
  }

  /** The system after the request, some actions, one of approval and refresh, more actions, the other, and more. */
  function BeforePause(s: System, k: nat, approve: Action, early: bool, x: seq<Action>, y: seq<Action>,
                       z: seq<Action>): System {
    var asked := History(Act(s, Continue(k)), x);
    var first := History(Act(asked, if early then approve else Continue(k)), y);
    History(Act(first, if early then Continue(k) else approve), z)
  }

  /** The actions in between are not about the task. */
  predicate Between(s: System, k: nat, approve: Action, early: bool, x: seq<Action>, y: seq<Action>, z: seq<Action>,
                    id: TaskId) {
    var asked := Act(s, Continue(k));
    var first := Act(History(asked, x), if early then approve else Continue(k));
    var second := Act(History(first, y), if early then Continue(k) else approve);
    AllSpare(asked, x, id) && AllSpare(first, y, id) && AllSpare(second, z, id)
  }

  /**
   A run asks for approval, its request is approved before it handles the pause, and nothing else is done about
   the task, whatever else goes on: the task ends up waiting with nothing left to approve exactly when the
   approval came before the session refreshed its copy, and is executing otherwise.
   */
  lemma ApprovalIsOverrunExactly(s: System, k: nat, user: string, early: bool, x: seq<Action>, y: seq<Action>,
                                 z: seq<Action>)
    requires AboutToAsk(s, k) && NothingPending(s.world, s.flights[k].task)
    requires Between(s, k, Decision(|s.world.approvals|, true, user), early, x, y, z, s.flights[k].task)
    ensures var f := s.flights[k];
            var t := Act(BeforePause(s, k, Decision(|s.world.approvals|, true, user), early, x, y, z), Continue(k));
            && f.task in t.world.tasks && NothingPending(t.world, f.task)
            && t.world.tasks[f.task].state == (if early then WaitingForApproval else Executing)
            && k < |t.flights| && t.flights[k].phase == Ended(Unapproved(f.phase.step), false)
  {
    hide Act;
    hide History;
    hide AllSpare;
    hide CanWait;
    var f, request := s.flights[k], |s.world.approvals|;
    var approve, g := Decision(request, true, user), Requested(f);
    AskStep(s, k);
    var asked := Act(s, Continue(k));
    assert Unanswered(asked, k, g, request);
    StaysUnanswered(asked, x, k, g, request);
    if early {
      ApprovedThenRefreshed(History(asked, x), k, g, request, user, y, z);
    } else {
      RefreshedThenApproved(History(asked, x), k, g, request, user, y, z);
    }
  }

  lemma ApprovedThenRefreshed(s: System, k: nat, f: Flight, request: nat, user: string, y: seq<Action>, z: seq<Action>)
    requires Unanswered(s, k, f, request) && f.refreshing && f.phase.Pausing?
    requires var first := Act(s, Decision(request, true, user));
             AllSpare(first, y, f.task) && AllSpare(Act(History(first, y), Continue(k)), z, f.task)
    ensures var first := History(Act(s, Decision(request, true, user)), y);
            var t := Act(History(Act(first, Continue(k)), z), Continue(k));
            && f.task in t.world.tasks && NothingPending(t.world, f.task)
            && t.world.tasks[f.task].state == WaitingForApproval
            && k < |t.flights| && t.flights[k].phase == Ended(f.phase.stop, false)
  {
    hide Act;
    hide History;
    hide AllSpare;
    hide OnlyPending;
    ApproveStep(s, k, f, request, user);
    StaysAnswered(Act(s, Decision(request, true, user)), y, k, f);
    var first := History(Act(s, Decision(request, true, user)), y);
    var g := Refreshed(f, first.world.tasks[f.task]);
    RefreshStep(first, k, f, Executing);
    StaysAnswered(Act(first, Continue(k)), z, k, g);
    PauseStep(History(Act(first, Continue(k)), z), k, g, Executing, f.phase.stop);
  }

  lemma RefreshedThenApproved(s: System, k: nat, f: Flight, request: nat, user: string, y: seq<Action>, z: seq<Action>)
    requires Unanswered(s, k, f, request) && f.refreshing && f.phase.Pausing?
    requires var first := Act(s, Continue(k));
             AllSpare(first, y, f.task) && AllSpare(Act(History(first, y), Decision(request, true, user)), z, f.task)
    ensures var first := History(Act(s, Continue(k)), y);
            var t := Act(History(Act(first, Decision(request, true, user)), z), Continue(k));
            && f.task in t.world.tasks && NothingPending(t.world, f.task) && t.world.tasks[f.task].state == Executing
            && k < |t.flights| && t.flights[k].phase == Ended(f.phase.stop, false)
  {
    hide Act;
    hide History;
    hide AllSpare;
    hide OnlyPending;
    var g := Refreshed(f, s.world.tasks[f.task]);
    RefreshStep(s, k, f, WaitingForApproval);
    StaysUnanswered(Act(s, Continue(k)), y, k, g, request);
    var first := History(Act(s, Continue(k)), y);
    ApproveStep(first, k, g, request, user);
    var answered := Act(first, Decision(request, true, user));
    StaysAnswered(answered, z, k, g);
    PauseStep(History(answered, z), k, g, Executing, f.phase.stop);
  }

  /* ---- It happens ---- */

  /**
   Every run from a working state whose scan meets an unapproved step comes to ask, with nothing pending but
   its own request.
   */
  lemma RunComesToAsk(s: System, cfg: Config, id: TaskId, env: Environment, plan: seq<Step>)
    requires var w := s.world;
             && id in w.tasks && Startable(w.tasks[id].state) && !w.tasks[id].state.Verifying?
             && PlanOf(w.tasks[id], env) == Some(plan) && NothingPending(w, id)
             && Scan(cfg, w.tasks[id].timeout, env, ApprovedActions(w, id), plan, 0, FRESH).1.Unapproved?
    ensures exists n: nat ::
              var k := |s.flights|;
              var t := History(Act(s, Begin(id, cfg, env)), Turns(k, n));
              AboutToAsk(t, k) && t.flights[k].task == id && NothingPending(t.world, id)
  {
    hide Reaches;
    hide Act;
    hide History;
    hide Scan;
    hide Startable;
    var w, f := s.world, Fresh(id, cfg, env);
    StartableRunStarts(w, id);
    AloneStarts(w, f);
    var m := Planned(w, f);
    assert m.flight.phase == NeedsPlan;
    AloneComesToAsk(m.world, m.flight, plan);
    var end :| Reaches(m, end) && IsAsking(end, id);
    ReachesOn(Moment(w, f), m, end);
    BegunReaches(s, f, end);
  }

  ghost predicate IsAsking(m: Moment, id: TaskId) {
    && m.flight.task == id && m.flight.phase.Asking? && !m.flight.refreshing
    && id in m.world.tasks && m.world.tasks[id].state == Executing && NothingPending(m.world, id)
  }

  lemma AloneComesToAsk(w: World, f: Flight, plan: seq<Step>)
    requires InTouch(w, f) && f.phase == NeedsPlan && f.p == FRESH
    requires Startable(w.tasks[f.task].state) && !w.tasks[f.task].state.Verifying? && NothingPending(w, f.task)
    requires PlanOf(w.tasks[f.task], f.env) == Some(plan)
    requires Scan(f.cfg, f.timeout, f.env, ApprovedActions(w, f.task), plan, 0, FRESH).1.Unapproved?
    ensures exists end :: Reaches(Moment(w, f), end) && IsAsking(end, f.task)
  {
    hide Reaches;
    hide Scan;
    hide WalkTo;
    AloneReads(w, f, plan);
    var m := Ready(w, f, plan);
    assert m.flight.approved == ApprovedActions(w, f.task);
    StartableWalks(m.world, f.task);
    AloneScans(m.world, m.flight);
    var v := WalkTo(m.world, f.task, Executing).world;
    var (q, stop) := Scan(f.cfg, f.timeout, f.env, m.flight.approved, plan, 0, FRESH);
    var end := Onto(WithCalls(v, f.cfg, f.task, q.calls), m.flight.(p := q), AfterScan(stop));
    ReachesOn(Moment(w, f), m, end);
    assert IsAsking(end, f.task);
  }

  lemma BegunReaches(s: System, f: Flight, end: Moment)
    requires f == Fresh(f.task, f.cfg, f.env) && Reaches(Moment(s.world, f), end) && IsAsking(end, f.task)
    ensures exists n: nat ::
              var k := |s.flights|;
              var t := History(Act(s, Begin(f.task, f.cfg, f.env)), Turns(k, n));
              AboutToAsk(t, k) && t.flights[k].task == f.task && NothingPending(t.world, f.task)
  {
    hide Advance;
    var n: nat :| Steps(Moment(s.world, f), n) == end;
    var k, begun := |s.flights|, Act(s, Begin(f.task, f.cfg, f.env));
    TurnsAreSteps(begun, k, n);
    var t := History(begun, Turns(k, n));
    assert begun.flights[k] == f && t.flights[k] == end.flight;
  }

  lemma {:induction false} HistoryAdds(s: System, a: seq<Action>, b: seq<Action>)
    ensures History(s, a + b) == History(History(s, a), b)
  {
    hide Act;
    if b == [] {
      assert a + b == a;
    } else {
      HistoryAdds(s, a, b[..|b| - 1]);
      assert (a + b)[..|a + b| - 1] == a + b[..|b| - 1];
    }
  }

  /** A task that is created and run with a one-step plan comes to ask, so what the lemmas above say does happen. */
  lemma AskingIsReachable()
    ensures exists actions, k: nat :: AboutToAsk(History(IDLE, actions), k)
                                 && NothingPending(History(IDLE, actions).world, History(IDLE, actions).flights[k].task)
  {
    hide Act;
    hide Scan;
    hide Startable;
    hide NothingPending;
    hide ApprovedActions;
    CreatedIsStartable();
    var step := Step("post", Social, true);
    var cfg := Config(Limits(1, 1, 1, 0), {});
    var env := Environment(Some([step]), _ => Succeeded, _ => 0.0, _ => false);
    var created := Act(IDLE, Create(0, None));
    CreatedTask(created, cfg, env, step);
    RunComesToAsk(created, cfg, 0, env, [step]);
    var n: nat :| var t := History(Act(created, Begin(0, cfg, env)), Turns(0, n));
                  AboutToAsk(t, 0) && t.flights[0].task == 0 && NothingPending(t.world, 0);
    CreatedAndBegun(cfg, env, n);
    assert AboutToAsk(History(IDLE, [Create(0, None), Begin(0, cfg, env)] + Turns(0, n)), 0);
  }

  lemma CreatedAndBegun(cfg: Config, env: Environment, n: nat)
    ensures History(IDLE, [Create(0, None), Begin(0, cfg, env)] + Turns(0, n))
            == History(Act(Act(IDLE, Create(0, None)), Begin(0, cfg, env)), Turns(0, n))
  {
    hide Act;
    var first := [Create(0, None), Begin(0, cfg, env)];
    assert [Create(0, None)][..0] == [] && first[..1] == [Create(0, None)];
    assert History(IDLE, [Create(0, None)]) == Act(IDLE, Create(0, None));
    HistoryAdds(IDLE, first, Turns(0, n));
  }

  lemma CreatedIsStartable()
    ensures Startable(Created)
  {
  }

  lemma CreatedTask(created: System, cfg: Config, env: Environment, step: Step)
    requires created == Act(IDLE, Create(0, None)) && step.requiresApproval
    requires cfg.limits == Limits(1, 1, 1, 0) && env.planned == Some([step])
    requires !env.cancelled(0) && env.elapsed(0) == 0.0
    ensures created.flights == []
    ensures var w := created.world;
            && 0 in w.tasks && w.tasks[0].state == Created && w.tasks[0].plan == None && NothingPending(w, 0)
            && Scan(cfg, w.tasks[0].timeout, env, ApprovedActions(w, 0), [step], 0, FRESH).1 == Unapproved(step)
  {
    assert ApprovedActions(created.world, 0) == {};
  }
}
