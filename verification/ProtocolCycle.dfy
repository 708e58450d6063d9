/**
 The cycle of runs and approvals that takes a task to completion: how many approvals it needs, and how
 often it invokes each step on the way.
 */
module ProtocolCycle {
  import opened Outcomes
  import opened StateMachine
  import opened Protocol
  import opened ProtocolLaws
  import opened ProtocolRuns
  import opened ProtocolProgress

  /* ---- One run when only approvals are missing ---- */

  function Names(plan: seq<Step>): set<string> {
    set s | s in plan :: s.name
  }

  /** Nothing but missing approvals stands in the way: with all of them the scan would get to the end. */
  ghost predicate Unhindered(cfg: Config, timeout: Option<int>, env: Environment, plan: seq<Step>) {
    Scan(cfg, timeout, env, Names(plan), plan, 0, FRESH).1.AllDone?
  }

  /** The calls such a scan makes for the first `k` steps. */
  function CallsTo(cfg: Config, timeout: Option<int>, env: Environment, plan: seq<Step>, k: nat): seq<Step>
    requires k <= |plan|
  {
    Scan(cfg, timeout, env, Names(plan), plan[..k], 0, FRESH).0.calls
  }

  predicate Lacks(step: Step, approved: set<string>) {
    step.requiresApproval && step.name !in approved
  }

  /** The names that still need an approval. */
  function Missing(plan: seq<Step>, approved: set<string>): set<string> {
    set s | s in plan && Lacks(s, approved) :: s.name
  }

  /** The first step from `i` on that lacks its approval, or the length of the plan. */
  function FirstMissing(plan: seq<Step>, approved: set<string>, i: nat): (k: nat)
    requires i <= |plan|
    ensures i <= k <= |plan| && (k < |plan| ==> Lacks(plan[k], approved))
    ensures forall j :: i <= j < k ==> !Lacks(plan[j], approved)
    decreases |plan| - i
  {
    if i == |plan| || Lacks(plan[i], approved) then i else FirstMissing(plan, approved, i + 1)
  }

  /**
   Without some approvals the same scan makes the same calls up to the first step that lacks its own, and stops
   there.
   */
  lemma {:induction false} ScanStopsAtMissing(cfg: Config, timeout: Option<int>, env: Environment,
                                              approved: set<string>, plan: seq<Step>, i: nat, p: Progress)
    requires i <= |plan| && Scan(cfg, timeout, env, Names(plan), plan, i, p).1.AllDone?
    ensures var k := FirstMissing(plan, approved, i);
            var (q, stop) := Scan(cfg, timeout, env, approved, plan, i, p);
            var (r, done) := Scan(cfg, timeout, env, Names(plan), plan[..k], i, p);
            && stop == (if k == |plan| then AllDone else Unapproved(plan[k]))
            && done.AllDone? && q.calls == r.calls
    decreases |plan| - i
  {
    hide Exceeded;
    hide Attempts;
    var k := FirstMissing(plan, approved, i);
    if i < |plan| {
      assert plan[i].name in Names(plan) by {
        assert plan[i] in plan;
      }
      ExceededStop(cfg.limits, timeout, env, p.(stepIndex := i));
      AttemptsStop(cfg, timeout, env, plan[i], Checked(p.(stepIndex := i)), 0);
      if i < k {
        assert plan[..k][i] == plan[i];
        var (r, failure) := Attempts(cfg, timeout, env, plan[i], Checked(p.(stepIndex := i)), 0);
        ScanStopsAtMissing(cfg, timeout, env, approved, plan, i + 1, Recorded(r, plan[i]));
      }
    }
  }

  /* ---- Calls are the steps, each as often as it is tried ---- */

  function Copies(step: Step, n: nat): seq<Step> {
    seq(n, _ => step)
  }

  /** The calls are these steps in order, each made at least once and at most `most` times. */
  ghost predicate Repeats(calls: seq<Step>, steps: seq<Step>, most: nat) {
    if steps == [] then calls == []
    else exists n: nat :: 1 <= n <= most && n <= |calls| && calls[..n] == Copies(steps[0], n)
                          && Repeats(calls[n..], steps[1..], most)
  }

  lemma RepeatsOne(step: Step, n: nat, calls: seq<Step>, steps: seq<Step>, most: nat)
    requires 1 <= n <= most && Repeats(calls, steps, most)
    ensures Repeats(Copies(step, n) + calls, [step] + steps, most)
  {
    var all := Copies(step, n) + calls;
    assert all[..n] == Copies(step, n) && all[n..] == calls;
    assert ([step] + steps)[1..] == steps;
  }

  /** How often the first step is made. */
  lemma FirstRepeats(calls: seq<Step>, steps: seq<Step>, most: nat) returns (n: nat)
    requires Repeats(calls, steps, most)
    ensures steps == [] ==> calls == []
    ensures steps != [] ==> 1 <= n <= most && n <= |calls| && calls == Copies(steps[0], n) + calls[n..]
                            && Repeats(calls[n..], steps[1..], most)
  {
    n := 0;
    if steps != [] {
      n :| 1 <= n <= most && n <= |calls| && calls[..n] == Copies(steps[0], n) && Repeats(calls[n..], steps[1..], most);
    }
  }

  lemma {:induction false} RepeatsBoth(calls: seq<Step>, steps: seq<Step>, more: seq<Step>, others: seq<Step>,
                                       most: nat)
    requires Repeats(calls, steps, most) && Repeats(more, others, most)
    ensures Repeats(calls + more, steps + others, most)
  {
    hide Repeats;
    hide Copies;
    var n := FirstRepeats(calls, steps, most);
    if steps == [] {
      assert calls + more == more && steps + others == others;
    } else {
      RepeatsBoth(calls[n..], steps[1..], more, others, most);
      RepeatsOne(steps[0], n, calls[n..] + more, steps[1..] + others, most);
      assert calls + more == Copies(steps[0], n) + (calls[n..] + more);
      assert steps + others == [steps[0]] + (steps[1..] + others);
    }
  }

  /** With one try each, the calls are the steps. */
  lemma {:induction false} RepeatsOnce(calls: seq<Step>, steps: seq<Step>)
    requires Repeats(calls, steps, 1)
    ensures calls == steps
  {
    hide Repeats;
    var n := FirstRepeats(calls, steps, 1);
    if steps != [] {
      RepeatsOnce(calls[n..], steps[1..]);
      assert steps == [steps[0]] + steps[1..];
    }
  }

  /** How often a step may be tried: with its retries, or once when nothing ever fails. */
  ghost predicate Tries(cfg: Config, env: Environment, most: nat) {
    most == NonNegative(cfg.limits.maxRetries) + 1 || (most == 1 && forall n :: env.outcome(n).Succeeded?)
  }

  lemma {:induction false} AttemptsAreCopies(cfg: Config, timeout: Option<int>, env: Environment, step: Step,
                                             p: Progress, retries: nat)
    requires Attempts(cfg, timeout, env, step, p, retries).1.None?
    ensures var q := Attempts(cfg, timeout, env, step, p, retries).0;
            && step.agent in cfg.graphs && |p.calls| < |q.calls|
            && q.calls == p.calls + Copies(step, |q.calls| - |p.calls|)
            && |q.calls| <= |p.calls| + NonNegative(cfg.limits.maxRetries - retries) + 1
            && ((forall n :: env.outcome(n).Succeeded?) ==> |q.calls| == |p.calls| + 1)
    decreases cfg.limits.maxRetries - retries
  {
    hide Exceeded;
    hide Backoff;
    ExceededStop(cfg.limits, timeout, env, p);
    var r := Called(Checked(p), step);
    var outcome := OutcomeOf(cfg, env, step, p.toolCalls);
    if outcome.FailedWith? {
      AttemptsAreCopies(cfg, timeout, env, step, r.(slept := r.slept + Backoff(retries)), retries + 1);
      var q := Attempts(cfg, timeout, env, step, p, retries).0;
      var n := |q.calls| - |p.calls|;
      assert p.calls + [step] + Copies(step, n - 1) == p.calls + Copies(step, n);
    }
  }

  lemma {:induction false} ScanRepeats(cfg: Config, timeout: Option<int>, env: Environment, approved: set<string>,
                                       plan: seq<Step>, i: nat, p: Progress, most: nat)
    requires i <= |plan| && Tries(cfg, env, most) && Scan(cfg, timeout, env, approved, plan, i, p).1.AllDone?
    ensures var q := Scan(cfg, timeout, env, approved, plan, i, p).0;
            && p.calls <= q.calls && Repeats(q.calls[|p.calls|..], plan[i..], most)
            && forall j :: i <= j < |plan| ==> plan[j].agent in cfg.graphs
    decreases |plan| - i
  {
    hide Exceeded;
    hide Attempts;
    hide Repeats;
    if i == |plan| {
      NothingRepeats(most);
    } else {
      var start := Checked(p.(stepIndex := i));
      ExceededStop(cfg.limits, timeout, env, p.(stepIndex := i));
      AttemptsStop(cfg, timeout, env, plan[i], start, 0);
      var r := Recorded(Attempts(cfg, timeout, env, plan[i], start, 0).0, plan[i]);
      AttemptsAreCopies(cfg, timeout, env, plan[i], start, 0);
      ScanRepeats(cfg, timeout, env, approved, plan, i + 1, r, most);
      var q := Scan(cfg, timeout, env, approved, plan, i + 1, r).0;
      var n := |r.calls| - |p.calls|;
      RepeatsOne(plan[i], n, q.calls[|r.calls|..], plan[i + 1..], most);
      assert q.calls[|p.calls|..] == Copies(plan[i], n) + q.calls[|r.calls|..];
      assert plan[i..] == [plan[i]] + plan[i + 1..];
    }
  }

  lemma NothingRepeats(most: nat)
    ensures Repeats([], [], most)
  {
  }

  /** The calls for the first `k` steps are those steps, with their retries, and all of them have a graph. */
  lemma CallsRepeat(cfg: Config, timeout: Option<int>, env: Environment, plan: seq<Step>, approved: set<string>,
                    most: nat)
    requires Unhindered(cfg, timeout, env, plan) && Tries(cfg, env, most)
    ensures var k := FirstMissing(plan, approved, 0); Repeats(CallsTo(cfg, timeout, env, plan, k), plan[..k], most)
  {
    hide Repeats;
    hide Scan;
    var k := FirstMissing(plan, approved, 0);
    ScanStopsAtMissing(cfg, timeout, env, approved, plan, 0, FRESH);
    ScanRepeats(cfg, timeout, env, Names(plan), plan[..k], 0, FRESH, most);
    var calls := CallsTo(cfg, timeout, env, plan, k);
    assert calls[0..] == calls && plan[..k][0..] == plan[..k];
  }

  lemma {:induction false} RepeatsAreGraphed(cfg: Config, calls: seq<Step>, steps: seq<Step>, most: nat)
    requires Repeats(calls, steps, most) && forall j :: 0 <= j < |steps| ==> steps[j].agent in cfg.graphs
    ensures forall s :: s in calls ==> s.agent in cfg.graphs
  {
    hide Repeats;
    var n := FirstRepeats(calls, steps, most);
    if steps != [] {
      RepeatsAreGraphed(cfg, calls[n..], steps[1..], most);
    }
  }

  lemma CallsAreGraphed(cfg: Config, timeout: Option<int>, env: Environment, plan: seq<Step>, approved: set<string>)
    requires Unhindered(cfg, timeout, env, plan)
    ensures var calls := CallsTo(cfg, timeout, env, plan, FirstMissing(plan, approved, 0)); Graphed(cfg, calls) == calls
  {
    hide Repeats;
    hide Scan;
    var k := FirstMissing(plan, approved, 0);
    var most := NonNegative(cfg.limits.maxRetries) + 1;
    ScanStopsAtMissing(cfg, timeout, env, approved, plan, 0, FRESH);
    ScanRepeats(cfg, timeout, env, Names(plan), plan[..k], 0, FRESH, most);
    CallsRepeat(cfg, timeout, env, plan, approved, most);
    RepeatsAreGraphed(cfg, CallsTo(cfg, timeout, env, plan, k), plan[..k], most);
    AllGraphed(cfg, CallsTo(cfg, timeout, env, plan, k));
  }

  /* ---- One run ---- */

  /** An unhindered run, from start to end: what it invokes and where it leaves the task. */
  lemma UnhinderedRun(w: World, cfg: Config, id: TaskId, env: Environment, plan: seq<Step>)
    requires id in w.tasks && Startable(w.tasks[id].state) && PlanOf(w.tasks[id], env) == Some(plan)
    requires Unhindered(cfg, w.tasks[id].timeout, env, plan)
    ensures var r := RunTask(w, cfg, id, env);
            var k := FirstMissing(plan, ApprovedActions(w, id), 0);
            var stop := if k == |plan| then AllDone else Unapproved(plan[k]);
            && InvocationsOf(r.world.log, id)
               == InvocationsOf(w.log, id) + CallsTo(cfg, w.tasks[id].timeout, env, plan, k)
            && id in r.world.tasks && r.world.tasks[id].state == EndState(Seat(w.tasks[id].state), stop)
            && r.world.tasks[id].plan == Some(plan) && r.world.tasks[id].timeout == w.tasks[id].timeout
            && r.world.approvals == w.approvals + if k == |plan| then [] else [PendingRow(id, plan[k])]
  {
    hide Scan;
    hide RunTask;
    hide InvocationsOf;
    hide Graphed;
    var approved := ApprovedActions(w, id);
    RunIsScan(w, cfg, id, env, plan);
    ScanStopsAtMissing(cfg, w.tasks[id].timeout, env, approved, plan, 0, FRESH);
    RunInvocations(w, cfg, id, env);
    CallsAreGraphed(cfg, w.tasks[id].timeout, env, plan, approved);
  }

  /* ---- Approving what a run asked for ---- */

  /** Approving the pending request of a task, as a user does. */
  function ApprovePending(w: World, id: TaskId, user: string): World {
    match PendingFor(w.approvals, id, |w.approvals|)
    case Some(row) => OrSame(Decide(w, row, true, user), w)
    case None => w
  }

  /** Run, approve, run, approve, ..., run: one run per environment. */
  function Cycle(w: World, cfg: Config, id: TaskId, user: string, envs: seq<Environment>): World
    decreases |envs|
  {
    if envs == [] then w
    else if |envs| == 1 then RunTask(w, cfg, id, envs[0]).world
    else Cycle(ApprovePending(RunTask(w, cfg, id, envs[0]).world, id, user), cfg, id, user, envs[1..])
  }

  /** An approval clears its own name and no other. */
  lemma ApprovalClears(plan: seq<Step>, approved: set<string>, name: string)
    ensures Missing(plan, approved + {name}) == Missing(plan, approved) - {name}
  {
  }

  lemma LackingIsMissing(plan: seq<Step>, approved: set<string>, k: nat)
    requires k < |plan| && Lacks(plan[k], approved)
    ensures plan[k].name in Missing(plan, approved)
  {
    assert plan[k] in plan;
  }

  lemma NothingMissing(plan: seq<Step>, approved: set<string>)
    ensures Missing(plan, approved) == {} <==> FirstMissing(plan, approved, 0) == |plan|
  {
    var k := FirstMissing(plan, approved, 0);
    if k < |plan| {
      LackingIsMissing(plan, approved, k);
    }
  }

  lemma ApprovalAdds(before: seq<Approval>, after: seq<Approval>, id: TaskId, name: string)
    requires |after| == |before| + 1 && after[..|before|] == before
    requires after[|before|].task == id && after[|before|].action == name && after[|before|].status == Approved
    ensures ApprovedActions(NOTHING.(approvals := after), id)
            == ApprovedActions(NOTHING.(approvals := before), id) + {name}
  {
    assert after == before + [after[|before|]];
    var rows := ApprovedActions(NOTHING.(approvals := after), id);
    assert name in rows by {
      assert after[|before|] in after;
    }
    assert forall row :: row in after <==> row in before || row == after[|before|];
  }

  /** The newest row of a waiting task is the one approved, and the task goes on. */
  lemma ApproveNewest(w: World, id: TaskId, rows: seq<Approval>, step: Step, user: string)
    requires id in w.tasks && w.tasks[id].state == WaitingForApproval
    requires w.approvals == rows + [PendingRow(id, step)]
    ensures var next := ApprovePending(w, id, user);
            && next.tasks == w.tasks[id := w.tasks[id].(state := Executing)]
            && ApprovedActions(next, id) == ApprovedActions(w.(approvals := rows), id) + {step.name}
            && InvocationsOf(next.log, id) == InvocationsOf(w.log, id)
  {
    hide InvocationsOf;
    var row := |rows|;
    assert w.approvals[row] == PendingRow(id, step);
    assert PendingFor(w.approvals, id, |w.approvals|) == Some(row);
    var next := ApprovePending(w, id, user);
    ApprovalAdds(rows, next.approvals, id, step.name);
    var decided := w.log + [Decided(id, step.name, true)];
    InvocationsSnoc(w.log, Decided(id, step.name, true), id);
    InvocationsSnoc(decided, Entered(id, Executing), id);
  }

  /**
   One unhindered run that lacks approvals pauses the task at the first step that lacks its own; approving its
   request clears exactly that name.
   */
  lemma RunThenApprove(w: World, cfg: Config, id: TaskId, user: string, env: Environment, plan: seq<Step>)
    requires id in w.tasks && Startable(w.tasks[id].state) && !w.tasks[id].state.Verifying?
    requires PlanOf(w.tasks[id], env) == Some(plan) && Unhindered(cfg, w.tasks[id].timeout, env, plan)
    requires Missing(plan, ApprovedActions(w, id)) != {}
    ensures var paused := RunTask(w, cfg, id, env).world;
            var next := ApprovePending(paused, id, user);
            var approved := ApprovedActions(w, id);
            var k := FirstMissing(plan, approved, 0);
            && id in paused.tasks && paused.tasks[id].state == WaitingForApproval
            && id in next.tasks && next.tasks[id].state == Executing
            && next.tasks[id].plan == Some(plan) && next.tasks[id].timeout == w.tasks[id].timeout
            && k < |plan| && ApprovedActions(next, id) == approved + {plan[k].name}
            && plan[k].name in Missing(plan, approved)
            && Missing(plan, ApprovedActions(next, id)) == Missing(plan, approved) - {plan[k].name}
            && InvocationsOf(next.log, id)
               == InvocationsOf(w.log, id) + CallsTo(cfg, w.tasks[id].timeout, env, plan, k)
  {
    hide RunTask;
    hide ApprovePending;
    hide Unhindered;
    hide InvocationsOf;
    hide Missing;
    var approved := ApprovedActions(w, id);
    NothingMissing(plan, approved);
    UnhinderedRun(w, cfg, id, env, plan);
    var k := FirstMissing(plan, approved, 0);
    var paused := RunTask(w, cfg, id, env).world;
    ApproveNewest(paused, id, w.approvals, plan[k], user);
    assert ApprovedActions(paused.(approvals := w.approvals), id) == approved;
    LackingIsMissing(plan, approved, k);
    ApprovalClears(plan, approved, plan[k].name);
  }

  /* ---- How often each step is worked on ---- */

  function Upto(n: nat): seq<nat> {
    seq(n, i => i)
  }

  /** The places in the plan that the cycle works on, round after round. */
  function Rounds(plan: seq<Step>, approved: set<string>): (places: seq<nat>)
    ensures forall place :: place in places ==> place < |plan|
    decreases |Missing(plan, approved)|
  {
    var k := FirstMissing(plan, approved, 0);
    if k == |plan| then Upto(|plan|)
    else
      LackingIsMissing(plan, approved, k);
      ApprovalClears(plan, approved, plan[k].name);
      Upto(k) + Rounds(plan, approved + {plan[k].name})
  }

  /** The steps at these places. */
  function At(plan: seq<Step>, places: seq<nat>): seq<Step>
    requires forall place :: place in places ==> place < |plan|
  {
    seq(|places|, i requires 0 <= i < |places| => assert places[i] in places; plan[places[i]])
  }

  /** The steps the cycle works on. */
  function RoundSteps(plan: seq<Step>, approved: set<string>): seq<Step> {
    At(plan, Rounds(plan, approved))
  }

  lemma AtUpto(plan: seq<Step>, k: nat, rest: seq<nat>)
    requires k <= |plan| && forall place :: place in rest ==> place < |plan|
    ensures At(plan, Upto(k) + rest) == plan[..k] + At(plan, rest)
  {
  }

  /** One round: the plan up to the first step that lacks its approval, and on with that approval. */
  lemma RoundStepsUnfold(plan: seq<Step>, approved: set<string>)
    ensures var k := FirstMissing(plan, approved, 0);
            RoundSteps(plan, approved)
            == if k == |plan| then plan else plan[..k] + RoundSteps(plan, approved + {plan[k].name})
  {
    hide Missing;
    hide FirstMissing;
    hide At;
    var k := FirstMissing(plan, approved, 0);
    if k == |plan| {
      AtUpto(plan, k, []);
      AtNothing(plan);
      assert Upto(k) + [] == Upto(k);
    } else {
      AtUpto(plan, k, Rounds(plan, approved + {plan[k].name}));
    }
  }

  lemma AtNothing(plan: seq<Step>)
    ensures At(plan, []) == []
  {
  }

  lemma {:induction false} CountUpto(k: nat, j: nat)
    ensures multiset(Upto(k))[j] == if j < k then 1 else 0
  {
    if k > 0 {
      assert Upto(k) == Upto(k - 1) + [k - 1];
      CountUpto(k - 1, j);
    }
  }

  /**
   Over the cycle the step at place `j` is worked on once, and once more for each distinct name that is
   missing in the plan but not up to that place: for every approval still to come behind it.
   */
  lemma {:induction false} RoundsReaching(plan: seq<Step>, approved: set<string>, j: nat)
    requires j < |plan|
    ensures multiset(Rounds(plan, approved))[j]
            == 1 + |Missing(plan, approved) - Missing(plan[..j + 1], approved)|
    decreases |Missing(plan, approved)|
  {
    hide Missing;
    hide Rounds;
    hide FirstMissing;
    var k := FirstMissing(plan, approved, 0);
    NothingMissing(plan, approved);
    RoundsCount(plan, approved, j);
    if k < |plan| {
      var name := plan[k].name;
      LackingIsMissing(plan, approved, k);
      ApprovalClears(plan, approved, name);
      ApprovalClears(plan[..j + 1], approved, name);
      RoundsReaching(plan, approved + {name}, j);
      MissingUpto(plan, approved, j);
      OneFewer(Missing(plan, approved), Missing(plan[..j + 1], approved), name);
    }
  }

  lemma RoundsCount(plan: seq<Step>, approved: set<string>, j: nat)
    requires j < |plan|
    ensures var k := FirstMissing(plan, approved, 0);
            multiset(Rounds(plan, approved))[j]
            == if k == |plan| then 1
               else (if j < k then 1 else 0) + multiset(Rounds(plan, approved + {plan[k].name}))[j]
  {
    hide Missing;
    hide FirstMissing;
    hide Upto;
    CountUpto(FirstMissing(plan, approved, 0), j);
  }

  lemma OneFewer(missing: set<string>, upto: set<string>, name: string)
    requires name in missing
    ensures |missing - upto| == |(missing - {name}) - (upto - {name})| + if name in upto then 0 else 1
  {
    var rest := (missing - {name}) - (upto - {name});
    assert missing - upto == if name in upto then rest else rest + {name};
  }

  /** Up to a place before the first step that lacks its approval nothing is missing; from there on its name is. */
  lemma MissingUpto(plan: seq<Step>, approved: set<string>, j: nat)
    requires j < |plan|
    ensures var k := FirstMissing(plan, approved, 0);
            if j < k then Missing(plan[..j + 1], approved) == {}
            else plan[k].name in Missing(plan[..j + 1], approved)
  {
    var k := FirstMissing(plan, approved, 0);
    if k <= j {
      assert plan[..j + 1][k] == plan[k];
    }
  }

  /** Every run of a cycle is unhindered, for a task with this plan and timeout. */
  ghost predicate AllUnhindered(task: Task, cfg: Config, plan: seq<Step>, envs: seq<Environment>) {
    forall k :: 0 <= k < |envs| ==>
      PlanOf(task, envs[k]) == Some(plan) && Unhindered(cfg, task.timeout, envs[k], plan)
  }

  lemma FirstUnhindered(task: Task, next: Task, cfg: Config, plan: seq<Step>, envs: seq<Environment>)
    requires AllUnhindered(task, cfg, plan, envs) && envs != []
    requires next.plan == Some(plan) && next.timeout == task.timeout
    ensures PlanOf(task, envs[0]) == Some(plan) && Unhindered(cfg, task.timeout, envs[0], plan)
    ensures AllUnhindered(next, cfg, plan, envs[1..])
  {
    hide Unhindered;
  }

  /** The invocations of a cycle: in each round those up to the first step that lacks its approval. */
  function RoundCalls(cfg: Config, timeout: Option<int>, plan: seq<Step>, approved: set<string>,
                      envs: seq<Environment>): seq<Step>
    decreases |envs|
  {
    if envs == [] then []
    else
      var k := FirstMissing(plan, approved, 0);
      CallsTo(cfg, timeout, envs[0], plan, k)
      + if k == |plan| then [] else RoundCalls(cfg, timeout, plan, approved + {plan[k].name}, envs[1..])
  }

  /**
   The invocations of a full cycle are the steps of its rounds, in order, each made as often as it was tried: once
   in runs where nothing fails, and never more than once and its retries.
   */
  lemma {:induction false} RoundCallsRepeat(cfg: Config, timeout: Option<int>, plan: seq<Step>, approved: set<string>,
                                            envs: seq<Environment>, most: nat)
    requires |envs| == |Missing(plan, approved)| + 1
    requires forall k :: 0 <= k < |envs| ==> Unhindered(cfg, timeout, envs[k], plan) && Tries(cfg, envs[k], most)
    ensures Repeats(RoundCalls(cfg, timeout, plan, approved, envs), RoundSteps(plan, approved), most)
    ensures most == 1 ==> RoundCalls(cfg, timeout, plan, approved, envs) == RoundSteps(plan, approved)
    decreases |envs|
  {
    hide Repeats;
    hide Unhindered;
    hide Tries;
    hide Missing;
    hide FirstMissing;
    hide RoundSteps;
    hide CallsTo;
    var k := FirstMissing(plan, approved, 0);
    NothingMissing(plan, approved);
    RoundStepsUnfold(plan, approved);
    CallsRepeat(cfg, timeout, envs[0], plan, approved, most);
    var calls := CallsTo(cfg, timeout, envs[0], plan, k);
    if k == |plan| {
      assert plan[..k] == plan && calls + [] == calls;
    } else {
      LackingIsMissing(plan, approved, k);
      ApprovalClears(plan, approved, plan[k].name);
      RoundCallsRepeat(cfg, timeout, plan, approved + {plan[k].name}, envs[1..], most);
      RepeatsBoth(calls, plan[..k], RoundCalls(cfg, timeout, plan, approved + {plan[k].name}, envs[1..]),
                  RoundSteps(plan, approved + {plan[k].name}), most);
    }
    if most == 1 {
      RepeatsOnce(RoundCalls(cfg, timeout, plan, approved, envs), RoundSteps(plan, approved));
    }
  }

  /** The last run: with nothing missing the task is completed. */
  lemma LastRun(w: World, cfg: Config, id: TaskId, user: string, plan: seq<Step>, envs: seq<Environment>)
    requires id in w.tasks && Startable(w.tasks[id].state) && |envs| == 1 && Missing(plan, ApprovedActions(w, id)) == {}
    requires AllUnhindered(w.tasks[id], cfg, plan, envs)
    ensures var done := Cycle(w, cfg, id, user, envs);
            && id in done.tasks && done.tasks[id].state == Completed
            && InvocationsOf(done.log, id)
               == InvocationsOf(w.log, id) + RoundCalls(cfg, w.tasks[id].timeout, plan, ApprovedActions(w, id), envs)
  {
    hide RunTask;
    hide Missing;
    hide InvocationsOf;
    hide CallsTo;
    hide ApprovedActions;
    hide Unhindered;
    NothingMissing(plan, ApprovedActions(w, id));
    UnhinderedRun(w, cfg, id, envs[0], plan);
  }

  lemma CycleUnfold(w: World, cfg: Config, id: TaskId, user: string, plan: seq<Step>, envs: seq<Environment>,
                    timeout: Option<int>, approved: set<string>)
    requires |envs| > 1 && Missing(plan, approved) != {}
    ensures var next := ApprovePending(RunTask(w, cfg, id, envs[0]).world, id, user);
            Cycle(w, cfg, id, user, envs) == Cycle(next, cfg, id, user, envs[1..])
    ensures var k := FirstMissing(plan, approved, 0);
            && k < |plan|
            && RoundCalls(cfg, timeout, plan, approved, envs)
               == CallsTo(cfg, timeout, envs[0], plan, k)
                  + RoundCalls(cfg, timeout, plan, approved + {plan[k].name}, envs[1..])
  {
    hide RunTask;
    hide ApprovePending;
    hide CallsTo;
    hide Missing;
    NothingMissing(plan, approved);
  }

  /**
   Missing approvals and unhindered runs: exactly one approval per distinct missing name, then the task is
   complete, and the cycle has invoked what its rounds call.
   */
  lemma {:induction false} CycleCompletes(w: World, cfg: Config, id: TaskId, user: string, plan: seq<Step>,
                                          envs: seq<Environment>)
    requires id in w.tasks && Startable(w.tasks[id].state) && !w.tasks[id].state.Verifying?
    requires |envs| == |Missing(plan, ApprovedActions(w, id))| + 1
    requires AllUnhindered(w.tasks[id], cfg, plan, envs)
    ensures var done := Cycle(w, cfg, id, user, envs);
            && id in done.tasks && done.tasks[id].state == Completed
            && InvocationsOf(done.log, id)
               == InvocationsOf(w.log, id) + RoundCalls(cfg, w.tasks[id].timeout, plan, ApprovedActions(w, id), envs)
    decreases |envs|
  {
    hide RunTask;
    hide Unhindered;
    hide AllUnhindered;
    hide ApprovePending;
    hide Missing;
    hide InvocationsOf;
    hide FirstMissing;
    hide CallsTo;
    hide RoundCalls;
    hide Cycle;
    hide ApprovedActions;
    hide Startable;
    var approved := ApprovedActions(w, id);
    FirstUnhindered(w.tasks[id], w.tasks[id].(plan := Some(plan)), cfg, plan, envs);
    if Missing(plan, approved) == {} {
      LastRun(w, cfg, id, user, plan, envs);
    } else {
      RunThenApprove(w, cfg, id, user, envs[0], plan);
      var next := ApprovePending(RunTask(w, cfg, id, envs[0]).world, id, user);
      ExecutingIsStartable();
      FirstUnhindered(w.tasks[id], next.tasks[id], cfg, plan, envs);
      CycleUnfold(w, cfg, id, user, plan, envs, w.tasks[id].timeout, approved);
      CycleCompletes(next, cfg, id, user, plan, envs[1..]);
    }
  }

  lemma ExecutingIsStartable()
    ensures Startable(Executing)
  {
  }

  /** The task waits after every run but the last, so no smaller number of approvals is enough. */
  lemma {:induction false} CycleNeedsEveryApproval(w: World, cfg: Config, id: TaskId, user: string, plan: seq<Step>,
                                                   envs: seq<Environment>)
    requires id in w.tasks && Startable(w.tasks[id].state) && !w.tasks[id].state.Verifying?
    requires 0 < |envs| <= |Missing(plan, ApprovedActions(w, id))|
    requires AllUnhindered(w.tasks[id], cfg, plan, envs)
    ensures var paused := Cycle(w, cfg, id, user, envs);
            id in paused.tasks && paused.tasks[id].state == WaitingForApproval
    decreases |envs|
  {
    hide RunTask;
    hide Unhindered;
    hide AllUnhindered;
    hide ApprovePending;
    hide InvocationsOf;
    hide Missing;
    hide ApprovedActions;
    FirstUnhindered(w.tasks[id], w.tasks[id].(plan := Some(plan)), cfg, plan, envs);
    RunThenApprove(w, cfg, id, user, envs[0], plan);
    if |envs| > 1 {
      var next := ApprovePending(RunTask(w, cfg, id, envs[0]).world, id, user);
      FirstUnhindered(w.tasks[id], next.tasks[id], cfg, plan, envs);
      CycleNeedsEveryApproval(next, cfg, id, user, plan, envs[1..]);
    }
  }
}
