/**
 The tool execution engine of app/tools/executor.py: the permission gate, the limiter's token, up to
 three attempts, and one audit row per admitted call.
 */
module ToolEngine {
  import opened Outcomes
  import opened RateLimit

  datatype RiskLevel = Low | Medium | High

  datatype Permissions = Permissions(risk: RiskLevel, requiresApproval: bool, requiresAuthentication: bool)

  datatype Context = Context(hasAgentRun: bool, authenticated: bool, approved: set<string>)

  /** The exceptions a tool may raise; the first three are retried. */
  datatype Exception = RateLimitError | ModelError | ToolError | OtherError

  /** What one run of a tool does. */
  datatype Reply = Returned(output: string) | Threw(exception: Exception)

  datatype EngineError = UnknownTool | AuthenticationMissing | ApprovalMissing | RateLimitExceeded | ToolFailed

  const MAX_ATTEMPTS := 3

  /** The gate: what stands between the caller and the tool, if anything. */
  function Gate(registry: map<string, Permissions>, tool: string, context: Context): Option<EngineError> {
    if tool !in registry then Some(UnknownTool)
    else if registry[tool].requiresAuthentication && !context.authenticated then Some(AuthenticationMissing)
    else if (registry[tool].requiresApproval || registry[tool].risk == High) && tool !in context.approved
    then Some(ApprovalMissing)
    else None
  }

  /**
   A tool may run: it is registered, the caller is authenticated where that is required, and it is approved
   where that is.
   */
  predicate Permitted(permissions: Option<Permissions>, tool: string, context: Context) {
    && permissions.Some?
    && (permissions.value.requiresAuthentication ==> context.authenticated)
    && (permissions.value.requiresApproval || permissions.value.risk.High? ==> tool in context.approved)
  }

  function Lookup(registry: map<string, Permissions>, tool: string): Option<Permissions> {
    if tool in registry then Some(registry[tool]) else None
  }

  /** The gate lets through exactly what is permitted, and names the first thing that is missing. */
  lemma GateExactly(registry: map<string, Permissions>, tool: string, context: Context)
    ensures var gate := Gate(registry, tool, context);
            && (gate.None? <==> Permitted(Lookup(registry, tool), tool, context))
            && (gate.Some? ==> gate.value in {UnknownTool, AuthenticationMissing, ApprovalMissing})
            && (gate == Some(UnknownTool) <==> tool !in registry)
            && (gate == Some(AuthenticationMissing) <==>
                  tool in registry && registry[tool].requiresAuthentication && !context.authenticated)
            && (gate == Some(ApprovalMissing) <==>
                  && tool in registry && !(registry[tool].requiresAuthentication && !context.authenticated)
                  && (registry[tool].requiresApproval || registry[tool].risk.High?) && tool !in context.approved)
  {
  }

  /** Whether a reply ends the attempts at once. */
  predicate Final(reply: Reply) {
    reply.Returned? || reply.exception.OtherError?
  }

  /** `attempts` runs are made of a tool that answers run k with replies(k). */
  ghost predicate StopsAfter(replies: nat -> Reply, attempts: nat) {
    && 1 <= attempts <= MAX_ATTEMPTS
    && (forall k :: 0 <= k < attempts - 1 ==> !Final(replies(k)))
    && (Final(replies(attempts - 1)) || attempts == MAX_ATTEMPTS)
  }

  lemma StopsAfterIsUnique(replies: nat -> Reply, a: nat, b: nat)
    requires StopsAfter(replies, a) && StopsAfter(replies, b)
    ensures a == b
  {
  }

  /** An error that is tried again. */
  predicate Retryable(reply: Reply) {
    reply.Threw? && (reply.exception.RateLimitError? || reply.exception.ModelError? || reply.exception.ToolError?)
  }

  /**
   One attempt unless the first fails retryably, a second then, and a third, which is the last, if that fails
   so too.
   */
  lemma AttemptsExactly(replies: nat -> Reply, attempts: nat)
    ensures StopsAfter(replies, attempts) <==>
            attempts == if !Retryable(replies(0)) then 1 else if !Retryable(replies(1)) then 2 else 3
  {
    if StopsAfter(replies, attempts) {
      assert attempts > 1 ==> !Final(replies(0));
      assert attempts > 2 ==> !Final(replies(1));
    }
  }

  datatype Status = Running | Success | Failed

  /** An audit row; `output` is kept on success only. */
  datatype ToolCall = ToolCall(tool: string, status: Status, output: string)

  /**
   One call to the engine, as history, with the tool's permissions if it was registered: `attempts` is zero unless
   the call was admissible and a token was taken.
   */
  datatype Entry = Entry(tool: string, at: real, permissions: Option<Permissions>, context: Context, admissible: bool,
                         granted: bool, attempts: nat, audited: bool, reply: Reply)

  /** The limiter sees exactly the calls that pass the gate. */
  function Requests(log: seq<Entry>): seq<Event> {
    if log == [] then []
    else
      var last := log[|log| - 1];
      Requests(log[..|log| - 1]) + (if last.admissible then [Acquire(last.tool, last.at)] else [])
  }

  function AuditRows(log: seq<Entry>): seq<ToolCall> {
    if log == [] then []
    else
      var last := log[|log| - 1];
      AuditRows(log[..|log| - 1]) + (if last.granted && last.audited then [RowFor(last)] else [])
  }

  function RowFor(e: Entry): ToolCall {
    match e.reply
    case Returned(output) => ToolCall(e.tool, Success, output)
    case Threw(_) => ToolCall(e.tool, Failed, "")
  }

  ghost predicate EntryInOrder(rpm: int, log: seq<Entry>, n: nat)
    requires n < |log|
  {
    var e := log[n];
    && (e.admissible <==> Permitted(e.permissions, e.tool, e.context))
    && (e.granted <==> e.admissible && AnswerNow(rpm, Requests(log[..n]), e.tool, e.at))
    && (if e.granted then 1 <= e.attempts <= MAX_ATTEMPTS else e.attempts == 0)
  }

  /** A log the engine can have produced. */
  ghost predicate InOrder(rpm: int, log: seq<Entry>) {
    && (forall i, j :: 0 <= i <= j < |log| ==> log[i].at <= log[j].at)
    && (forall n :: 0 <= n < |log| ==> EntryInOrder(rpm, log, n))
  }

  /** One more call in order keeps the log in order, and adds its own request and row. */
  lemma LogSnoc(rpm: int, log: seq<Entry>, e: Entry)
    requires InOrder(rpm, log) && (forall i :: 0 <= i < |log| ==> log[i].at <= e.at)
    requires e.admissible <==> Permitted(e.permissions, e.tool, e.context)
    requires e.granted <==> e.admissible && AnswerNow(rpm, Requests(log), e.tool, e.at)
    requires if e.granted then 1 <= e.attempts <= MAX_ATTEMPTS else e.attempts == 0
    ensures InOrder(rpm, log + [e])
    ensures Requests(log + [e]) == Requests(log) + if e.admissible then [Acquire(e.tool, e.at)] else []
    ensures AuditRows(log + [e]) == AuditRows(log) + if e.granted && e.audited then [RowFor(e)] else []
  {
    hide AnswerNow;
    hide RowFor;
    hide Permitted;
    var longer := log + [e];
    assert longer[..|log|] == log;
    forall n | 0 <= n < |longer|
      ensures EntryInOrder(rpm, longer, n)
    {
      if n < |log| {
        assert EntryInOrder(rpm, log, n);
        assert longer[..n] == log[..n];
      }
    }
  }

  /* ---- When a tool can run ---- */

  /**
   Over every engine log: a tool ran only when it was registered, authenticated and approved as it requires,
   and a token was taken.
   */
  lemma AttemptsArePermitted(rpm: int, log: seq<Entry>, n: nat)
    requires InOrder(rpm, log) && n < |log| && log[n].attempts > 0
    ensures var e := log[n];
            && e.granted && AnswerNow(rpm, Requests(log[..n]), e.tool, e.at) && e.permissions.Some?
            && (e.permissions.value.requiresAuthentication ==> e.context.authenticated)
            && (e.permissions.value.requiresApproval ==> e.tool in e.context.approved)
            && (e.permissions.value.risk == High ==> e.tool in e.context.approved)
  {
    hide AnswerNow;
    assert EntryInOrder(rpm, log, n);
  }

  /* ---- How often a tool can run ---- */

  function AttemptsOn(log: seq<Entry>, tool: string, lo: nat, hi: nat): nat
    requires hi <= |log|
  {
    if hi <= lo then 0
    else AttemptsOn(log, tool, lo, hi - 1) + (if log[hi - 1].tool == tool then log[hi - 1].attempts else 0)
  }

  /** The times of a tool's calls that passed the gate. */
  function Passed(log: seq<Entry>, tool: string): seq<real> {
    if log == [] then []
    else
      var last := log[|log| - 1];
      Passed(log[..|log| - 1], tool) + (if last.admissible && last.tool == tool then [last.at] else [])
  }

  lemma {:induction false} PassedAreTheCalls(log: seq<Entry>, tool: string)
    ensures Passed(log, tool) == CallsSinceReset(Requests(log), tool)
  {
    if log != [] {
      var earlier, last := Requests(log[..|log| - 1]), log[|log| - 1];
      PassedAreTheCalls(log[..|log| - 1], tool);
      if last.admissible {
        assert Requests(log) == earlier + [Acquire(last.tool, last.at)];
        assert Requests(log)[..|earlier|] == earlier;
      } else {
        assert Requests(log) == earlier;
      }
    }
  }

  /** Between two points of the log the passed calls happened between the times of the log. */
  lemma {:induction false} PassedBetween(log: seq<Entry>, tool: string, lo: nat, hi: nat, k: nat)
    requires lo < hi <= |log|
    requires forall i, j :: 0 <= i <= j < |log| ==> log[i].at <= log[j].at
    requires |Passed(log[..lo], tool)| <= k < |Passed(log[..hi], tool)|
    ensures log[lo].at <= Passed(log[..hi], tool)[k] <= log[hi - 1].at
  {
    assert log[..hi][..hi - 1] == log[..hi - 1];
    if k < |Passed(log[..hi - 1], tool)| {
      PassedBetween(log, tool, lo, hi - 1, k);
    }
  }

  /** Each attempt is paid for: three per grant at most. */
  lemma {:induction false} AttemptsWithinGrants(rpm: int, log: seq<Entry>, tool: string, lo: nat, hi: nat)
    requires InOrder(rpm, log) && lo <= hi <= |log|
    ensures var from, to := |Passed(log[..lo], tool)|, |Passed(log[..hi], tool)|;
            var answers := WindowAnswers(rpm, Passed(log[..hi], tool));
            from <= to && AttemptsOn(log, tool, lo, hi) <= MAX_ATTEMPTS * Grants(answers, from, to)
  {
    hide WindowAnswers;
    hide AnswerNow;
    if lo < hi {
      var n := hi - 1;
      var before := Passed(log[..n], tool);
      AttemptsWithinGrants(rpm, log, tool, lo, n);
      assert log[..hi][..n] == log[..n];
      assert EntryInOrder(rpm, log, n);
      if log[n].admissible && log[n].tool == tool {
        EntryAnswer(rpm, log, n);
        GrantsOneMore(rpm, before, log[n].at, |Passed(log[..lo], tool)|);
      } else {
        assert Passed(log[..hi], tool) == before;
      }
    }
  }

  /** The limiter's answer to an entry, over the passed calls of its tool. */
  lemma EntryAnswer(rpm: int, log: seq<Entry>, n: nat)
    requires n < |log|
    ensures var before := Passed(log[..n], log[n].tool);
            AnswerNow(rpm, Requests(log[..n]), log[n].tool, log[n].at)
            == WindowAnswers(rpm, before + [log[n].at])[|before|]
  {
    hide WindowAnswers;
    PassedAreTheCalls(log[..n], log[n].tool);
  }

  lemma GrantsOneMore(rpm: int, times: seq<real>, now: real, from: nat)
    requires from <= |times|
    ensures Grants(WindowAnswers(rpm, times + [now]), from, |times| + 1)
            == Grants(WindowAnswers(rpm, times), from, |times|)
               + if WindowAnswers(rpm, times + [now])[|times|] then 1 else 0
  {
    hide WindowAnswers;
    AppendedAnswer(rpm, times, now);
    GrantsAgree(WindowAnswers(rpm, times + [now]), WindowAnswers(rpm, times), from, |times|);
  }

  /** Calls made within `span` seconds run a tool at most three times per token the window allows. */
  lemma AttemptsInWindow(rpm: int, log: seq<Entry>, tool: string, lo: nat, hi: nat, span: real)
    requires rpm >= 1 && InOrder(rpm, log) && lo < hi <= |log|
    requires log[hi - 1].at - log[lo].at <= span
    ensures AttemptsOn(log, tool, lo, hi) as real <= MAX_ATTEMPTS as real * Allowance(rpm, span)
  {
    hide WindowAnswers;
    var times := Passed(log[..hi], tool);
    var from, to := |Passed(log[..lo], tool)|, |times|;
    AttemptsWithinGrants(rpm, log, tool, lo, hi);
    AllowanceMonotone(rpm, 0.0, span);
    if from < to {
      PassedInOrder(log, tool, hi);
      PassedBetween(log, tool, lo, hi, from);
      PassedBetween(log, tool, lo, hi, to - 1);
      GrantsInWindow(rpm, times, from, to - 1);
      AllowanceMonotone(rpm, times[to - 1] - times[from], span);
    }
  }

  lemma {:induction false} PassedInOrder(log: seq<Entry>, tool: string, hi: nat)
    requires hi <= |log|
    requires forall i, j :: 0 <= i <= j < |log| ==> log[i].at <= log[j].at
    ensures Monotone(Passed(log[..hi], tool))
  {
    if hi > 0 {
      PassedInOrder(log, tool, hi - 1);
      assert log[..hi][..hi - 1] == log[..hi - 1];
      var before := Passed(log[..hi - 1], tool);
      forall k | 0 <= k < |before|
        ensures before[k] <= log[hi - 1].at
      {
        assert log[..0] == [];
        PassedBetween(log, tool, 0, hi - 1, k);
      }
    }
  }

  /* ---- The engine ---- */

  class Engine {
    const limiter: RateLimiter
    const hasSession: bool
    var registry: map<string, Permissions>
    var rows: seq<ToolCall>
    ghost var log: seq<Entry>
    ghost var clock: real

    ghost predicate Valid()
      reads this, limiter
    {
      && limiter.Valid() && limiter.clock <= clock
      && limiter.history == Requests(log)
      && rows == AuditRows(log)
      && InOrder(limiter.rpm, log)
      && (forall i :: 0 <= i < |log| ==> log[i].at <= clock)
    }

    constructor (registry: map<string, Permissions>, hasSession: bool, limiter: RateLimiter)
      requires limiter.Valid() && limiter.history == []
      ensures Valid() && log == [] && this.registry == registry && this.hasSession == hasSession
      ensures this.limiter == limiter && clock == limiter.clock
    {
      this.registry, this.hasSession, this.limiter := registry, hasSession, limiter;
      rows, log, clock := [], [], limiter.clock;
    }

    /** Up to three runs of the tool; the last reply decides. */
    method ExecuteWithRetry(replies: nat -> Reply) returns (reply: Reply, ghost attempts: nat)
      ensures 1 <= attempts <= MAX_ATTEMPTS && StopsAfter(replies, attempts) && reply == replies(attempts - 1)
    {
      var k := 1;
      reply := replies(0);
      while !Final(reply) && k < MAX_ATTEMPTS
        invariant 1 <= k <= MAX_ATTEMPTS && reply == replies(k - 1)
        invariant forall m :: 0 <= m < k - 1 ==> !Final(replies(m))
      {
        reply := replies(k);
        k := k + 1;
      }
      attempts := k;
    }

    /** A running row, the attempts, and the row finished by the last reply. */
    method RunAudited(tool: string, audited: bool, replies: nat -> Reply) returns (reply: Reply, ghost attempts: nat)
      modifies this`rows
      ensures 1 <= attempts <= MAX_ATTEMPTS && StopsAfter(replies, attempts) && reply == replies(attempts - 1)
      ensures rows == old(rows)
                      + if !audited then []
                        else if reply.Returned? then [ToolCall(tool, Success, reply.output)]
                        else [ToolCall(tool, Failed, "")]
    {
      hide StopsAfter;
      var row := |rows|;
      if audited {
        rows := rows + [ToolCall(tool, Running, "")];
      }
      reply, attempts := ExecuteWithRetry(replies);
      if audited {
        rows := rows[row := match reply
                            case Returned(output) => rows[row].(status := Success, output := output)
                            case Threw(_) => rows[row].(status := Failed)];
      }
    }

    /** Gate, token, and the audited attempts. */
    method Execute(tool: string, context: Context, now: real, replies: nat -> Reply)
      returns (r: Result<string, EngineError>)
      requires Valid() && clock <= now
      modifies this`rows, this`log, this`clock, limiter
      ensures Valid() && |log| == |old(log)| + 1 && log[..|old(log)|] == old(log) && clock == now
      ensures var e := log[|old(log)|];
              && e.tool == tool && e.at == now && e.permissions == Lookup(registry, tool) && e.context == context
              && e.audited == (hasSession && context.hasAgentRun)
              && (e.granted ==> StopsAfter(replies, e.attempts) && e.reply == replies(e.attempts - 1))
              && (r == Raised(UnknownTool) <==> tool !in registry)
              && (r == Raised(AuthenticationMissing) <==>
                    tool in registry && registry[tool].requiresAuthentication && !context.authenticated)
              && (r == Raised(ApprovalMissing) <==>
                    && tool in registry && !(registry[tool].requiresAuthentication && !context.authenticated)
                    && (registry[tool].requiresApproval || registry[tool].risk == High)
                    && tool !in context.approved)
              && (r == Raised(RateLimitExceeded) <==> e.admissible && !e.granted)
              && (r == Raised(ToolFailed) <==> e.granted && e.reply.Threw?)
              && (r.Ok? <==> e.granted && e.reply.Returned?) && (r.Ok? ==> r.value == e.reply.output)
              && rows == old(rows)
                         + if !(e.granted && e.audited) then []
                           else if r.Ok? then [ToolCall(tool, Success, r.value)]
                           else [ToolCall(tool, Failed, "")]
      ensures r in {Raised(UnknownTool), Raised(AuthenticationMissing), Raised(ApprovalMissing)} ==>
                limiter.tokens == old(limiter.tokens) && limiter.history == old(limiter.history)
    {
      hide AnswerNow;
      hide Gate;
      hide InOrder;
      hide Requests;
      hide AuditRows;
      hide InStep;
      hide Permitted;
      hide StopsAfter;
      hide Lookup;
      GateExactly(registry, tool, context);
      var gate := Gate(registry, tool, context);
      var audited := hasSession && context.hasAgentRun;
      ghost var permissions := Lookup(registry, tool);
      clock := now;
      if gate.Some? {
        Record(Entry(tool, now, permissions, context, false, false, 0, audited, Threw(OtherError)));
        return Raised(gate.value);
      }
      var granted := limiter.Acquire(tool, now);
      if !granted {
        Record(Entry(tool, now, permissions, context, true, false, 0, audited, Threw(OtherError)));
        return Raised(RateLimitExceeded);
      }
      ghost var attempts: nat;
      var reply: Reply;
      reply, attempts := RunAudited(tool, audited, replies);
      Record(Entry(tool, now, permissions, context, true, true, attempts, audited, reply));
      r := if reply.Returned? then Ok(reply.output) else Raised(ToolFailed);
    }

    /** Appends to the history what the call has already done. */
    ghost method Record(e: Entry)
      requires limiter.Valid() && limiter.clock <= clock == e.at
      requires InOrder(limiter.rpm, log) && (forall i :: 0 <= i < |log| ==> log[i].at <= e.at)
      requires limiter.history == Requests(log) + if e.admissible then [Acquire(e.tool, e.at)] else []
      requires rows == AuditRows(log) + if e.granted && e.audited then [RowFor(e)] else []
      requires e.admissible <==> Permitted(e.permissions, e.tool, e.context)
      requires e.granted <==> e.admissible && AnswerNow(limiter.rpm, Requests(log), e.tool, e.at)
      requires if e.granted then 1 <= e.attempts <= MAX_ATTEMPTS else e.attempts == 0
      modifies this`log
      ensures Valid() && log == old(log) + [e]
    {
      hide InStep;
      hide InOrder;
      hide Requests;
      hide AuditRows;
      hide AnswerNow;
      hide RowFor;
      hide Permitted;
      LogSnoc(limiter.rpm, log, e);
      log := log + [e];
    }
  }
}
