/**
 Idempotent publishing: `XPublishTool.execute` and `LinkedInPublishTool.execute` of
 app/tools/builtin/social_publish.py over the table of app/db/models/social_post.py, whose
 idempotency key is unique.

 Executions interleave at every point where the original awaits.  Each runs in its own
 transaction: its row is visible to look-ups only after the commit, but its key blocks every
 other insert from the flush on.
 */
module Publish {
  import Drafts
  import opened Outcomes

  type Platform = Drafts.Platform

  datatype Status = Pending | Succeeded | Failed

  /** A row of the posts table; its id is its position, `owner` the execution that inserted it. */
  datatype Post = Post(platform: Platform, key: string, draft: nat, content: string,
                       status: Status, externalId: string, owner: nat, committed: bool)

  datatype Attempt = Attempt(post: nat, status: Status)

  /** What the adapter answers to a publish call. */
  datatype Answer = Accepted(externalId: string) | Refused

  datatype Failure = AuthenticationMissing | DraftNotFound | KeyTaken | PublishRefused

  datatype Input = Input(platform: Platform, key: string, draft: nat, credentialed: bool)

  /** Where an execution stands: each phase ends at an await of the original. */
  datatype Phase =
    | Starting
    | Unseen                              // no succeeded post with this key was found
    | Loaded(content: string)             // the draft is loaded
    | Inserted(post: nat)                 // the pending row is flushed
    | Answered(post: nat, answer: Answer) // the adapter was called
    | Finished(outcome: Result<string, Failure>)

  datatype Execution = Execution(input: Input, phase: Phase)

  datatype Call = Call(platform: Platform, key: string, content: string)

  datatype System = System(drafts: map<nat, string>, posts: seq<Post>, attempts: seq<Attempt>,
                           calls: seq<Call>, executions: seq<Execution>)

  datatype Action = Begin(input: Input) | Advance(execution: nat, answer: Answer)

  /** Position of the first row at or after `from` that holds the key. */
  function RowWith(posts: seq<Post>, key: string, from: nat): (row: Option<nat>)
    requires from <= |posts|
    ensures row.Some? ==> from <= row.value < |posts| && posts[row.value].key == key
    ensures row.None? ==> forall p :: from <= p < |posts| ==> posts[p].key != key
    decreases |posts| - from
  {
    if from == |posts| then None
    else if posts[from].key == key then Some(from)
    else RowWith(posts, key, from + 1)
  }

  /** The look-up: a committed, succeeded row with the key. */
  function FindDuplicate(posts: seq<Post>, key: string): Option<Post> {
    match RowWith(posts, key, 0)
    case Some(p) => if posts[p].committed && posts[p].status.Succeeded? then Some(posts[p]) else None
    case None => None
  }

  function Settled(post: Post, answer: Answer): Post {
    match answer
    case Accepted(id) => post.(status := Succeeded, externalId := id, committed := true)
    case Refused => post.(status := Failed, committed := true)
  }

  function OutcomeOf(answer: Answer): Result<string, Failure> {
    match answer
    case Accepted(id) => Ok(id)
    case Refused => Raised(PublishRefused)
  }

  /** One execution runs to its next await. */
  function Advanced(s: System, i: nat, answer: Answer): System
    requires i < |s.executions|
    requires InFlight(s.executions[i]) ==> s.executions[i].phase.post < |s.posts|
  {
    var e := s.executions[i];
    var input := e.input;
    match e.phase
    case Starting =>
      if !input.credentialed then At(s, i, Finished(Raised(AuthenticationMissing)))
      else
        (match FindDuplicate(s.posts, input.key)
         case Some(post) => At(s, i, Finished(Ok(post.externalId)))
         case None => At(s, i, Unseen))
    case Unseen =>
      if input.draft in s.drafts then At(s, i, Loaded(s.drafts[input.draft]))
      else At(s, i, Finished(Raised(DraftNotFound)))
    case Loaded(content) =>
      if RowWith(s.posts, input.key, 0).Some? then At(s, i, Finished(Raised(KeyTaken)))
      else
        var row := Post(input.platform, input.key, input.draft, content, Pending, "", i, false);
        At(s.(posts := s.posts + [row]), i, Inserted(|s.posts|))
    case Inserted(p) =>
      At(s.(calls := s.calls + [Call(input.platform, input.key, s.posts[p].content)]), i, Answered(p, answer))
    case Answered(p, a) =>
      var row := Settled(s.posts[p], a);
      At(s.(posts := s.posts[p := row], attempts := s.attempts + [Attempt(p, row.status)]), i, Finished(OutcomeOf(a)))
    case Finished(_) => s
  }

  function At(s: System, i: nat, phase: Phase): System
    requires i < |s.executions|
  {
    s.(executions := s.executions[i := s.executions[i].(phase := phase)])
  }

  function Act(s: System, a: Action): System
    requires Inv(s)
  {
    match a
    case Begin(input) => s.(executions := s.executions + [Execution(input, Starting)])
    case Advance(i, answer) =>
      if i < |s.executions| then assert OwnsItsRow(s, i); Advanced(s, i, answer) else s
  }

  function CallsFor(calls: seq<Call>, key: string): nat {
    if calls == [] then 0
    else CallsFor(calls[..|calls| - 1], key) + (if calls[|calls| - 1].key == key then 1 else 0)
  }

  /** The statuses of the attempts recorded for a post. */
  function AttemptsOf(attempts: seq<Attempt>, post: nat): seq<Status> {
    if attempts == [] then []
    else
      var last := attempts[|attempts| - 1];
      AttemptsOf(attempts[..|attempts| - 1], post) + (if last.post == post then [last.status] else [])
  }

  /* ---- The invariant of every interleaving ---- */

  /** An execution between insert and commit. */
  predicate InFlight(e: Execution) {
    e.phase.Inserted? || e.phase.Answered?
  }

  ghost predicate KeysUnique(posts: seq<Post>) {
    forall p, q :: 0 <= p < q < |posts| ==> posts[p].key != posts[q].key
  }

  ghost predicate KeyFree(posts: seq<Post>, key: string) {
    forall p :: 0 <= p < |posts| ==> posts[p].key != key
  }

  /** An execution in flight owns an uncommitted pending row with its key. */
  ghost predicate OwnsItsRow(s: System, i: nat)
    requires i < |s.executions|
  {
    var e := s.executions[i];
    InFlight(e) ==>
      && e.phase.post < |s.posts|
      && s.posts[e.phase.post].owner == i && s.posts[e.phase.post].key == e.input.key
      && !s.posts[e.phase.post].committed
  }

  /** A row, its owner, its attempts and the calls made for its key agree. */
  ghost predicate RowInStep(s: System, p: nat)
    requires p < |s.posts|
  {
    var row := s.posts[p];
    && row.owner < |s.executions|
    && var e := s.executions[row.owner];
    && row.key == e.input.key && row.platform == e.input.platform
    && (row.committed ==>
          && !row.status.Pending? && AttemptsOf(s.attempts, p) == [row.status]
          && CallsFor(s.calls, row.key) == 1 && e.phase.Finished?)
    && (!row.committed ==>
          && row.status.Pending? && AttemptsOf(s.attempts, p) == []
          && InFlight(e) && e.phase.post == p
          && CallsFor(s.calls, row.key) == if e.phase.Inserted? then 0 else 1)
  }

  ghost predicate Inv(s: System) {
    && KeysUnique(s.posts)
    && (forall i :: 0 <= i < |s.executions| ==> OwnsItsRow(s, i))
    && (forall p :: 0 <= p < |s.posts| ==> RowInStep(s, p))
    && (forall key :: KeyFree(s.posts, key) ==> CallsFor(s.calls, key) == 0)
    && (forall p :: p >= |s.posts| ==> AttemptsOf(s.attempts, p) == [])
  }

  lemma CallAdded(calls: seq<Call>, call: Call, key: string)
    ensures CallsFor(calls + [call], key) == CallsFor(calls, key) + if call.key == key then 1 else 0
  {
    assert (calls + [call])[..|calls|] == calls;
  }

  lemma AttemptAdded(attempts: seq<Attempt>, attempt: Attempt, post: nat)
    ensures AttemptsOf(attempts + [attempt], post)
            == AttemptsOf(attempts, post) + if attempt.post == post then [attempt.status] else []
  {
    assert (attempts + [attempt])[..|attempts|] == attempts;
  }

  lemma BeginKeepsInv(s: System, input: Input)
    requires Inv(s)
    ensures Inv(Act(s, Begin(input)))
  {
    var t := Act(s, Begin(input));
    forall i | 0 <= i < |t.executions|
      ensures OwnsItsRow(t, i)
    {
      if i < |s.executions| {
        assert OwnsItsRow(s, i);
      }
    }
    forall p | 0 <= p < |t.posts|
      ensures RowInStep(t, p)
    {
      assert RowInStep(s, p);
    }
  }

  /** Steps that touch neither rows nor calls and do not put an execution in flight. */
  lemma PhaseKeepsInv(s: System, i: nat, phase: Phase)
    requires Inv(s) && i < |s.executions|
    requires !InFlight(s.executions[i]) && !phase.Inserted? && !phase.Answered?
    requires s.executions[i].phase.Finished? ==> phase.Finished?
    ensures Inv(At(s, i, phase))
  {
    var t := At(s, i, phase);
    forall j | 0 <= j < |t.executions|
      ensures OwnsItsRow(t, j)
    {
      assert OwnsItsRow(s, j);
    }
    forall p | 0 <= p < |t.posts|
      ensures RowInStep(t, p)
    {
      assert RowInStep(s, p);
    }
  }

  lemma InsertKeepsInv(s: System, i: nat, answer: Answer)
    requires Inv(s) && i < |s.executions|
    requires s.executions[i].phase.Loaded? && RowWith(s.posts, s.executions[i].input.key, 0).None?
    ensures Inv(Advanced(s, i, answer))
  {
    var t := Advanced(s, i, answer);
    forall j | 0 <= j < |t.executions|
      ensures OwnsItsRow(t, j)
    {
      assert OwnsItsRow(s, j);
    }
    forall p | 0 <= p < |t.posts|
      ensures RowInStep(t, p)
    {
      if p < |s.posts| {
        assert RowInStep(s, p);
      }
    }
    forall key | KeyFree(t.posts, key)
      ensures CallsFor(t.calls, key) == 0
    {
      assert forall p :: 0 <= p < |s.posts| ==> s.posts[p] == t.posts[p];
      assert KeyFree(s.posts, key);
    }
    assert KeyFree(s.posts, s.executions[i].input.key);
  }

  lemma CallKeepsInv(s: System, i: nat, answer: Answer)
    requires Inv(s) && i < |s.executions| && s.executions[i].phase.Inserted?
    requires s.executions[i].phase.post < |s.posts|
    ensures Inv(Advanced(s, i, answer))
  {
    var t := Advanced(s, i, answer);
    var mine := s.executions[i].phase.post;
    var call := t.calls[|s.calls|];
    assert OwnsItsRow(s, i);
    assert RowInStep(s, mine);
    forall j | 0 <= j < |t.executions|
      ensures OwnsItsRow(t, j)
    {
      assert OwnsItsRow(s, j);
    }
    forall p | 0 <= p < |t.posts|
      ensures RowInStep(t, p)
    {
      assert RowInStep(s, p);
      CallAdded(s.calls, call, s.posts[p].key);
      if p != mine {
        assert s.posts[p].key != s.posts[mine].key;
      }
    }
    forall key | KeyFree(t.posts, key)
      ensures CallsFor(t.calls, key) == 0
    {
      CallAdded(s.calls, call, key);
    }
  }

  lemma CommitKeepsInv(s: System, i: nat, answer: Answer)
    requires Inv(s) && i < |s.executions| && s.executions[i].phase.Answered?
    requires s.executions[i].phase.post < |s.posts|
    ensures Inv(Advanced(s, i, answer))
  {
    var t := Advanced(s, i, answer);
    var mine := s.executions[i].phase.post;
    var attempt := t.attempts[|s.attempts|];
    assert OwnsItsRow(s, i);
    assert RowInStep(s, mine);
    assert forall p :: 0 <= p < |s.posts| ==> t.posts[p].key == s.posts[p].key;
    forall j | 0 <= j < |t.executions|
      ensures OwnsItsRow(t, j)
    {
      assert OwnsItsRow(s, j);
    }
    forall p | 0 <= p < |t.posts|
      ensures RowInStep(t, p)
    {
      assert RowInStep(s, p);
      AttemptAdded(s.attempts, attempt, p);
    }
    forall key | KeyFree(t.posts, key)
      ensures CallsFor(t.calls, key) == 0
    {
      assert KeyFree(s.posts, key);
    }
    forall p | p >= |t.posts|
      ensures AttemptsOf(t.attempts, p) == []
    {
      AttemptAdded(s.attempts, attempt, p);
    }
  }

  lemma ActKeepsInv(s: System, a: Action)
    requires Inv(s)
    ensures Inv(Act(s, a))
  {
    match a
    case Begin(input) => BeginKeepsInv(s, input);
    case Advance(i, answer) =>
      if i < |s.executions| {
        assert OwnsItsRow(s, i);
        match s.executions[i].phase {
          case Starting =>
            PhaseKeepsInv(s, i, Advanced(s, i, answer).executions[i].phase);
          case Unseen =>
            PhaseKeepsInv(s, i, Advanced(s, i, answer).executions[i].phase);
          case Loaded(_) =>
            if RowWith(s.posts, s.executions[i].input.key, 0).None? {
              InsertKeepsInv(s, i, answer);
            } else {
              PhaseKeepsInv(s, i, Finished(Raised(KeyTaken)));
            }
          case Inserted(_) => CallKeepsInv(s, i, answer);
          case Answered(_, _) => CommitKeepsInv(s, i, answer);
          case Finished(_) =>
        }
      }
  }

  /* ---- Whole runs ---- */

  /** Any interleaving: a sequence of starts and steps of whichever execution comes next. */
  function Run(s: System, actions: seq<Action>): (t: System)
    requires Inv(s)
    ensures Inv(t)
    decreases |actions|
  {
    if actions == [] then s
    else ActKeepsInv(s, actions[0]); Run(Act(s, actions[0]), actions[1..])
  }

  function Empty(drafts: map<nat, string>): System {
    System(drafts, [], [], [], [])
  }

  /**
   In every interleaving the adapter is called at most once per key, and at most one execution per key is in
   flight.
   */
  lemma AtMostOnePublishPerKey(drafts: map<nat, string>, actions: seq<Action>, key: string)
    ensures Inv(Empty(drafts))
    ensures var t := Run(Empty(drafts), actions);
            && CallsFor(t.calls, key) <= 1
            && forall i, j :: 0 <= i < j < |t.executions| && InFlight(t.executions[i]) && InFlight(t.executions[j]) ==>
                 t.executions[i].input.key != t.executions[j].input.key
  {
    var t := Run(Empty(drafts), actions);
    if !KeyFree(t.posts, key) {
      var p :| 0 <= p < |t.posts| && t.posts[p].key == key;
      assert RowInStep(t, p);
    }
    forall i, j | 0 <= i < j < |t.executions| && InFlight(t.executions[i]) && InFlight(t.executions[j])
      ensures t.executions[i].input.key != t.executions[j].input.key
    {
      assert OwnsItsRow(t, i) && OwnsItsRow(t, j);
    }
  }

  /**
   Rows and audit stay in step: a row is pending only while its execution is in flight, and otherwise has one
   attempt with its status.
   */
  lemma RowsMatchAudit(drafts: map<nat, string>, actions: seq<Action>, p: nat)
    requires Inv(Empty(drafts)) && p < |Run(Empty(drafts), actions).posts|
    ensures var t := Run(Empty(drafts), actions);
            var row := t.posts[p];
            row.owner < |t.executions| &&
            if t.executions[row.owner].phase.Finished? then
              !row.status.Pending? && AttemptsOf(t.attempts, p) == [row.status] && CallsFor(t.calls, row.key) == 1
            else
              row.status.Pending? && AttemptsOf(t.attempts, p) == [] && InFlight(t.executions[row.owner])
  {
    assert RowInStep(Run(Empty(drafts), actions), p);
  }

  /* ---- What a successful outcome means ---- */

  /** Every call was made for a row: with its key, its platform and its content. */
  ghost predicate CallHasRow(s: System, c: nat)
    requires c < |s.calls|
  {
    exists p :: 0 <= p < |s.posts| && s.posts[p].key == s.calls[c].key
                && s.posts[p].platform == s.calls[c].platform && s.posts[p].content == s.calls[c].content
  }

  /** The row whose id an execution returns: it has the key, and is committed as succeeded with that id. */
  ghost predicate Backs(s: System, p: nat, key: string, id: string) {
    && p < |s.posts| && s.posts[p].key == key && s.posts[p].committed
    && s.posts[p].status.Succeeded? && s.posts[p].externalId == id
  }

  ghost predicate SuccessHasRow(s: System, i: nat)
    requires i < |s.executions|
  {
    var e := s.executions[i];
    e.phase.Finished? && e.phase.outcome.Ok? ==> exists p :: Backs(s, p, e.input.key, e.phase.outcome.value)
  }

  ghost predicate Honest(s: System) {
    && Inv(s)
    && (forall c :: 0 <= c < |s.calls| ==> CallHasRow(s, c))
    && (forall i :: 0 <= i < |s.executions| ==> SuccessHasRow(s, i))
  }

  /** Rows keep key, platform, draft and content, and a committed row does not change; drafts never do. */
  ghost predicate RowsKept(s: System, t: System) {
    && |s.posts| <= |t.posts| && t.drafts == s.drafts
    && forall p :: 0 <= p < |s.posts| ==>
         && t.posts[p].key == s.posts[p].key && t.posts[p].platform == s.posts[p].platform
         && t.posts[p].draft == s.posts[p].draft && t.posts[p].content == s.posts[p].content
         && (s.posts[p].committed ==> t.posts[p] == s.posts[p])
  }

  lemma ActKeepsRows(s: System, a: Action)
    requires Inv(s)
    ensures RowsKept(s, Act(s, a))
  {
    hide Inv;
    hide RowWith;
    hide FindDuplicate;
    OwnsEach(s);
    if a.Advance? && a.execution < |s.executions| {
      assert OwnsItsRow(s, a.execution);
    }
  }

  lemma ActKeepsCalls(s: System, a: Action)
    requires Honest(s)
    ensures forall c :: 0 <= c < |Act(s, a).calls| ==> CallHasRow(Act(s, a), c)
  {
    hide Inv;
    hide Settled;
    ActKeepsRows(s, a);
    OwnsEach(s);
    var t := Act(s, a);
    forall c | 0 <= c < |t.calls|
      ensures CallHasRow(t, c)
    {
      if c < |s.calls| {
        assert CallHasRow(s, c);
        var p :| 0 <= p < |s.posts| && s.posts[p].key == s.calls[c].key
                 && s.posts[p].platform == s.calls[c].platform && s.posts[p].content == s.calls[c].content;
        assert t.calls[c] == s.calls[c] && t.posts[p].key == s.calls[c].key;
      } else {
        var e := s.executions[a.execution];
        OwnRow(s, a.execution);
        assert t.posts == s.posts && t.calls[c] == Call(e.input.platform, e.input.key, s.posts[e.phase.post].content);
      }
    }
  }

  lemma OwnRow(s: System, i: nat)
    requires Inv(s) && i < |s.executions| && InFlight(s.executions[i])
    ensures var e := s.executions[i];
            && e.phase.post < |s.posts| && s.posts[e.phase.post].key == e.input.key
            && s.posts[e.phase.post].platform == e.input.platform
  {
    assert OwnsItsRow(s, i) && RowInStep(s, s.executions[i].phase.post);
  }

  lemma ActKeepsSuccesses(s: System, a: Action)
    requires Honest(s)
    ensures forall i :: 0 <= i < |Act(s, a).executions| ==> SuccessHasRow(Act(s, a), i)
  {
    hide Inv;
    hide OwnsItsRow;
    hide RowWith;
    hide FindDuplicate;
    hide Settled;
    ActKeepsRows(s, a);
    var t := Act(s, a);
    forall i | 0 <= i < |t.executions|
      ensures SuccessHasRow(t, i)
    {
      if i < |s.executions| && t.executions[i] == s.executions[i] {
        assert SuccessHasRow(s, i);
        if s.executions[i].phase.Finished? && s.executions[i].phase.outcome.Ok? {
          var e := s.executions[i];
          var p :| Backs(s, p, e.input.key, e.phase.outcome.value);
          assert Backs(t, p, e.input.key, e.phase.outcome.value);
        }
      } else if a.Advance? {
        NewSuccess(s, i, a.answer);
      }
    }
  }

  /** An execution comes to succeed by finding a row or by committing its own. */
  lemma NewSuccess(s: System, i: nat, answer: Answer)
    requires Inv(s) && i < |s.executions| && !s.executions[i].phase.Finished?
    ensures SuccessHasRow(Act(s, Advance(i, answer)), i)
  {
    var e, t := s.executions[i], Act(s, Advance(i, answer));
    assert OwnsItsRow(s, i);
    match e.phase {
      case Starting =>
        var p := RowWith(s.posts, e.input.key, 0);
        if p.Some? && t.executions[i].phase.Finished? && t.executions[i].phase.outcome.Ok? {
          assert Backs(t, p.value, e.input.key, t.executions[i].phase.outcome.value);
        }
      case Answered(p, reply) =>
        if reply.Accepted? {
          assert Backs(t, p, e.input.key, reply.externalId);
        }
      case _ =>
    }
  }

  lemma {:induction false} StaysHonest(s: System, actions: seq<Action>)
    requires Honest(s)
    ensures Honest(Run(s, actions))
    decreases |actions|
  {
    hide Inv;
    hide CallHasRow;
    hide SuccessHasRow;
    if actions != [] {
      ActKeepsInv(s, actions[0]);
      ActKeepsCalls(s, actions[0]);
      ActKeepsSuccesses(s, actions[0]);
      StaysHonest(Act(s, actions[0]), actions[1..]);
    }
  }

  /** A call was made for the key on the platform. */
  ghost predicate SentOn(calls: seq<Call>, key: string, platform: Platform) {
    exists c :: 0 <= c < |calls| && calls[c].key == key && calls[c].platform == platform
  }

  lemma {:induction false} CalledOnce(calls: seq<Call>, key: string)
    requires CallsFor(calls, key) > 0
    ensures exists c :: 0 <= c < |calls| && calls[c].key == key
  {
    var n := |calls| - 1;
    if calls[n].key != key {
      CalledOnce(calls[..n], key);
      var c :| 0 <= c < n && calls[..n][c].key == key;
      assert calls[c].key == key;
    }
  }

  /**
   In every interleaving: an execution that returns an id returns that of the one committed, succeeded row under its
   key, for which the adapter was called exactly once; and the key was sent on the execution's own platform exactly
   when that row is of its platform.
   */
  lemma SuccessMeansPublished(drafts: map<nat, string>, actions: seq<Action>, i: nat, id: string)
    requires Inv(Empty(drafts)) && i < |Run(Empty(drafts), actions).executions|
    requires Run(Empty(drafts), actions).executions[i].phase == Finished(Ok(id))
    ensures var t := Run(Empty(drafts), actions);
            var input := t.executions[i].input;
            exists p: nat :: Backs(t, p, input.key, id) && CallsFor(t.calls, input.key) == 1
                        && (SentOn(t.calls, input.key, input.platform) <==> t.posts[p].platform == input.platform)
  {
    hide Inv;
    StaysHonest(Empty(drafts), actions);
    var t := Run(Empty(drafts), actions);
    var input := t.executions[i].input;
    assert SuccessHasRow(t, i);
    var p :| Backs(t, p, input.key, id);
    SentForRow(t, p);
  }

  /** The calls for the key of a committed row: exactly one, on the row's platform. */
  lemma SentForRow(s: System, p: nat)
    requires Honest(s) && p < |s.posts| && s.posts[p].committed
    ensures CallsFor(s.calls, s.posts[p].key) == 1
    ensures forall platform :: SentOn(s.calls, s.posts[p].key, platform) <==> s.posts[p].platform == platform
  {
    var key := s.posts[p].key;
    assert RowInStep(s, p);
    CalledOnce(s.calls, key);
    var c :| 0 <= c < |s.calls| && s.calls[c].key == key;
    assert CallHasRow(s, c);
    assert s.calls[c].platform == s.posts[p].platform;
    forall d | 0 <= d < |s.calls| && s.calls[d].key == key
      ensures s.calls[d].platform == s.posts[p].platform
    {
      assert CallHasRow(s, d);
    }
  }

  /* ---- What rows and calls say ---- */

  /** A row has its owner's draft, with the draft's content, and when it is committed says what its owner returned. */
  ghost predicate RowTrue(s: System, p: nat)
    requires p < |s.posts|
  {
    var row := s.posts[p];
    && row.owner < |s.executions| && row.draft == s.executions[row.owner].input.draft
    && row.draft in s.drafts && row.content == s.drafts[row.draft]
    && (row.committed ==>
          s.executions[row.owner].phase
          == Finished(if row.status.Succeeded? then Ok(row.externalId) else Raised(PublishRefused)))
  }

  ghost predicate LoadedTrue(s: System, i: nat)
    requires i < |s.executions|
  {
    var e := s.executions[i];
    e.phase.Loaded? ==> e.input.draft in s.drafts && e.phase.content == s.drafts[e.input.draft]
  }

  ghost predicate AllTrue(s: System) {
    && Inv(s)
    && (forall p :: 0 <= p < |s.posts| ==> RowTrue(s, p))
    && (forall i :: 0 <= i < |s.executions| ==> LoadedTrue(s, i))
  }

  lemma ActKeepsLoadedTrue(s: System, a: Action)
    requires AllTrue(s)
    ensures forall i :: 0 <= i < |Act(s, a).executions| ==> LoadedTrue(Act(s, a), i)
  {
    hide Inv;
    hide RowTrue;
    hide Settled;
    OwnsEach(s);
    var t := Act(s, a);
    forall i | 0 <= i < |t.executions|
      ensures LoadedTrue(t, i)
    {
      if i < |s.executions| {
        assert LoadedTrue(s, i);
      }
    }
  }

  /** The commit of an answer: row, attempt and outcome say what the adapter answered. */
  lemma CommitTellsTheAnswer(s: System, i: nat, answer: Answer)
    requires Inv(s) && i < |s.executions| && s.executions[i].phase.Answered?
    ensures var t, p, given := Act(s, Advance(i, answer)), s.executions[i].phase.post, s.executions[i].phase.answer;
            && p < |t.posts| && t.posts[p].committed && |t.attempts| == |s.attempts| + 1
            && t.attempts[|s.attempts|] == Attempt(p, t.posts[p].status)
            && (given.Accepted? ==>
                  && t.posts[p].status.Succeeded? && t.posts[p].externalId == given.externalId
                  && t.executions[i].phase == Finished(Ok(given.externalId)))
            && (given.Refused? ==>
                  t.posts[p].status.Failed? && t.executions[i].phase == Finished(Raised(PublishRefused)))
  {
    assert OwnsItsRow(s, i);
  }

  /** A step changes only its own execution, and that of a committed row is over. */
  lemma ActKeepsRowTrue(s: System, a: Action, p: nat)
    requires AllTrue(s) && p < |s.posts|
    ensures p < |Act(s, a).posts| && RowTrue(Act(s, a), p)
  {
    hide Inv;
    hide RowWith;
    hide FindDuplicate;
    hide Settled;
    RowsAndOwners(s, p);
    assert RowTrue(s, p);
    if a.Advance? && a.execution < |s.executions| {
      RowsAndOwners(s, a.execution);
      if s.executions[a.execution].phase.Answered? {
        CommitKeepsRowTrue(s, a.execution, a.answer, p);
      }
    }
  }

  lemma RowsAndOwners(s: System, n: nat)
    requires Inv(s)
    ensures n < |s.posts| ==> RowInStep(s, n)
    ensures n < |s.executions| ==> OwnsItsRow(s, n)
  {
  }

  lemma CommitKeepsRowTrue(s: System, i: nat, answer: Answer, p: nat)
    requires AllTrue(s) && p < |s.posts| && i < |s.executions| && s.executions[i].phase.Answered?
    ensures var t := Act(s, Advance(i, answer)); p < |t.posts| && RowTrue(t, p)
  {
    hide Inv;
    hide RowWith;
    hide FindDuplicate;
    RowsAndOwners(s, p);
    RowsAndOwners(s, i);
    assert RowTrue(s, p);
    CommitTellsTheAnswer(s, i, answer);
  }

  lemma ActAddsRowTrue(s: System, a: Action, p: nat)
    requires AllTrue(s) && |s.posts| <= p < |Act(s, a).posts|
    ensures RowTrue(Act(s, a), p)
  {
    hide FindDuplicate;
    assert OwnsItsRow(s, a.execution) && LoadedTrue(s, a.execution);
    assert s.executions[a.execution].phase.Loaded?;
  }

  lemma {:induction false} StaysTrue(s: System, actions: seq<Action>)
    requires AllTrue(s)
    ensures AllTrue(Run(s, actions)) && Run(s, actions).drafts == s.drafts
    decreases |actions|
  {
    hide Inv;
    hide RowTrue;
    hide LoadedTrue;
    hide Act;
    if actions != [] {
      var t := Act(s, actions[0]);
      ActKeepsInv(s, actions[0]);
      ActKeepsRows(s, actions[0]);
      ActKeepsLoadedTrue(s, actions[0]);
      forall p | 0 <= p < |t.posts|
        ensures RowTrue(t, p)
      {
        if p < |s.posts| {
          ActKeepsRowTrue(s, actions[0], p);
        } else {
          ActAddsRowTrue(s, actions[0], p);
        }
      }
      StaysTrue(t, actions[1..]);
    }
  }

  /**
   In every interleaving: a row has the draft its execution was asked to publish, with the content of that draft, and
   once committed it is succeeded with an id exactly when that execution returned this id, and failed exactly when
   the publish was refused; and every call sent the content of such a draft.
   */
  lemma RowsTellTheTruth(drafts: map<nat, string>, actions: seq<Action>, p: nat)
    requires Inv(Empty(drafts)) && p < |Run(Empty(drafts), actions).posts|
    ensures var t := Run(Empty(drafts), actions);
            var row := t.posts[p];
            && row.owner < |t.executions|
            && var e := t.executions[row.owner];
               && row.draft == e.input.draft && row.platform == e.input.platform && row.key == e.input.key
               && row.draft in drafts && row.content == drafts[row.draft]
               && (row.committed && row.status.Succeeded? ==> e.phase == Finished(Ok(row.externalId)))
               && (row.committed && !row.status.Succeeded? ==>
                     row.status.Failed? && e.phase == Finished(Raised(PublishRefused)))
  {
    hide Settled;
    StaysTrue(Empty(drafts), actions);
    var t := Run(Empty(drafts), actions);
    assert RowTrue(t, p) && RowInStep(t, p);
  }

  lemma CallsSendDrafts(drafts: map<nat, string>, actions: seq<Action>, c: nat)
    requires Inv(Empty(drafts)) && c < |Run(Empty(drafts), actions).calls|
    ensures var t := Run(Empty(drafts), actions);
            exists i :: 0 <= i < |t.executions|
                        && var input := t.executions[i].input;
                           && input.key == t.calls[c].key && input.platform == t.calls[c].platform
                           && input.draft in drafts && t.calls[c].content == drafts[input.draft]
  {
    hide Inv;
    StaysHonest(Empty(drafts), actions);
    var t := Run(Empty(drafts), actions);
    assert CallHasRow(t, c);
    var p :| 0 <= p < |t.posts| && t.posts[p].key == t.calls[c].key
             && t.posts[p].platform == t.calls[c].platform && t.posts[p].content == t.calls[c].content;
    RowsTellTheTruth(drafts, actions, p);
  }

  /* ---- The fate of a key is sealed by its first commit ---- */

  lemma {:induction false} RowIsTheOne(posts: seq<Post>, p: nat, from: nat)
    requires KeysUnique(posts) && from <= p < |posts|
    ensures RowWith(posts, posts[p].key, from) == Some(p)
    decreases p - from
  {
    if from < p {
      RowIsTheOne(posts, p, from + 1);
    }
  }

  /** What an execution started after the row's commit can come to. */
  predicate Barred(row: Post, e: Execution) {
    match e.phase
    case Starting => true
    case Unseen => row.status.Failed? && e.input.credentialed
    case Loaded(_) => row.status.Failed? && e.input.credentialed
    case Inserted(_) => false
    case Answered(_, _) => false
    case Finished(outcome) =>
      if !e.input.credentialed then outcome == Raised(AuthenticationMissing)
      else if row.status.Succeeded? then outcome == Ok(row.externalId)
      else outcome == Raised(DraftNotFound) || outcome == Raised(KeyTaken)
  }

  ghost predicate Sealed(s: System, row: Post, p: nat, since: nat) {
    && p < |s.posts| && s.posts[p] == row && row.committed && since <= |s.executions|
    && forall i :: since <= i < |s.executions| && s.executions[i].input.key == row.key ==> Barred(row, s.executions[i])
  }

  lemma ActKeepsSeal(s: System, a: Action, row: Post, p: nat, since: nat)
    requires Inv(s) && Sealed(s, row, p, since)
    ensures Sealed(Act(s, a), row, p, since)
  {
    RowIsTheOne(s.posts, p, 0);
    if a.Advance? && a.execution < |s.executions| {
      assert OwnsItsRow(s, a.execution) && RowInStep(s, p);
      AdvanceKeepsSeal(s, a.execution, a.answer, row, p, since);
    }
  }

  lemma AdvanceKeepsSeal(s: System, i: nat, answer: Answer, row: Post, p: nat, since: nat)
    requires i < |s.executions| && OwnsItsRow(s, i)
    requires Sealed(s, row, p, since) && !row.status.Pending? && RowWith(s.posts, row.key, 0) == Some(p)
    requires InFlight(s.executions[i]) && s.executions[i].input.key == row.key ==> s.executions[i].phase.post == p
    ensures Sealed(Advanced(s, i, answer), row, p, since)
  {
    hide Settled;
    var e := s.executions[i];
    var t := Advanced(s, i, answer);
    assert forall j :: 0 <= j < |s.executions| && j != i ==> t.executions[j] == s.executions[j];
    if InFlight(e) {
      assert e.phase.post != p;
      assert t.posts[p] == row;
    } else if since <= i && e.input.key == row.key {
      assert Barred(row, e);
    }
  }

  /**
   Once a row is committed no continuation changes it, its attempt or the number of calls for its key;
   and every later execution on its key returns the first post id if the row succeeded, while a failed
   key can never be published again.
   */
  lemma {:induction false} CommitSealsKey(s: System, actions: seq<Action>, row: Post, p: nat, since: nat)
    requires Inv(s) && Sealed(s, row, p, since)
    ensures Sealed(Run(s, actions), row, p, since)
    ensures CallsFor(Run(s, actions).calls, row.key) == 1
    ensures AttemptsOf(Run(s, actions).attempts, p) == [row.status]
    decreases |actions|
  {
    if actions == [] {
      assert RowInStep(s, p);
    } else {
      ActKeepsInv(s, actions[0]);
      ActKeepsSeal(s, actions[0], row, p, since);
      CommitSealsKey(Act(s, actions[0]), actions[1..], row, p, since);
    }
  }

  /* ---- Rivals that began before the commit ---- */

  /** An execution that looked the key up before it was taken, and can no longer publish. */
  predicate Beaten(e: Execution) {
    match e.phase
    case Starting => false
    case Unseen => true
    case Loaded(_) => true
    case Inserted(_) => false
    case Answered(_, _) => false
    case Finished(outcome) => outcome == Raised(KeyTaken) || outcome == Raised(DraftNotFound)
  }

  ghost predicate BeatenOn(s: System, i: nat, input: Input) {
    && i < |s.executions| && s.executions[i].input == input && Beaten(s.executions[i])
    && !KeyFree(s.posts, input.key)
  }

  /** Rows keep their keys and are never removed. */
  lemma KeyStaysTaken(s: System, a: Action, key: string)
    requires Inv(s) && !KeyFree(s.posts, key)
    ensures !KeyFree(Act(s, a).posts, key)
  {
    hide Settled;
    var p :| 0 <= p < |s.posts| && s.posts[p].key == key;
    var t := Act(s, a);
    if a.Advance? && a.execution < |s.executions| {
      assert OwnsItsRow(s, a.execution);
      SettledKeepsKey(s, a.execution);
    }
    assert t.posts[p].key == key;
  }

  lemma SettledKeepsKey(s: System, i: nat)
    requires i < |s.executions|
    ensures var e := s.executions[i];
            e.phase.Answered? && e.phase.post < |s.posts| ==>
              Settled(s.posts[e.phase.post], e.phase.answer).key == s.posts[e.phase.post].key
  {
  }

  lemma ActKeepsBeaten(s: System, a: Action, i: nat, input: Input)
    requires Inv(s) && BeatenOn(s, i, input)
    ensures BeatenOn(Act(s, a), i, input)
  {
    hide Inv;
    hide Settled;
    hide KeyFree;
    KeyStaysTaken(s, a, input.key);
    TakenIsFound(s.posts, input.key);
    OwnsEach(s);
  }

  lemma TakenIsFound(posts: seq<Post>, key: string)
    requires !KeyFree(posts, key)
    ensures RowWith(posts, key, 0).Some?
  {
  }

  lemma OwnsEach(s: System)
    requires Inv(s)
    ensures forall i :: 0 <= i < |s.executions| ==> OwnsItsRow(s, i)
  {
  }

  /**
   Once any row holds a key, committed or in flight, every other execution on it that has passed its look-up
   can only go on to find the key taken or its draft missing: it never publishes and never returns an id.
   */
  lemma {:induction false} RivalsAreBeaten(s: System, actions: seq<Action>, i: nat, input: Input)
    requires Inv(s) && BeatenOn(s, i, input)
    ensures BeatenOn(Run(s, actions), i, input)
    decreases |actions|
  {
    hide Inv;
    hide BeatenOn;
    if actions != [] {
      ActKeepsInv(s, actions[0]);
      ActKeepsBeaten(s, actions[0], i, input);
      RivalsAreBeaten(Act(s, actions[0]), actions[1..], i, input);
    }
  }

  /* ---- One execution, undisturbed: the publish tools themselves ---- */

  /** Execution `i` takes `steps` steps with nothing in between. */
  function Drive(s: System, i: nat, answer: Answer, steps: nat): (t: System)
    requires Inv(s)
    ensures Inv(t)
    decreases steps
  {
    if steps == 0 then s
    else ActKeepsInv(s, Advance(i, answer)); Drive(Act(s, Advance(i, answer)), i, answer, steps - 1)
  }

  /** A fresh execution run to its end: no path takes more than five steps. */
  function Alone(s: System, input: Input, answer: Answer): (t: System)
    requires Inv(s)
    ensures Inv(t)
  {
    ActKeepsInv(s, Begin(input));
    Drive(Act(s, Begin(input)), |s.executions|, answer, 5)
  }

  lemma {:induction false} FinishedStays(s: System, i: nat, answer: Answer, steps: nat)
    requires Inv(s) && i < |s.executions| && s.executions[i].phase.Finished?
    ensures Drive(s, i, answer, steps) == s
  {
    if steps > 0 {
      FinishedStays(s, i, answer, steps - 1);
    }
  }

  /** The whole effect of one publish call on an undisturbed session. */
  function Published(s: System, input: Input, answer: Answer): (System, Result<string, Failure>) {
    var existing := FindDuplicate(s.posts, input.key);
    if !input.credentialed then Ended(s, input, Raised(AuthenticationMissing))
    else if existing.Some? then Ended(s, input, Ok(existing.value.externalId))
    else if input.draft !in s.drafts then Ended(s, input, Raised(DraftNotFound))
    else if RowWith(s.posts, input.key, 0).Some? then Ended(s, input, Raised(KeyTaken))
    else
      var content := s.drafts[input.draft];
      var pending := Post(input.platform, input.key, input.draft, content, Pending, "", |s.executions|, false);
      var row := Settled(pending, answer);
      Ended(s.(posts := s.posts + [row],
               attempts := s.attempts + [Attempt(|s.posts|, row.status)],
               calls := s.calls + [Call(input.platform, input.key, content)]),
            input, OutcomeOf(answer))
  }

  function Ended(s: System, input: Input, r: Result<string, Failure>): (System, Result<string, Failure>) {
    (s.(executions := s.executions + [Execution(input, Finished(r))]), r)
  }

  /** Nothing is sent or written. */
  ghost predicate Untouched(s: System, t: System) {
    t.drafts == s.drafts && t.posts == s.posts && t.attempts == s.attempts && t.calls == s.calls
  }

  /**
   What one call comes to: without credentials it is refused; with a committed success under its key it returns that
   id; a missing draft or a key in use refuse it; in none of these is anything sent or written.  Otherwise the draft's
   content is sent once, and one row and one attempt record the answer that is returned.
   */
  lemma PublishedExactly(s: System, input: Input, answer: Answer)
    requires Inv(s)
    ensures var (t, r) := Published(s, input, answer);
            && (!input.credentialed ==> r == Raised(AuthenticationMissing) && Untouched(s, t))
            && (input.credentialed ==>
                  && (forall p: nat, id: string :: Backs(s, p, input.key, id) ==> r == Ok(id) && Untouched(s, t))
                  && ((forall p: nat, id: string :: !Backs(s, p, input.key, id)) ==>
                        && (input.draft !in s.drafts ==> r == Raised(DraftNotFound) && Untouched(s, t))
                        && (input.draft in s.drafts && !KeyFree(s.posts, input.key) ==>
                              r == Raised(KeyTaken) && Untouched(s, t))))
  {
    hide Inv;
    FoundExactly(s, input.key);
  }

  lemma FoundExactly(s: System, key: string)
    requires Inv(s)
    ensures forall p: nat, id: string :: Backs(s, p, key, id) ==>
              FindDuplicate(s.posts, key).Some? && FindDuplicate(s.posts, key).value.externalId == id
    ensures FindDuplicate(s.posts, key).Some? ==>
              exists p: nat, id: string :: Backs(s, p, key, id)
    ensures RowWith(s.posts, key, 0).Some? <==> !KeyFree(s.posts, key)
  {
    var found := RowWith(s.posts, key, 0);
    forall p: nat, id: string | Backs(s, p, key, id)
      ensures found == Some(p)
    {
      RowIsTheOne(s.posts, p, 0);
    }
    if FindDuplicate(s.posts, key).Some? {
      assert Backs(s, found.value, key, s.posts[found.value].externalId);
    }
  }

  /** The first publish under a key. */
  lemma FirstPublish(s: System, input: Input, answer: Answer)
    requires Inv(s) && input.credentialed && input.draft in s.drafts && KeyFree(s.posts, input.key)
    ensures var (t, r) := Published(s, input, answer);
            && r == (if answer.Accepted? then Ok(answer.externalId) else Raised(PublishRefused))
            && |t.calls| == |s.calls| + 1 && t.calls[..|s.calls|] == s.calls
            && t.calls[|s.calls|] == Call(input.platform, input.key, s.drafts[input.draft])
            && |t.posts| == |s.posts| + 1 && t.posts[..|s.posts|] == s.posts
            && var row := t.posts[|s.posts|];
               && row.platform == input.platform && row.key == input.key && row.draft == input.draft
               && row.content == s.drafts[input.draft] && row.committed
               && (answer.Accepted? ==> row.status.Succeeded? && row.externalId == answer.externalId)
               && (answer.Refused? ==> row.status.Failed?)
               && t.attempts == s.attempts + [Attempt(|s.posts|, row.status)]
  {
    hide Inv;
    FoundExactly(s, input.key);
  }

  /** An undisturbed execution of the interleaving machine has exactly that effect. */
  lemma AloneIsPublished(s: System, input: Input, answer: Answer)
    requires Inv(s)
    ensures Alone(s, input, answer) == Published(s, input, answer).0
    ensures Inv(Published(s, input, answer).0)
  {
    hide Inv;
    var i := |s.executions|;
    BeginKeepsInv(s, input);
    var s0 := Act(s, Begin(input));
    var s1 := Stepped(s0, i, answer);
    StepOnce(s0, i, answer, 5);
    if s1.executions[i].phase.Finished? {
      FinishedStays(s1, i, answer, 4);
      assert s1.executions == s.executions + [s1.executions[i]];
    } else {
      StepOnce(s1, i, answer, 4);
      var s2 := Stepped(s1, i, answer);
      if s2.executions[i].phase.Finished? {
        FinishedStays(s2, i, answer, 3);
        assert s2.executions == s.executions + [s2.executions[i]];
      } else {
        StepOnce(s2, i, answer, 3);
        LoadedIsPublished(s, input, Stepped(s1, i, answer), answer);
      }
    }
  }

  function Stepped(s: System, i: nat, answer: Answer): System
    requires Inv(s)
  {
    Act(s, Advance(i, answer))
  }

  lemma StepOnce(s: System, i: nat, answer: Answer, steps: nat)
    requires Inv(s) && steps > 0
    ensures Inv(Stepped(s, i, answer))
    ensures Drive(s, i, answer, steps) == Drive(Stepped(s, i, answer), i, answer, steps - 1)
  {
    hide Inv;
    ActKeepsInv(s, Advance(i, answer));
  }

  /** The second half: from the loaded draft to the end. */
  lemma LoadedIsPublished(s: System, input: Input, loaded: System, answer: Answer)
    requires Inv(s) && Inv(loaded)
    requires input.credentialed && FindDuplicate(s.posts, input.key).None? && input.draft in s.drafts
    requires loaded == s.(executions := s.executions + [Execution(input, Loaded(s.drafts[input.draft]))])
    ensures Drive(loaded, |s.executions|, answer, 3) == Published(s, input, answer).0
  {
    hide Inv;
    hide FindDuplicate;
    var i := |s.executions|;
    StepOnce(loaded, i, answer, 3);
    var s3 := Stepped(loaded, i, answer);
    if s3.executions[i].phase.Finished? {
      FinishedStays(s3, i, answer, 2);
    } else {
      StepOnce(s3, i, answer, 2);
      var s4 := Stepped(s3, i, answer);
      StepOnce(s4, i, answer, 1);
      var s5 := Stepped(s4, i, answer);
      assert s5.posts == Published(s, input, answer).0.posts;
      assert s5.executions == Published(s, input, answer).0.executions;
    }
  }

  /**
   Publishing again under the same key: the first id comes back, or the key is refused; nothing is sent or
   written.
   */
  lemma PublishAgain(s: System, first: Input, answer: Answer, again: Input, another: Answer)
    requires Inv(s) && first.key == again.key && again.credentialed && again.draft in s.drafts
    requires first.credentialed && first.draft in s.drafts && RowWith(s.posts, first.key, 0).None?
    ensures var (t, r) := Published(s, first, answer);
            var (u, second) := Published(t, again, another);
            && u.posts == t.posts && u.attempts == t.attempts && u.calls == t.calls
            && second == if r.Ok? then r else Raised(KeyTaken)
  {
    AloneIsPublished(s, first, answer);
    var t := Published(s, first, answer).0;
    assert t.posts[|s.posts|].key == first.key;
    RowIsTheOne(t.posts, |s.posts|, 0);
  }

  class Session {
    var drafts: map<nat, string>
    var posts: seq<Post>
    var attempts: seq<Attempt>
    var transactions: nat  // transactions begun so far
    ghost var calls: seq<Call>
    ghost var executions: seq<Execution>

    ghost predicate Valid()
      reads this
    {
      Inv(View()) && transactions == |executions|
    }

    ghost function View(): System
      reads this
    {
      System(drafts, posts, attempts, calls, executions)
    }
  }

  class PublishTool {
    const platform: Platform
    const accessToken: string
    const bearerToken: string
    const session: Session

    constructor (platform: Platform, accessToken: string, bearerToken: string, session: Session)
      ensures this.platform == platform && this.accessToken == accessToken
      ensures this.bearerToken == bearerToken && this.session == session
    {
      this.platform, this.accessToken, this.bearerToken, this.session := platform, accessToken, bearerToken, session;
    }

    predicate Credentialed() {
      accessToken != "" || (platform.X? && bearerToken != "")
    }

    method Execute(key: string, draft: nat, answer: Answer) returns (r: Result<string, Failure>)
      requires session.Valid()
      modifies session
      ensures session.Valid()
      ensures (session.View(), r)
              == Published(old(session.View()), Input(platform, key, draft, Credentialed()), answer)
      ensures r == Raised(AuthenticationMissing)
              <==> accessToken == "" && (platform.LinkedIn? || bearerToken == "")
    {
      hide Inv;
      ghost var input := Input(platform, key, draft, Credentialed());
      ghost var before := session.View();
      AloneIsPublished(before, input, answer);
      var id := session.transactions;
      session.transactions := id + 1;
      r := Attempted(key, draft, answer, id);
      session.executions := session.executions + [Execution(input, Finished(r))];
    }

    /** The body proper: everything but the bookkeeping of the execution itself. */
    method Attempted(key: string, draft: nat, answer: Answer, id: nat) returns (r: Result<string, Failure>)
      requires id == |session.executions|
      modifies session`posts, session`attempts, session`calls
      ensures (session.View().(executions := old(session.executions)
                 + [Execution(Input(platform, key, draft, Credentialed()), Finished(r))]), r)
              == Published(old(session.View()), Input(platform, key, draft, Credentialed()), answer)
    {
      if !Credentialed() {
        return Raised(AuthenticationMissing);
      }
      var existing := FindDuplicate(session.posts, key);
      if existing.Some? {
        return Ok(existing.value.externalId);
      }
      if draft !in session.drafts {
        return Raised(DraftNotFound);
      }
      var content := session.drafts[draft];
      if RowWith(session.posts, key, 0).Some? {
        return Raised(KeyTaken);
      }
      var row := |session.posts|;
      session.posts := session.posts + [Post(platform, key, draft, content, Pending, "", id, false)];
      session.calls := session.calls + [Call(platform, key, content)];
      match answer {
        case Refused =>
          session.posts := session.posts[row := session.posts[row].(status := Failed)];
          session.attempts := session.attempts + [Attempt(row, Failed)];
          r := Raised(PublishRefused);
        case Accepted(externalId) =>
          session.posts := session.posts[row := session.posts[row].(externalId := externalId)];
          session.posts := session.posts[row := session.posts[row].(status := Succeeded)];
          session.attempts := session.attempts + [Attempt(row, Succeeded)];
          r := Ok(externalId);
      }
      session.posts := session.posts[row := session.posts[row].(committed := true)];
      assert session.posts == old(session.posts)
             + [Settled(Post(platform, key, draft, content, Pending, "", id, false), answer)];
    }
  }
}
