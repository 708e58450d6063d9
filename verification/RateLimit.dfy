/**
 The token-bucket rate limiter of app/policies/rate_limit.py.

 The reference definition is free of buckets: the answer to a call depends on the whole
 history, and is "yes" exactly when no window that ends at the call would hold more grants
 than the burst plus what refills during the window.  The lazy in-place bucket is proved to
 give the same answers, and these answers are proved to be the best any policy can give.
 */
module RateLimit {
  import opened Outcomes

  /* ---- Windows of a call history ---- */

  /** Tokens refilled per second. */
  function Rate(rpm: int): real {
    rpm as real / 60.0
  }

  /** Tokens refilled in `span` seconds. */
  function Regained(rpm: int, span: real): real {
    span * Rate(rpm)
  }

  /** Grants a window that spans `span` seconds may hold. */
  function Allowance(rpm: int, span: real): real {
    rpm as real + Regained(rpm, span)
  }

  /** Number of grants among calls lo..hi-1. */
  function Grants(answers: seq<bool>, lo: nat, hi: nat): nat
    requires hi <= |answers|
  {
    if hi <= lo then 0 else Grants(answers, lo, hi - 1) + (if answers[hi - 1] then 1 else 0)
  }

  ghost predicate Monotone(times: seq<real>) {
    forall i, j :: 0 <= i <= j < |times| ==> times[i] <= times[j]
  }

  /** Every window that ends at a call made at `now` has room for one more grant. */
  predicate RoomInEveryWindow(rpm: int, times: seq<real>, answers: seq<bool>, now: real)
    requires |answers| == |times|
  {
    forall j :: 0 <= j <= |times| ==>
      Grants(answers, j, |times|) as real + 1.0 <= Allowance(rpm, now - (times + [now])[j])
  }

  /** The answers to calls made at `times`, defined by windows alone. */
  function WindowAnswers(rpm: int, times: seq<real>): (answers: seq<bool>)
    ensures |answers| == |times|
  {
    if times == [] then []
    else
      var n := |times| - 1;
      var earlier := WindowAnswers(rpm, times[..n]);
      earlier + [RoomInEveryWindow(rpm, times[..n], earlier, times[n])]
  }

  lemma {:induction false} GrantsSplit(answers: seq<bool>, lo: nat, mid: nat, hi: nat)
    requires lo <= mid <= hi <= |answers|
    ensures Grants(answers, lo, hi) == Grants(answers, lo, mid) + Grants(answers, mid, hi)
  {
    if mid < hi {
      GrantsSplit(answers, lo, mid, hi - 1);
    }
  }

  lemma {:induction false} GrantsAgree(a: seq<bool>, b: seq<bool>, lo: nat, hi: nat)
    requires hi <= |a| && hi <= |b| && a[..hi] == b[..hi]
    ensures Grants(a, lo, hi) == Grants(b, lo, hi)
  {
    if lo < hi {
      assert a[hi - 1] == a[..hi][hi - 1] == b[..hi][hi - 1] == b[hi - 1];
      assert a[..hi - 1] == a[..hi][..hi - 1] == b[..hi][..hi - 1] == b[..hi - 1];
      GrantsAgree(a, b, lo, hi - 1);
    }
  }

  /** Later calls never change earlier answers. */
  lemma {:induction false} AnswersPrefix(rpm: int, times: seq<real>, n: nat)
    requires n <= |times|
    ensures WindowAnswers(rpm, times)[..n] == WindowAnswers(rpm, times[..n])
  {
    if n == |times| {
      assert times[..n] == times;
    } else {
      var m := |times| - 1;
      AnswersPrefix(rpm, times[..m], n);
      assert times[..m][..n] == times[..n];
      assert WindowAnswers(rpm, times)[..n] == WindowAnswers(rpm, times[..m])[..n];
    }
  }

  /** The k-th call is granted exactly when every window from call j to it has room. */
  lemma {:induction false} AnswerAt(rpm: int, times: seq<real>, k: nat)
    requires k < |times|
    ensures WindowAnswers(rpm, times)[k] <==>
            forall j :: 0 <= j <= k ==>
              Grants(WindowAnswers(rpm, times), j, k) as real + 1.0 <= Allowance(rpm, times[k] - times[j])
  {
    hide Allowance;
    var all := WindowAnswers(rpm, times);
    var upto := times[..k + 1];
    var before := WindowAnswers(rpm, times[..k]);
    AnswersPrefix(rpm, times, k + 1);
    AnswersPrefix(rpm, times, k);
    assert upto[..k] == times[..k] && upto[k] == times[k];
    assert all[k] == all[..k + 1][k] == RoomInEveryWindow(rpm, times[..k], before, times[k]);
    forall j | 0 <= j <= k
      ensures Grants(before, j, k) == Grants(all, j, k)
      ensures (times[..k] + [times[k]])[j] == times[j]
    {
      GrantsAgree(before, all, j, k);
    }
  }

  /* ---- The answers are admissible, and no admissible set of grants is ever ahead ---- */

  /** Every window from call j to a granted call k holds no more grants than it may. */
  ghost predicate Admissible(rpm: int, times: seq<real>, grants: seq<bool>) {
    |grants| == |times| &&
    forall j, k :: 0 <= j <= k < |times| && grants[k] ==>
      Grants(grants, j, k + 1) as real <= Allowance(rpm, times[k] - times[j])
  }

  lemma AnswersAreAdmissible(rpm: int, times: seq<real>)
    ensures Admissible(rpm, times, WindowAnswers(rpm, times))
  {
    var answers := WindowAnswers(rpm, times);
    forall j, k | 0 <= j <= k < |times| && answers[k]
      ensures Grants(answers, j, k + 1) as real <= Allowance(rpm, times[k] - times[j])
    {
      AnswerAt(rpm, times, k);
      assert Grants(answers, j, k) as real + 1.0 <= Allowance(rpm, times[k] - times[j]);
    }
  }

  /** After every prefix the limiter has granted at least as many calls as any admissible rival. */
  lemma {:induction false} AnswersAreOptimal(rpm: int, times: seq<real>, rival: seq<bool>, n: nat)
    requires rpm >= 1 && Admissible(rpm, times, rival) && n <= |times|
    ensures Grants(rival, 0, n) <= Grants(WindowAnswers(rpm, times), 0, n)
  {
    if n > 0 {
      var answers := WindowAnswers(rpm, times);
      var k := n - 1;
      AnswersAreOptimal(rpm, times, rival, k);
      if rival[k] && !answers[k] {
        AnswerAt(rpm, times, k);
        var j :| 0 <= j <= k && !(Grants(answers, j, k) as real + 1.0 <= Allowance(rpm, times[k] - times[j]));
        assert Grants(rival, j, k + 1) as real <= Allowance(rpm, times[k] - times[j]);
        AnswersAreOptimal(rpm, times, rival, j);
        GrantsSplit(rival, 0, j, k);
        GrantsSplit(answers, 0, j, k);
      }
    }
  }

  /** Between any two calls, granted or not, at most the burst plus the refill is granted. */
  lemma {:induction false} GrantsInWindow(rpm: int, times: seq<real>, lo: nat, hi: nat)
    requires rpm >= 1 && Monotone(times) && lo <= hi < |times|
    ensures Grants(WindowAnswers(rpm, times), lo, hi + 1) as real <= Allowance(rpm, times[hi] - times[lo])
  {
    var answers := WindowAnswers(rpm, times);
    if answers[hi] {
      AnswersAreAdmissible(rpm, times);
    } else if lo < hi {
      GrantsInWindow(rpm, times, lo, hi - 1);
      AllowanceMonotone(rpm, times[hi - 1] - times[lo], times[hi] - times[lo]);
    } else {
      AllowanceMonotone(rpm, 0.0, times[hi] - times[lo]);
    }
  }

  lemma AllowanceMonotone(rpm: int, shorter: real, longer: real)
    requires rpm >= 1 && shorter <= longer
    ensures Allowance(rpm, shorter) <= Allowance(rpm, longer)
    ensures Regained(rpm, longer) == Regained(rpm, shorter) + Regained(rpm, longer - shorter)
    ensures Regained(rpm, 0.0) == 0.0
  {
  }

  /** A minute refills a whole burst, so no minute holds more than two bursts. */
  lemma GrantsInMinute(rpm: int, times: seq<real>, lo: nat, hi: nat)
    requires rpm >= 1 && Monotone(times) && lo <= hi < |times| && times[hi] - times[lo] <= 60.0
    ensures Grants(WindowAnswers(rpm, times), lo, hi + 1) <= 2 * rpm
  {
    hide WindowAnswers;
    GrantsInWindow(rpm, times, lo, hi);
    AllowanceMonotone(rpm, times[hi] - times[lo], 60.0);
    MinuteAllowance(rpm);
  }

  lemma MinuteAllowance(rpm: int)
    ensures Regained(rpm, 60.0) == rpm as real && Allowance(rpm, 60.0) == 2.0 * rpm as real
  {
  }

  /** Of calls made all at once by an unused tool, the first `rpm` are granted and no others. */
  lemma {:induction false} BurstExactly(rpm: int, times: seq<real>, k: nat)
    requires rpm >= 1 && k < |times| && forall i :: 0 <= i < |times| ==> times[i] == times[0]
    ensures WindowAnswers(rpm, times)[k] <==> k < rpm
    ensures Grants(WindowAnswers(rpm, times), 0, k) == if k <= rpm then k else rpm
  {
    hide WindowAnswers;
    var answers := WindowAnswers(rpm, times);
    if k > 0 {
      BurstExactly(rpm, times, k - 1);
    }
    AnswerAt(rpm, times, k);
    AllowanceMonotone(rpm, 0.0, 0.0);
    forall j | 0 <= j <= k
      ensures Grants(answers, j, k) <= Grants(answers, 0, k) && times[k] - times[j] == 0.0
    {
      GrantsSplit(answers, 0, j, k);
    }
    assert Grants(answers, 0, k) as real + 1.0 <= Allowance(rpm, times[k] - times[0]) <==> Grants(answers, 0, k) < rpm;
  }

  /* ---- The lazy bucket ---- */

  /** The bucket of one tool: absent until the first call, then a level and its refill time. */
  datatype Bucket = Unused | Bucket(tokens: real, lastRefill: real)

  /** The level a refill at `now` leaves. */
  function Refilled(rpm: int, b: Bucket, now: real): real {
    match b
    case Unused => rpm as real
    case Bucket(tokens, last) =>
      var raised := tokens + Regained(rpm, now - last);
      if raised <= rpm as real then raised else rpm as real
  }

  /** The bucket after one acquire at `now`. */
  function Taken(rpm: int, b: Bucket, now: real): Bucket {
    var level := Refilled(rpm, b, now);
    Bucket(if level >= 1.0 then level - 1.0 else level, now)
  }

  function BucketAfter(rpm: int, times: seq<real>): Bucket {
    if times == [] then Unused
    else Taken(rpm, BucketAfter(rpm, times[..|times| - 1]), times[|times| - 1])
  }

  /** An emptied bucket is full again after a minute, and one token is back after a `rpm`-th of it. */
  lemma RefillsInAMinute(rpm: int, at: real)
    requires rpm >= 1
    ensures Refilled(rpm, Bucket(0.0, at), at + 60.0) == rpm as real
    ensures Refilled(rpm, Bucket(0.0, at), at + 60.0 / rpm as real) == 1.0
    ensures Refilled(rpm, Unused, at) == rpm as real
  {
    MinuteAllowance(rpm);
    assert 60.0 / rpm as real * Rate(rpm) == 1.0;
  }

  /** What the window from call j to `now` still allows. */
  function Slack(rpm: int, times: seq<real>, now: real, j: nat): real
    requires j <= |times|
  {
    Allowance(rpm, now - (times + [now])[j]) - Grants(WindowAnswers(rpm, times), j, |times|) as real
  }

  ghost predicate IsTightest(rpm: int, times: seq<real>, now: real, level: real) {
    && (forall j :: 0 <= j <= |times| ==> level <= Slack(rpm, times, now, j))
    && (exists j :: 0 <= j <= |times| && level == Slack(rpm, times, now, j))
  }

  /** The refilled level is the least slack of all windows that end now. */
  lemma {:induction false} LevelIsTightestWindow(rpm: int, times: seq<real>, now: real)
    requires rpm >= 1 && Monotone(times + [now])
    ensures IsTightest(rpm, times, now, Refilled(rpm, BucketAfter(rpm, times), now))
  {
    if times == [] {
      assert Slack(rpm, times, now, 0) == rpm as real;
    } else {
      var n := |times| - 1;
      var before, last := times[..n], times[n];
      assert before + [last] == times;
      assert Monotone(times) by {
        assert forall i :: 0 <= i < |times| ==> (times + [now])[i] == times[i];
      }
      assert last <= now by {
        assert (times + [now])[n] == last && (times + [now])[n + 1] == now;
      }
      LevelIsTightestWindow(rpm, before, last);
      SlackStep(rpm, times, now);
    }
  }

  /** One acquire, and the time until the next, move every window's slack by the same amount. */
  lemma SlackShift(rpm: int, times: seq<real>, now: real, j: nat)
    requires rpm >= 1 && j < |times| && times[|times| - 1] <= now
    ensures var n := |times| - 1;
            Slack(rpm, times, now, j)
            == Slack(rpm, times[..n], times[n], j)
               - (if WindowAnswers(rpm, times)[n] then 1.0 else 0.0) + Regained(rpm, now - times[n])
  {
    hide Regained;
    var n := |times| - 1;
    var before, last := times[..n], times[n];
    var earlier, answers := WindowAnswers(rpm, before), WindowAnswers(rpm, times);
    assert (times + [now])[j] == times[j] == (before + [last])[j];
    GrantsAgree(answers, earlier, j, n);
    AllowanceMonotone(rpm, last - times[j], now - times[j]);
    assert Grants(answers, j, n + 1) == Grants(answers, j, n) + (if answers[n] then 1 else 0);
  }

  /** The level is capped at the burst, which is the slack of the window that starts now. */
  lemma LevelStep(rpm: int, times: seq<real>, now: real)
    requires rpm >= 1 && times != [] && times[|times| - 1] <= now
    requires var n := |times| - 1;
             IsTightest(rpm, times[..n], times[n], Refilled(rpm, BucketAfter(rpm, times[..n]), times[n]))
    ensures var n := |times| - 1;
            var full := Refilled(rpm, BucketAfter(rpm, times[..n]), times[n])
                        - (if WindowAnswers(rpm, times)[n] then 1.0 else 0.0) + Regained(rpm, now - times[n]);
            Refilled(rpm, BucketAfter(rpm, times), now) == if full <= rpm as real then full else rpm as real
  {
    hide Regained;
    var n := |times| - 1;
    LevelDecides(rpm, times[..n], times[n], Refilled(rpm, BucketAfter(rpm, times[..n]), times[n]));
  }

  lemma SlackStep(rpm: int, times: seq<real>, now: real)
    requires rpm >= 1 && times != [] && times[|times| - 1] <= now
    requires var n := |times| - 1;
             IsTightest(rpm, times[..n], times[n], Refilled(rpm, BucketAfter(rpm, times[..n]), times[n]))
    ensures IsTightest(rpm, times, now, Refilled(rpm, BucketAfter(rpm, times), now))
  {
    hide Regained;
    var n := |times| - 1;
    var level := Refilled(rpm, BucketAfter(rpm, times[..n]), times[n]);
    LevelStep(rpm, times, now);
    forall j | 0 <= j <= n
      ensures Slack(rpm, times, now, j) - Refilled(rpm, BucketAfter(rpm, times), now)
              >= Slack(rpm, times[..n], times[n], j) - level
    {
      SlackShift(rpm, times, now, j);
    }
    AllowanceMonotone(rpm, now, now);
    assert Slack(rpm, times, now, n + 1) == rpm as real;
    var j :| 0 <= j <= n && level == Slack(rpm, times[..n], times[n], j);
    SlackShift(rpm, times, now, j);
  }

  /** A call is granted exactly when the refilled level reaches one token. */
  lemma LevelDecides(rpm: int, times: seq<real>, now: real, level: real)
    requires IsTightest(rpm, times, now, level)
    ensures RoomInEveryWindow(rpm, times, WindowAnswers(rpm, times), now) <==> level >= 1.0
  {
    var answers := WindowAnswers(rpm, times);
    forall j | 0 <= j <= |times|
      ensures Grants(answers, j, |times|) as real + 1.0 <= Allowance(rpm, now - (times + [now])[j])
              <==> Slack(rpm, times, now, j) >= 1.0
    {
    }
  }

  /** The bucket grants a call exactly when the windows do. */
  lemma BucketAgreesWithWindows(rpm: int, times: seq<real>, now: real)
    requires rpm >= 1 && Monotone(times + [now])
    ensures WindowAnswers(rpm, times + [now])[|times|]
            <==> Refilled(rpm, BucketAfter(rpm, times), now) >= 1.0
  {
    hide Refilled;
    hide Allowance;
    LevelIsTightestWindow(rpm, times, now);
    LevelDecides(rpm, times, now, Refilled(rpm, BucketAfter(rpm, times), now));
    assert (times + [now])[..|times|] == times;
  }

  /* ---- Refused calls leave no trace ---- */

  function Without<T>(s: seq<T>, i: nat): seq<T>
    requires i < |s|
  {
    s[..i] + s[i + 1..]
  }

  lemma WithoutMonotone(times: seq<real>, i: nat)
    requires Monotone(times) && i < |times|
    ensures Monotone(Without(times, i))
  {
    forall a, b | 0 <= a <= b < |times| - 1
      ensures Without(times, i)[a] <= Without(times, i)[b]
    {
      assert times[if a < i then a else a + 1] <= times[if b < i then b else b + 1];
    }
  }

  /** A refill interrupted by a refused call ends at the same level. */
  lemma RefusedRefill(rpm: int, b: Bucket, refused: real, now: real)
    requires rpm >= 1 && refused <= now && Refilled(rpm, b, refused) < 1.0
    ensures Refilled(rpm, Taken(rpm, b, refused), now) == Refilled(rpm, b, now)
  {
    hide Regained;
    match b {
      case Unused =>
      case Bucket(tokens, refilledAt) =>
        AllowanceMonotone(rpm, refused - refilledAt, now - refilledAt);
        AllowanceMonotone(rpm, 0.0, now - refused);
    }
  }

  /** Buckets that refill to the same level are the same after the call. */
  lemma SameLevelSameBucket(rpm: int, b: Bucket, c: Bucket, now: real)
    requires Refilled(rpm, b, now) == Refilled(rpm, c, now)
    ensures Taken(rpm, b, now) == Taken(rpm, c, now)
  {
  }

  lemma BucketAfterOneMore(rpm: int, times: seq<real>, now: real)
    ensures BucketAfter(rpm, times + [now]) == Taken(rpm, BucketAfter(rpm, times), now)
  {
    assert (times + [now])[..|times|] == times;
  }

  /** Dropping a refused call changes no later level. */
  lemma {:induction false} RefusalKeepsLevel(rpm: int, times: seq<real>, i: nat, now: real)
    requires rpm >= 1 && Monotone(times + [now]) && i < |times|
    requires !WindowAnswers(rpm, times)[i]
    ensures Refilled(rpm, BucketAfter(rpm, times), now) == Refilled(rpm, BucketAfter(rpm, Without(times, i)), now)
  {
    hide Refilled;
    hide Taken;
    hide BucketAfter;
    hide WindowAnswers;
    var n := |times| - 1;
    var before, last := times[..n], times[n];
    assert before + [last] == times;
    BucketAfterOneMore(rpm, before, last);
    assert forall k :: 0 <= k <= n ==> (times + [now])[k] == times[k];
    assert last <= now by {
      assert (times + [now])[n + 1] == now;
    }
    AnswersPrefix(rpm, times, n);
    if i == n {
      BucketAgreesWithWindows(rpm, before, last);
      assert Without(times, i) == before;
      RefusedRefill(rpm, BucketAfter(rpm, before), last, now);
    } else {
      RefusalKeepsLevel(rpm, before, i, last);
      SameLevelSameBucket(rpm, BucketAfter(rpm, before), BucketAfter(rpm, Without(before, i)), last);
      BucketAfterOneMore(rpm, Without(before, i), last);
      assert Without(times, i) == Without(before, i) + [last];
    }
  }

  /** Deleting a refused call from the history changes no other answer. */
  lemma {:induction false} RefusalLeavesNoTrace(rpm: int, times: seq<real>, i: nat)
    requires rpm >= 1 && Monotone(times) && i < |times|
    requires !WindowAnswers(rpm, times)[i]
    ensures WindowAnswers(rpm, Without(times, i)) == Without(WindowAnswers(rpm, times), i)
  {
    hide WindowAnswers;
    var n := |times| - 1;
    var before, last := times[..n], times[n];
    assert before + [last] == times;
    AppendedAnswer(rpm, before, last);
    if i == n {
      assert Without(times, i) == before;
    } else {
      RefusalLeavesNoTrace(rpm, before, i);
      RefusalKeepsNextAnswer(rpm, before, i, last);
      AppendedAnswer(rpm, Without(before, i), last);
      assert Without(times, i) == Without(before, i) + [last];
    }
  }

  lemma AppendedAnswer(rpm: int, times: seq<real>, now: real)
    ensures WindowAnswers(rpm, times + [now])
            == WindowAnswers(rpm, times) + [WindowAnswers(rpm, times + [now])[|times|]]
  {
    hide RoomInEveryWindow;
    AnswersPrefix(rpm, times + [now], |times|);
    assert (times + [now])[..|times|] == times;
  }

  lemma RefusalKeepsNextAnswer(rpm: int, times: seq<real>, i: nat, now: real)
    requires rpm >= 1 && Monotone(times + [now]) && i < |times|
    requires !WindowAnswers(rpm, times)[i]
    ensures WindowAnswers(rpm, times + [now])[|times|]
            == WindowAnswers(rpm, Without(times, i) + [now])[|times| - 1]
  {
    hide Refilled;
    hide WindowAnswers;
    hide BucketAfter;
    RefusalKeepsLevel(rpm, times, i, now);
    BucketAgreesWithWindows(rpm, times, now);
    assert Monotone(Without(times, i) + [now]) by {
      WithoutMonotone(times + [now], i);
      assert Without(times + [now], i) == Without(times, i) + [now];
    }
    BucketAgreesWithWindows(rpm, Without(times, i), now);
  }

  /* ---- Histories over many tools ---- */

  datatype Event = Acquire(tool: string, at: real) | Reset(tool: string) | ResetAll

  /** The times of the calls on `tool` since its bucket was last reset. */
  function CallsSinceReset(history: seq<Event>, tool: string): seq<real> {
    if history == [] then []
    else
      var earlier := CallsSinceReset(history[..|history| - 1], tool);
      match history[|history| - 1]
      case Acquire(t, at) => if t == tool then earlier + [at] else earlier
      case Reset(t) => if t == tool then [] else earlier
      case ResetAll => []
  }

  /** The events a tool can notice. */
  function Concerning(history: seq<Event>, tool: string): seq<Event> {
    if history == [] then []
    else
      var earlier := Concerning(history[..|history| - 1], tool);
      var e := history[|history| - 1];
      if e.ResetAll? || e.tool == tool then earlier + [e] else earlier
  }

  /** Buckets do not interact: other tools' events can be removed from any interleaving. */
  lemma {:induction false} BucketsDoNotInteract(history: seq<Event>, tool: string)
    ensures CallsSinceReset(history, tool) == CallsSinceReset(Concerning(history, tool), tool)
  {
    if history != [] {
      var n := |history| - 1;
      var earlier := Concerning(history[..n], tool);
      BucketsDoNotInteract(history[..n], tool);
      assert (earlier + [history[n]])[..|earlier|] == earlier;
    }
  }

  /** After a reset a tool behaves as if it had never been used. */
  lemma {:induction false} ResetForgets(past: seq<Event>, reset: Event, since: seq<Event>, tool: string)
    requires reset == ResetAll || reset == Reset(tool)
    ensures CallsSinceReset(past + [reset] + since, tool) == CallsSinceReset(since, tool)
  {
    var all := past + [reset] + since;
    if since == [] {
      assert all[|all| - 1] == reset;
    } else {
      assert all[..|all| - 1] == past + [reset] + since[..|since| - 1];
      ResetForgets(past, reset, since[..|since| - 1], tool);
    }
  }

  /** The answer to a call on `tool` at `now`: that of the windows over the tool's own calls since its reset. */
  function AnswerNow(rpm: int, history: seq<Event>, tool: string, now: real): bool {
    var calls := CallsSinceReset(history, tool);
    WindowAnswers(rpm, calls + [now])[|calls|]
  }

  /** The calls of one tool are in order, none later than `clock`, and have left bucket `b`. */
  ghost predicate InStep(rpm: int, history: seq<Event>, clock: real, tool: string, b: Bucket) {
    var calls := CallsSinceReset(history, tool);
    && (forall i, j :: 0 <= i <= j < |calls| ==> calls[i] <= calls[j] <= clock)
    && b == BucketAfter(rpm, calls)
  }

  lemma AnswerIsLevel(rpm: int, history: seq<Event>, clock: real, tool: string, b: Bucket, now: real)
    requires rpm >= 1 && InStep(rpm, history, clock, tool, b) && clock <= now
    ensures AnswerNow(rpm, history, tool, now) <==> Refilled(rpm, b, now) >= 1.0
  {
    hide Refilled;
    hide WindowAnswers;
    BucketAgreesWithWindows(rpm, CallsSinceReset(history, tool), now);
  }

  /** Any event keeps every tool in step: it adds a call, empties the bucket, or is not noticed. */
  lemma EventKeepsStep(rpm: int, history: seq<Event>, clock: real, e: Event, tool: string, b: Bucket)
    requires InStep(rpm, history, clock, tool, b)
    requires e.Acquire? ==> clock <= e.at
    ensures InStep(rpm, history + [e], if e.Acquire? then e.at else clock, tool,
                   match e
                   case Acquire(t, at) => if t == tool then Taken(rpm, b, at) else b
                   case Reset(t) => if t == tool then Unused else b
                   case ResetAll => Unused)
  {
    hide Taken;
    var calls := CallsSinceReset(history, tool);
    assert (history + [e])[..|history|] == history;
    if e.Acquire? && e.tool == tool {
      assert (calls + [e.at])[..|calls|] == calls;
    }
  }

  datatype CreationError = ValueError

  class RateLimiter {
    const rpm: int
    const refillRate: real
    const maxTokens: real
    var tokens: map<string, real>
    var lastRefill: map<string, real>
    ghost var history: seq<Event>
    ghost var clock: real  // no reading of the monotonic clock so far is later than this

    function BucketOf(tool: string): Bucket
      reads this
      requires tokens.Keys == lastRefill.Keys
    {
      if tool in tokens then Bucket(tokens[tool], lastRefill[tool]) else Unused
    }

    ghost predicate Valid()
      reads this
    {
      && rpm >= 1 && refillRate == Rate(rpm) && maxTokens == rpm as real
      && tokens.Keys == lastRefill.Keys
      && forall tool :: InStep(rpm, history, clock, tool, BucketOf(tool))
    }

    constructor (requestsPerMinute: int, ghost now: real)
      requires requestsPerMinute >= 1
      ensures Valid() && rpm == requestsPerMinute && history == [] && clock == now
    {
      rpm := requestsPerMinute;
      refillRate := requestsPerMinute as real / 60.0;
      maxTokens := requestsPerMinute as real;
      tokens, lastRefill := map[], map[];
      history, clock := [], now;
    }

    /** Creation, with the error a rate below one raises. */
    static method Create(requestsPerMinute: int, ghost now: real) returns (r: Result<RateLimiter, CreationError>)
      ensures r.Ok? <==> requestsPerMinute >= 1
      ensures r.Ok? ==> fresh(r.value) && r.value.Valid() && r.value.rpm == requestsPerMinute
                        && r.value.history == [] && r.value.clock == now
    {
      if requestsPerMinute < 1 {
        return Raised(ValueError);
      }
      var limiter := new RateLimiter(requestsPerMinute, now);
      return Ok(limiter);
    }

    method Refill(tool: string, now: real)
      requires rpm >= 1 && refillRate == Rate(rpm) && maxTokens == rpm as real && tokens.Keys == lastRefill.Keys
      modifies this`tokens, this`lastRefill
      ensures tokens == old(tokens)[tool := Refilled(rpm, old(BucketOf(tool)), now)]
      ensures lastRefill == old(lastRefill)[tool := now]
    {
      var last := if tool in lastRefill then lastRefill[tool] else now;
      var elapsed := now - last;
      var current := if tool in tokens then tokens[tool] else maxTokens;
      var raised := current + elapsed * refillRate;
      assert elapsed * refillRate == Regained(rpm, elapsed);
      AllowanceMonotone(rpm, 0.0, 0.0);
      tokens := tokens[tool := if raised <= maxTokens then raised else maxTokens];
      lastRefill := lastRefill[tool := now];
    }

    /** Grants the call exactly when the windows over the tool's own calls since its last reset do. */
    method Acquire(tool: string, now: real) returns (granted: bool)
      requires Valid() && clock <= now
      modifies this
      ensures Valid() && clock == now && history == old(history) + [Event.Acquire(tool, now)]
      ensures granted == AnswerNow(rpm, old(history), tool, now)
    {
      hide AnswerNow;
      hide InStep;
      hide Regained;
      AnswerIsLevel(rpm, history, clock, tool, BucketOf(tool), now);
      Refill(tool, now);
      var current := if tool in tokens then tokens[tool] else maxTokens;
      granted := current >= 1.0;
      if granted {
        tokens := tokens[tool := current - 1.0];
      }
      history, clock := history + [Event.Acquire(tool, now)], now;
      forall t
        ensures InStep(rpm, history, clock, t, BucketOf(t))
      {
        EventKeepsStep(rpm, old(history), old(clock), Event.Acquire(tool, now), t, old(BucketOf(t)));
      }
    }

    method ResetTool(tool: string)
      requires Valid()
      modifies this
      ensures Valid() && clock == old(clock) && history == old(history) + [Event.Reset(tool)]
      ensures BucketOf(tool) == Unused
      ensures forall other :: other != tool ==> BucketOf(other) == old(BucketOf(other))
    {
      tokens := tokens - {tool};
      lastRefill := lastRefill - {tool};
      history := history + [Event.Reset(tool)];
      forall t
        ensures InStep(rpm, history, clock, t, BucketOf(t))
      {
        EventKeepsStep(rpm, old(history), clock, Event.Reset(tool), t, old(BucketOf(t)));
      }
    }

    method ResetAllTools()
      requires Valid()
      modifies this
      ensures Valid() && clock == old(clock) && history == old(history) + [Event.ResetAll]
      ensures forall tool :: BucketOf(tool) == Unused
    {
      tokens, lastRefill := map[], map[];
      history := history + [Event.ResetAll];
      forall t
        ensures InStep(rpm, history, clock, t, BucketOf(t))
      {
        EventKeepsStep(rpm, old(history), clock, Event.ResetAll, t, old(BucketOf(t)));
      }
    }
  }
}
