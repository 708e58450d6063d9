/**
 Content checks (app/content/validators.py) and the draft tool that applies them to a thread
 (`ContentDraftTool.execute` of app/tools/builtin/content.py).
 */
module Drafts {
  import opened Outcomes
  import opened Sentences
  import opened Threads

  datatype Platform = X | LinkedIn

  /** The checks an issue can come from. */
  datatype Check = Formatting | Length | Links | Duplicates

  function CharacterLimit(platform: Platform): nat {
    if platform.X? then 280 else 3000
  }

  /** The parts of validation that are parameters here: link well-formedness and content hashing. */
  datatype Checker = Checker(linksOk: string -> bool, hash: string -> string)

  function ValidateLength(platform: Platform, content: string): Option<Check> {
    if |content| > CharacterLimit(platform) then Some(Length) else None
  }

  function ValidateLinks(checker: Checker, content: string): Option<Check> {
    if checker.linksOk(content) then None else Some(Links)
  }

  function ValidateDuplicate(checker: Checker, content: string, existing: set<string>): Option<Check> {
    if checker.hash(Strip(content)) in existing then Some(Duplicates) else None
  }

  /** Whether `check` finds fault with the content. */
  predicate Faulty(checker: Checker, platform: Platform, content: string, existing: set<string>, check: Check) {
    match check
    case Formatting => Strip(content) == ""
    case Length => Strip(content) != "" && |content| > CharacterLimit(platform)
    case Links => Strip(content) != "" && !checker.linksOk(content)
    case Duplicates => Strip(content) != "" && checker.hash(Strip(content)) in existing
  }

  /** The issues found are exactly the faults, each reported once, in the fixed order of the checks. */
  ghost predicate Reports(checker: Checker, platform: Platform, content: string, existing: set<string>,
                          issues: seq<Check>) {
    && (forall check :: check in issues <==> Faulty(checker, platform, content, existing, check))
    && (forall i, j :: 0 <= i < j < |issues| ==> CheckRank(issues[i]) < CheckRank(issues[j]))
  }

  function CheckRank(check: Check): nat {
    match check
    case Formatting => 0
    case Length => 1
    case Links => 2
    case Duplicates => 3
  }

  method ValidateContent(checker: Checker, platform: Platform, content: string, existing: set<string>)
    returns (issues: seq<Check>)
    ensures Reports(checker, platform, content, existing, issues)
  {
    issues := [];
    if Strip(content) == "" {
      return [Formatting];
    }
    var checks := [
      ValidateLength(platform, content),
      ValidateLinks(checker, content),
      ValidateDuplicate(checker, content, existing)
    ];
    for i := 0 to 3
      invariant forall check :: check in issues <==>
                  Faulty(checker, platform, content, existing, check) && CheckRank(check) <= i
      invariant forall a, b :: 0 <= a < b < |issues| ==> CheckRank(issues[a]) < CheckRank(issues[b])
    {
      if checks[i].Some? {
        assert CheckRank(checks[i].value) == i + 1;
        issues := issues + [checks[i].value];
      }
    }
  }

  function Picked(length: bool, links: bool, duplicate: bool): seq<Check> {
    (if length then [Length] else []) + (if links then [Links] else []) + (if duplicate then [Duplicates] else [])
  }

  lemma PickedExactly(length: bool, links: bool, duplicate: bool)
    ensures var picked := Picked(length, links, duplicate);
            && (Formatting !in picked) && (Length in picked <==> length) && (Links in picked <==> links)
            && (Duplicates in picked <==> duplicate)
            && forall i, j :: 0 <= i < j < |picked| ==> CheckRank(picked[i]) < CheckRank(picked[j])
  {
  }

  /** So the issues of a blank content are one, and of any other its length, links and duplicate, in this order. */
  lemma ReportsExactly(checker: Checker, platform: Platform, content: string, existing: set<string>, issues: seq<Check>)
    requires Reports(checker, platform, content, existing, issues)
    ensures issues ==
            if Strip(content) == "" then [Formatting]
            else Picked(|content| > (if platform.X? then 280 else 3000), !checker.linksOk(content),
                        checker.hash(Strip(content)) in existing)
  {
    hide Picked;
    hide CheckRank;
    var length, links := |content| > CharacterLimit(platform), !checker.linksOk(content);
    var duplicate := checker.hash(Strip(content)) in existing;
    var expected := if Strip(content) == "" then [Formatting] else Picked(length, links, duplicate);
    PickedExactly(length, links, duplicate);
    forall check
      ensures check in issues <==> check in expected
    {
      assert check in issues <==> Faulty(checker, platform, content, existing, check);
      match check { case _ => }
    }
    RankedOnce(issues, expected);
  }

  /** Lists of checks in ascending rank with the same members are the same. */
  lemma {:induction false} RankedOnce(a: seq<Check>, b: seq<Check>)
    requires forall i, j :: 0 <= i < j < |a| ==> CheckRank(a[i]) < CheckRank(a[j])
    requires forall i, j :: 0 <= i < j < |b| ==> CheckRank(b[i]) < CheckRank(b[j])
    requires forall check :: check in a <==> check in b
    ensures a == b
  {
    assert b == [] || b[0] in b;
    if a != [] {
      assert a[0] in a;
      SameFirst(a, b);
      forall check
        ensures check in a[1..] <==> check in b[1..]
      {
        assert check in a <==> check == a[0] || check in a[1..];
        assert check in b <==> check == b[0] || check in b[1..];
      }
      RankedOnce(a[1..], b[1..]);
      assert a == [a[0]] + a[1..] && b == [b[0]] + b[1..];
    }
  }

  lemma SameFirst(a: seq<Check>, b: seq<Check>)
    requires a != [] && b != [] && a[0] in b && b[0] in a
    requires forall i, j :: 0 <= i < j < |a| ==> CheckRank(a[i]) < CheckRank(a[j])
    requires forall i, j :: 0 <= i < j < |b| ==> CheckRank(b[i]) < CheckRank(b[j])
    ensures a[0] == b[0]
  {
    var i :| 0 <= i < |a| && a[i] == b[0];
    var j :| 0 <= j < |b| && b[j] == a[0];
  }

  /* ---- Length arithmetic of numbered posts ---- */

  /** Decimal digits of a positive number. */
  lemma {:induction false} DecimalLength(n: nat)
    ensures n < 10 <==> |Decimal(n)| == 1
    ensures n < 100 <==> |Decimal(n)| <= 2
  {
    if n >= 10 {
      DecimalLength(n / 10);
    }
  }

  /** The exact condition for a numbered post to pass the length check on X. */
  lemma NumberedFitsExactly(text: string, index: nat, total: nat)
    ensures |Numbered(text, index, total)| <= CharacterLimit(X)
            <==> |text| + |Decimal(index)| + |Decimal(total)| <= 278
  {
  }

  /** Posts whose text keeps to the budget pass while their two numbers take at most three digits. */
  lemma BudgetSuffices(text: string, index: nat, total: nat)
    requires |text| <= THREAD_BUDGET && index <= total
    requires total < 10 || (index < 10 && total < 100)
    ensures |Numbered(text, index, total)| <= CharacterLimit(X)
  {
    DecimalLength(index);
    DecimalLength(total);
  }

  /** With two digits on both sides a full post is always one character too long. */
  lemma BudgetFailsFromTen(text: string, index: nat, total: nat)
    requires |text| == THREAD_BUDGET && 10 <= index <= total
    ensures |Numbered(text, index, total)| > CharacterLimit(X)
  {
    DecimalLength(index);
    DecimalLength(total);
  }

  /** No sentence over the budget means no post text over the budget. */
  lemma {:induction false} PostsKeepBudget(sentences: seq<string>)
    requires forall s :: s in sentences ==> |s| <= THREAD_BUDGET
    ensures forall i :: 0 <= i < |Pack(sentences)| ==> |Join(Pack(sentences)[i])| <= THREAD_BUDGET
  {
    PackIsGrouping(sentences);
    var groups := Pack(sentences);
    forall i | 0 <= i < |groups|
      ensures |Join(groups[i])| <= THREAD_BUDGET
    {
      if |groups[i]| == 1 {
        MemberOfFlatten(groups, i, groups[i][0]);
      }
    }
  }

  lemma {:induction false} MemberOfFlatten(groups: seq<seq<string>>, i: nat, s: string)
    requires i < |groups| && s in groups[i]
    ensures s in Flatten(groups)
  {
    if i > 0 {
      MemberOfFlatten(groups[1..], i - 1, s);
    }
  }

  /** Up to nine posts, sentences within the budget never make a post too long. */
  lemma ThreadsOfNineFit(content: string)
    requires forall s :: s in Split(content) ==> |s| <= THREAD_BUDGET
    requires |ThreadOf(content)| <= 9
    ensures forall i :: 0 <= i < |ThreadOf(content)| ==> |ThreadOf(content)[i].content| <= CharacterLimit(X)
  {
    PostsKeepBudget(Split(content));
    var posts := ThreadOf(content);
    forall i | 0 <= i < |posts|
      ensures |posts[i].content| <= CharacterLimit(X)
    {
      BudgetSuffices(JoinEach(Pack(Split(content)))[i], i + 1, |posts|);
    }
  }

  /* ---- The draft tool ---- */

  datatype DraftOutput = DraftOutput(valid: bool, posts: seq<ThreadPost>, issues: seq<Check>, formatted: string)

  function Paragraphs(posts: seq<ThreadPost>): string {
    if posts == [] then ""
    else if |posts| == 1 then posts[0].content
    else posts[0].content + "\n\n" + Paragraphs(posts[1..])
  }

  predicate Acceptable(checker: Checker, platform: Platform, content: string) {
    forall check | check in {Formatting, Length, Links, Duplicates} ::
      !Faulty(checker, platform, content, {}, check)
  }

  lemma ReportsNothing(checker: Checker, platform: Platform, content: string, issues: seq<Check>)
    requires Reports(checker, platform, content, {}, issues)
    ensures issues == [] <==> Acceptable(checker, platform, content)
  {
    if issues != [] {
      assert issues[0] in issues;
      assert issues[0] in {Formatting, Length, Links, Duplicates} by {
        match issues[0] { case _ => }
      }
    } else {
      assert forall check :: check !in issues;
    }
  }

  /** What the tool promises for a draft. */
  ghost predicate DraftsCorrectly(checker: Checker, platform: Platform, content: string, out: DraftOutput) {
    var threaded := platform.X? && |content| > SINGLE_POST_LIMIT;
    var posts := ThreadOf(content);
    if threaded && (forall i :: 0 <= i < |posts| ==> Acceptable(checker, platform, posts[i].content)) then
      out == DraftOutput(true, posts, [], Paragraphs(posts))
    else if threaded then
      && !out.valid && out.posts == [] && out.formatted == content && out.issues != []
      && exists i :: && 0 <= i < |posts| && Reports(checker, platform, posts[i].content, {}, out.issues)
                     && forall j :: 0 <= j < i ==> Acceptable(checker, platform, posts[j].content)
    else
      && out.posts == [] && out.formatted == content
      && Reports(checker, platform, content, {}, out.issues) && (out.valid <==> out.issues == [])
  }

  method Draft(checker: Checker, platform: Platform, content: string) returns (out: DraftOutput)
    ensures DraftsCorrectly(checker, platform, content, out)
  {
    hide ThreadOf;
    hide Reports;
    hide Acceptable;
    hide Paragraphs;
    hide JoinEach;
    hide Pack;
    hide Split;
    hide NumberPosts;
    if platform.X? && |content| > SINGLE_POST_LIMIT {
      var rawPosts := BuildRawPosts(content);
      var posts := NumberPosts(rawPosts);
      ThreadOfRawPosts(content, rawPosts);
      for i := 0 to |posts|
        invariant forall j :: 0 <= j < i ==> Acceptable(checker, platform, posts[j].content)
      {
        var issues := ValidateContent(checker, platform, posts[i].content, {});
        ReportsNothing(checker, platform, posts[i].content, issues);
        if issues != [] {
          return DraftOutput(false, [], issues, content);
        }
      }
      return DraftOutput(true, posts, [], Paragraphs(posts));
    }
    var issues := ValidateContent(checker, platform, content, {});
    return DraftOutput(issues == [], [], issues, content);
  }

  lemma ThreadOfRawPosts(content: string, rawPosts: seq<string>)
    requires rawPosts == JoinEach(Pack(Split(content)))
    ensures NumberPosts(rawPosts) == ThreadOf(content)
  {
  }

  /** Paragraphs of a longer thread are those of its parts, with a blank line between. */
  lemma {:induction false} ParagraphsJoin(first: seq<ThreadPost>, others: seq<ThreadPost>)
    requires first != [] && others != []
    ensures Paragraphs(first + others) == Paragraphs(first) + ['\n', '\n'] + Paragraphs(others)
    ensures Paragraphs([first[0]]) == first[0].content
  {
    if |first| == 1 {
      assert (first + others)[1..] == others;
    } else {
      assert (first + others)[1..] == first[1..] + others;
      ParagraphsJoin(first[1..], others);
      assert Paragraphs(first + others)
             == first[0].content + "\n\n" + (Paragraphs(first[1..]) + "\n\n" + Paragraphs(others));
      assert Paragraphs(first) + "\n\n" + Paragraphs(others)
             == first[0].content + "\n\n" + Paragraphs(first[1..]) + "\n\n" + Paragraphs(others);
    }
  }

  /**
   A draft for LinkedIn, or of at most 280 characters, is never split: it is returned as it is, and is valid exactly
   when it is not blank, within 280 or 3000 characters, and its links are well formed.
   */
  lemma SingleDraftExactly(checker: Checker, platform: Platform, content: string, out: DraftOutput)
    requires DraftsCorrectly(checker, platform, content, out) && (platform.LinkedIn? || |content| <= 280)
    ensures out.posts == [] && out.formatted == content
    ensures out.valid <==> Strip(content) != "" && (platform.X? || |content| <= 3000) && checker.linksOk(content)
  {
    ReportsExactly(checker, platform, content, {}, out.issues);
  }

  /**
   A longer draft for X that is valid is its numbered thread, and the formatted content is the paragraphs of
   the thread.
   */
  lemma LongDraftIsThreaded(checker: Checker, content: string, out: DraftOutput)
    requires DraftsCorrectly(checker, X, content, out) && |content| > 280
    ensures out.valid ==> out == DraftOutput(true, ThreadOf(content), [], Paragraphs(ThreadOf(content)))
    ensures !out.valid ==> out.posts == [] && out.formatted == content && out.issues != []
  {
    hide ThreadOf;
    hide Acceptable;
    hide Reports;
    hide Paragraphs;
  }

  /** Whatever the total, every post of a valid draft for X is within the limit. */
  lemma ValidDraftFits(checker: Checker, content: string, out: DraftOutput)
    requires DraftsCorrectly(checker, X, content, out) && out.valid
    ensures forall i :: 0 <= i < |out.posts| ==> |out.posts[i].content| <= CharacterLimit(X)
    ensures out.posts == [] && |content| <= SINGLE_POST_LIMIT ==> |out.formatted| <= CharacterLimit(X)
  {
    forall i | 0 <= i < |out.posts|
      ensures |out.posts[i].content| <= CharacterLimit(X)
    {
      assert Acceptable(checker, X, out.posts[i].content);
      assert !Faulty(checker, X, out.posts[i].content, {}, Length);
      assert !Faulty(checker, X, out.posts[i].content, {}, Formatting);
    }
  }

  /** A numbered post is never blank: its number is not whitespace. */
  lemma NumberedIsNotBlank(text: string, index: nat, total: nat)
    ensures Strip(Numbered(text, index, total)) != ""
  {
    DecimalHasNoSpace(total);
    var s := Numbered(text, index, total);
    assert !IsSpace(s[|s| - 1]);
    StripLeftSuffix(s);
    StripTrims(s);
    StripLeftShorter(s);
    StripRightEnds(StripLeft(s));
  }

  lemma AcceptableExactly(checker: Checker, platform: Platform, content: string)
    requires Strip(content) != ""
    ensures Acceptable(checker, platform, content)
            <==> |content| <= CharacterLimit(platform) && checker.linksOk(content)
  {
    assert Faulty(checker, platform, content, {}, Length) <==> |content| > CharacterLimit(platform);
    assert Faulty(checker, platform, content, {}, Links) <==> !checker.linksOk(content);
  }

  /** A long draft for X is valid exactly when every numbered post is within the limit and its links are well formed. */
  lemma LongDraftValidExactlyWhen(checker: Checker, content: string, out: DraftOutput)
    requires DraftsCorrectly(checker, X, content, out) && |content| > SINGLE_POST_LIMIT
    ensures out.valid <==>
            forall i :: 0 <= i < |ThreadOf(content)| ==>
              && |JoinEach(Pack(Split(content)))[i]| + |Decimal(i + 1)| + |Decimal(|ThreadOf(content)|)| <= 278
              && checker.linksOk(ThreadOf(content)[i].content)
  {
    hide Strip;
    hide Pack;
    hide Split;
    var raw, posts := JoinEach(Pack(Split(content))), ThreadOf(content);
    forall i | 0 <= i < |posts|
      ensures Acceptable(checker, X, posts[i].content) <==>
              |raw[i]| + |Decimal(i + 1)| + |Decimal(|posts|)| <= 278 && checker.linksOk(posts[i].content)
    {
      NumberedFitsExactly(raw[i], i + 1, |posts|);
      NumberedIsNotBlank(raw[i], i + 1, |posts|);
      AcceptableExactly(checker, X, posts[i].content);
    }
  }

  /** Well-formed links, sentences within the budget and at most nine posts make a long draft valid. */
  lemma NinePostDraftsAreValid(checker: Checker, content: string, out: DraftOutput)
    requires DraftsCorrectly(checker, X, content, out) && |content| > SINGLE_POST_LIMIT
    requires forall s :: s in Split(content) ==> |s| <= THREAD_BUDGET
    requires |ThreadOf(content)| <= 9
    requires forall i :: 0 <= i < |ThreadOf(content)| ==> checker.linksOk(ThreadOf(content)[i].content)
    ensures out.valid && out.posts == ThreadOf(content)
  {
    hide Pack;
    hide Split;
    hide Strip;
    hide Acceptable;
    hide Numbered;
    hide Paragraphs;
    ThreadsOfNineFit(content);
    var posts := ThreadOf(content);
    forall i | 0 <= i < |posts|
      ensures Acceptable(checker, X, posts[i].content)
    {
      NumberedIsNotBlank(JoinEach(Pack(Split(content)))[i], i + 1, |posts|);
      AcceptableExactly(checker, X, posts[i].content);
    }
  }

  /** A long draft yields an empty thread exactly when it is all whitespace, and is then called valid. */
  lemma LongBlankDraftIsValidButEmpty(checker: Checker, content: string, out: DraftOutput)
    requires DraftsCorrectly(checker, X, content, out) && |content| > SINGLE_POST_LIMIT
    ensures ThreadOf(content) == [] <==> Strip(content) == ""
    ensures Strip(content) == "" ==> out == DraftOutput(true, [], [], "")
  {
    SplitIsNormal(content);
  }

  /* ---- Ten full sentences: where the five reserved characters run out ---- */

  function FullSentence(): string {
    seq(THREAD_BUDGET - 1, _ => 'a') + "."
  }

  function Repeated(s: string, n: nat): seq<string> {
    seq(n, _ => s)
  }

  lemma {:induction false} FullSentencesPackAlone(n: nat)
    ensures |Pack(Repeated(FullSentence(), n))| == n
    ensures forall i :: 0 <= i < n ==> Pack(Repeated(FullSentence(), n))[i] == [FullSentence()]
  {
    if n > 0 {
      var all := Repeated(FullSentence(), n);
      assert all[..1] == [FullSentence()];
      assert Extend(all, 1) == 1;
      assert all[1..] == Repeated(FullSentence(), n - 1);
      FullSentencesPackAlone(n - 1);
    }
  }

  function FullText(n: nat): string {
    Join(Repeated(FullSentence(), n))
  }

  lemma FullTextSplits(n: nat)
    ensures Split(FullText(n)) == Repeated(FullSentence(), n)
    ensures n >= 2 ==> |FullText(n)| > SINGLE_POST_LIMIT
  {
    hide Split;
    var sentences := Repeated(FullSentence(), n);
    assert IsSentence(FullSentence());
    SplitOfJoin(sentences);
    if n >= 2 {
      JoinConcat(sentences[..1], sentences[1..]);
      assert sentences == sentences[..1] + sentences[1..];
      JoinPrefixShorter(sentences[1..], 1, n - 1);
      assert sentences[1..][..1] == [FullSentence()];
      assert sentences[1..][..n - 1] == sentences[1..];
    }
  }

  /** Ten sentences of exactly the budget are rejected: the tenth post is 281 characters long. */
  lemma TenFullSentencesAreRejected(checker: Checker, out: DraftOutput)
    requires DraftsCorrectly(checker, X, FullText(10), out)
    ensures (forall s :: s in Split(FullText(10)) ==> |s| <= THREAD_BUDGET) && !out.valid
  {
    hide FullText;
    hide Split;
    hide Pack;
    hide DraftsCorrectly;
    FullTextSplits(10);
    FullSentencesPackAlone(10);
    LongDraftValidExactlyWhen(checker, FullText(10), out);
    DecimalLength(10);
    assert JoinEach(Pack(Split(FullText(10))))[9] == FullSentence();
  }
}
