/** The thread splitter of app/tools/builtin/content.py: packing sentences into posts and numbering the posts. */
module Threads {
  import opened Sentences

  const THREAD_BUDGET := 275
  const SINGLE_POST_LIMIT := 280

  /* ---- Packing: the longest prefix that fits, again and again ---- */

  /** How far a first group of at least `n` sentences can be extended within the budget. */
  function Extend(sentences: seq<string>, n: nat): (k: nat)
    requires 1 <= n <= |sentences|
    ensures n <= k <= |sentences|
    decreases |sentences| - n
  {
    if n < |sentences| && |Join(sentences[..n])| + 1 + |sentences[n]| <= THREAD_BUDGET
    then Extend(sentences, n + 1) else n
  }

  function Pack(sentences: seq<string>): seq<seq<string>> {
    if sentences == [] then []
    else var k := Extend(sentences, 1); [sentences[..k]] + Pack(sentences[k..])
  }

  function Flatten(groups: seq<seq<string>>): seq<string> {
    if groups == [] then [] else groups[0] + Flatten(groups[1..])
  }

  function JoinEach(groups: seq<seq<string>>): seq<string> {
    seq(|groups|, i requires 0 <= i < |groups| => Join(groups[i]))
  }

  /** What a post may hold: any one sentence, or sentences that join to at most the budget. */
  predicate Fits(group: seq<string>) {
    |group| == 1 || |Join(group)| <= THREAD_BUDGET
  }

  /** An order-preserving division of the sentences into posts that fit. */
  ghost predicate IsGrouping(groups: seq<seq<string>>, sentences: seq<string>) {
    Flatten(groups) == sentences && forall i :: 0 <= i < |groups| ==> Fits(groups[i])
  }

  lemma {:induction false} JoinConcat(a: seq<string>, b: seq<string>)
    requires a != [] && b != []
    ensures Join(a + b) == Join(a) + " " + Join(b)
  {
    if |a| == 1 {
      assert (a + b)[1..] == b;
    } else {
      assert (a + b)[1..] == a[1..] + b;
      JoinConcat(a[1..], b);
      assert Join(a + b) == a[0] + " " + (Join(a[1..]) + " " + Join(b));
      assert Join(a) + " " + Join(b) == a[0] + " " + Join(a[1..]) + " " + Join(b);
    }
  }

  /** The running length: one more sentence adds its own length and one space. */
  lemma JoinSnocLength(sentences: seq<string>, n: nat)
    requires 1 <= n < |sentences|
    ensures |Join(sentences[..n + 1])| == |Join(sentences[..n])| + 1 + |sentences[n]|
  {
    JoinConcat(sentences[..n], [sentences[n]]);
    assert sentences[..n + 1] == sentences[..n] + [sentences[n]];
  }

  lemma {:induction false} ExtendFits(sentences: seq<string>, n: nat)
    requires 1 <= n <= |sentences| && Fits(sentences[..n])
    ensures Fits(sentences[..Extend(sentences, n)])
    decreases |sentences| - n
  {
    if n < |sentences| && |Join(sentences[..n])| + 1 + |sentences[n]| <= THREAD_BUDGET {
      JoinSnocLength(sentences, n);
      ExtendFits(sentences, n + 1);
    }
  }

  lemma {:induction false} PackIsGrouping(sentences: seq<string>)
    ensures IsGrouping(Pack(sentences), sentences)
    ensures forall i :: 0 <= i < |Pack(sentences)| ==> Pack(sentences)[i] != []
  {
    if sentences != [] {
      var k := Extend(sentences, 1);
      ExtendFits(sentences, 1);
      PackIsGrouping(sentences[k..]);
      assert sentences == sentences[..k] + sentences[k..];
    }
  }

  /** A prefix that fits is never left unfinished by the greedy extension. */
  lemma {:induction false} ExtendReaches(sentences: seq<string>, n: nat, m: nat)
    requires 1 <= n <= m <= |sentences| && (m == 1 || |Join(sentences[..m])| <= THREAD_BUDGET)
    ensures Extend(sentences, n) >= m
    decreases m - n
  {
    if n < m {
      JoinSnocLength(sentences, n);
      JoinPrefixShorter(sentences, n + 1, m);
      ExtendReaches(sentences, n + 1, m);
    }
  }

  lemma {:induction false} JoinPrefixShorter(sentences: seq<string>, n: nat, m: nat)
    requires 1 <= n <= m <= |sentences|
    ensures |Join(sentences[..n])| <= |Join(sentences[..m])|
  {
    if n < m {
      JoinPrefixShorter(sentences, n, m - 1);
      JoinSnocLength(sentences, m - 1);
    }
  }

  lemma JoinSuffixShorter(group: seq<string>, d: nat)
    requires d < |group|
    ensures |Join(group[d..])| <= |Join(group)|
  {
    if d > 0 {
      JoinConcat(group[..d], group[d..]);
      assert group == group[..d] + group[d..];
    }
  }

  /** A group that could not also hold the first sentence of the next one. */
  ghost predicate Full(groups: seq<seq<string>>, i: nat)
    requires i + 1 < |groups|
  {
    groups[i + 1] != [] && |Join(groups[i])| + 1 + |groups[i + 1][0]| > 275
  }

  /** A grouping without empty groups in which every group but the last is full. */
  ghost predicate IsGreedy(groups: seq<seq<string>>, sentences: seq<string>) {
    && IsGrouping(groups, sentences)
    && (forall i :: 0 <= i < |groups| ==> groups[i] != [])
    && (forall i :: 0 <= i < |groups| - 1 ==> Full(groups, i))
  }

  lemma {:induction false} ExtendStops(sentences: seq<string>, n: nat)
    requires 1 <= n <= |sentences|
    ensures var k := Extend(sentences, n);
            k < |sentences| ==> |Join(sentences[..k])| + 1 + |sentences[k]| > THREAD_BUDGET
    decreases |sentences| - n
  {
    hide Join;
    if n < |sentences| && |Join(sentences[..n])| + 1 + |sentences[n]| <= THREAD_BUDGET {
      ExtendStops(sentences, n + 1);
    }
  }

  lemma {:induction false} PackIsGreedy(sentences: seq<string>)
    ensures IsGreedy(Pack(sentences), sentences)
  {
    hide Join;
    hide IsGrouping;
    PackIsGrouping(sentences);
    if sentences != [] {
      var k := Extend(sentences, 1);
      var rest := Pack(sentences[k..]);
      PackIsGreedy(sentences[k..]);
      ExtendStops(sentences, 1);
      PackStarts(sentences[k..]);
      forall i | 0 <= i < |Pack(sentences)| - 1
        ensures Full(Pack(sentences), i)
      {
        if i > 0 {
          assert Full(rest, i - 1);
        }
      }
    }
  }

  lemma PackStarts(sentences: seq<string>)
    ensures Pack(sentences) == [] <==> sentences == []
    ensures sentences != [] ==> Pack(sentences)[0] != [] && Pack(sentences)[0][0] == sentences[0]
  {
  }

  /** The packing is the one grouping in which every sentence goes to the current post as long as it fits. */
  lemma {:induction false} PackIsTheGreedyGrouping(groups: seq<seq<string>>, sentences: seq<string>)
    ensures groups == Pack(sentences) <==> IsGreedy(groups, sentences)
  {
    PackIsGreedy(sentences);
    if IsGreedy(groups, sentences) {
      GreedyIsPack(groups, sentences);
    }
  }

  lemma {:induction false} GreedyIsPack(groups: seq<seq<string>>, sentences: seq<string>)
    requires IsGreedy(groups, sentences)
    ensures groups == Pack(sentences)
  {
    hide Join;
    hide Extend;
    if groups != [] {
      var k := |groups[0]|;
      FirstGroupExtends(groups, sentences);
      assert sentences[..k] == groups[0] && sentences[k..] == Flatten(groups[1..]);
      RestIsGreedy(groups, sentences);
      GreedyIsPack(groups[1..], sentences[k..]);
      assert groups == [groups[0]] + groups[1..];
    }
  }

  lemma RestIsGreedy(groups: seq<seq<string>>, sentences: seq<string>)
    requires IsGreedy(groups, sentences) && groups != []
    ensures IsGreedy(groups[1..], Flatten(groups[1..]))
  {
    hide Join;
    forall i | 0 <= i < |groups[1..]| - 1
      ensures Full(groups[1..], i)
    {
      assert Full(groups, i + 1);
    }
  }

  lemma FirstGroupExtends(groups: seq<seq<string>>, sentences: seq<string>)
    requires IsGreedy(groups, sentences) && groups != []
    ensures 1 <= |groups[0]| <= |sentences| && Extend(sentences, 1) == |groups[0]|
  {
    hide Join;
    var k := |groups[0]|;
    assert sentences == groups[0] + Flatten(groups[1..]);
    assert sentences[..k] == groups[0];
    ExtendReaches(sentences, 1, k);
    if |groups| > 1 {
      assert Full(groups, 0);
      assert Flatten(groups[1..]) == groups[1] + Flatten(groups[1..][1..]);
      assert sentences[k] == groups[1][0];
      ExtendNoFurther(sentences, 1, k);
    } else {
      assert Flatten(groups[1..]) == [];
    }
  }

  /** Where the next sentence does not fit, the extension ends. */
  lemma {:induction false} ExtendNoFurther(sentences: seq<string>, n: nat, k: nat)
    requires 1 <= n <= k < |sentences| && |Join(sentences[..k])| + 1 + |sentences[k]| > THREAD_BUDGET
    ensures Extend(sentences, n) <= k
    decreases k - n
  {
    hide Join;
    if n < k {
      ExtendNoFurther(sentences, n + 1, k);
    }
  }

  /** Greedy packing of a suffix needs no more posts than any grouping of the whole. */
  lemma {:induction false} PackStaysAhead(groups: seq<seq<string>>, sentences: seq<string>, done: nat)
    requires IsGrouping(groups, sentences) && done <= |sentences|
    ensures |Pack(sentences[done..])| <= |groups|
    decreases |groups|
  {
    hide Join;
    hide Extend;
    if done < |sentences| {
      var first, others := groups[0], groups[1..];
      var left := Flatten(others);
      var mine := sentences[done..];
      if |first| <= done {
        assert mine == left[done - |first|..];
        PackStaysAhead(others, left, done - |first|);
      } else {
        var m := |first| - done;
        assert mine[..m] == first[done..];
        JoinSuffixShorter(first, done);
        assert m == 1 || |Join(mine[..m])| <= THREAD_BUDGET;
        ExtendReaches(mine, 1, m);
        var k := Extend(mine, 1);
        assert mine[k..] == left[k - m..];
        PackStaysAhead(others, left, k - m);
      }
    }
  }

  /** No order-preserving grouping uses fewer posts. */
  lemma PackIsMinimal(groups: seq<seq<string>>, sentences: seq<string>)
    requires IsGrouping(groups, sentences)
    ensures |Pack(sentences)| <= |groups|
  {
    PackStaysAhead(groups, sentences, 0);
    assert sentences[0..] == sentences;
  }

  /** The packing loop part-way: `closed` posts are final and sentences[start..i] wait in the open one. */
  ghost predicate Packing(sentences: seq<string>, closed: seq<seq<string>>, start: nat, i: nat) {
    && start <= i <= |sentences| && (start == i ==> i == 0)
    && Pack(sentences) == closed + Pack(sentences[start..])
    && (start < i ==> Extend(sentences[start..], 1) == Extend(sentences[start..], i - start))
  }

  lemma OpenPostGrows(sentences: seq<string>, closed: seq<seq<string>>, start: nat, i: nat)
    requires Packing(sentences, closed, start, i) && i < |sentences|
    requires start == i || |Join(sentences[start..i])| + 1 + |sentences[i]| <= THREAD_BUDGET
    ensures Packing(sentences, closed, start, i + 1)
    ensures |Join(sentences[start..i + 1])|
            == |sentences[i]| + if start == i then 0 else |Join(sentences[start..i])| + 1
  {
    var open := sentences[start..];
    assert open[..i - start] == sentences[start..i] && open[..i + 1 - start] == sentences[start..i + 1];
    if start < i {
      JoinSnocLength(open, i - start);
    }
  }

  /** A group that the next sentence would overflow is not extended. */
  lemma ExtendsTo(sentences: seq<string>, start: nat, i: nat)
    requires start < i <= |sentences|
    requires i == |sentences| || |Join(sentences[start..i])| + 1 + |sentences[i]| > THREAD_BUDGET
    ensures Extend(sentences[start..], i - start) == i - start
  {
    hide Join;
    assert sentences[start..][..i - start] == sentences[start..i];
  }

  lemma OpenPostIsNext(sentences: seq<string>, closed: seq<seq<string>>, start: nat, i: nat)
    requires Packing(sentences, closed, start, i) && start < i
    requires i == |sentences| || |Join(sentences[start..i])| + 1 + |sentences[i]| > THREAD_BUDGET
    ensures Pack(sentences) == closed + [sentences[start..i]] + Pack(sentences[i..])
  {
    hide Join;
    ExtendsTo(sentences, start, i);
    var open := sentences[start..];
    assert open[..i - start] == sentences[start..i] && open[i - start..] == sentences[i..];
    hide Extend;
    assert Pack(open) == [sentences[start..i]] + Pack(sentences[i..]);
  }

  lemma OpenPostCloses(sentences: seq<string>, closed: seq<seq<string>>, start: nat, i: nat)
    requires Packing(sentences, closed, start, i) && start < i
    requires i == |sentences| || |Join(sentences[start..i])| + 1 + |sentences[i]| > THREAD_BUDGET
    ensures i < |sentences| ==> Packing(sentences, closed + [sentences[start..i]], i, i + 1)
    ensures i == |sentences| ==> closed + [sentences[start..i]] == Pack(sentences)
    ensures JoinEach(closed + [sentences[start..i]]) == JoinEach(closed) + [Join(sentences[start..i])]
    ensures i < |sentences| ==> Join([sentences[i]]) == sentences[i] && sentences[i..i + 1] == [sentences[i]]
  {
    hide Extend;
    OpenPostIsNext(sentences, closed, start, i);
    if i == |sentences| {
      assert Pack(sentences[i..]) == [];
    }
  }

  lemma PackingStarts(sentences: seq<string>)
    ensures Packing(sentences, [], 0, 0)
    ensures sentences == [] ==> Pack(sentences) == []
    ensures JoinEach([]) == []
  {
    assert sentences[0..] == sentences;
  }

  /** `_build_raw_posts`: the loop keeps a running length and closes a post when the next sentence overflows. */
  method BuildRawPosts(content: string) returns (rawPosts: seq<string>)
    ensures rawPosts == JoinEach(Pack(Split(content)))
  {
    hide Packing;
    hide Split;
    hide Join;
    hide JoinEach;
    hide Pack;
    var sentences := Split(content);
    rawPosts := [];
    var current: seq<string> := [];
    var currentLen := 0;
    ghost var start := 0;
    ghost var closed: seq<seq<string>> := [];
    PackingStarts(sentences);
    for i := 0 to |sentences|
      invariant start <= i && (start == i ==> i == 0) && Packing(sentences, closed, start, i)
      invariant current == sentences[start..i]
      invariant current != [] ==> currentLen == |Join(current)|
      invariant rawPosts == JoinEach(closed)
      invariant i == 0 ==> closed == []
    {
      var sentence := sentences[i];
      var needed := if current == [] then |sentence| else currentLen + 1 + |sentence|;
      if current != [] && needed > THREAD_BUDGET {
        OpenPostCloses(sentences, closed, start, i);
        rawPosts := rawPosts + [Join(current)];
        closed := closed + [current];
        start := i;
        current := [sentence];
        currentLen := |sentence|;
      } else {
        OpenPostGrows(sentences, closed, start, i);
        assert sentences[start..i + 1] == current + [sentence];
        current := current + [sentence];
        currentLen := needed;
      }
    }
    if current != [] {
      OpenPostCloses(sentences, closed, start, |sentences|);
      rawPosts := rawPosts + [Join(current)];
    }
  }

  /* ---- Numbering ---- */

  function Digit(d: nat): char
    requires d < 10
  {
    ['0', '1', '2', '3', '4', '5', '6', '7', '8', '9'][d]
  }

  function Decimal(n: nat): string {
    if n < 10 then [Digit(n)] else Decimal(n / 10) + [Digit(n % 10)]
  }

  /** The number a string of decimal digits denotes. */
  function NumberOf(digits: string): int {
    if digits == "" then 0
    else 10 * NumberOf(digits[..|digits| - 1]) + (digits[|digits| - 1] as int - '0' as int)
  }

  /** Decimal notation denotes its number, without a leading zero. */
  lemma {:induction false} DecimalDenotes(n: nat)
    ensures NumberOf(Decimal(n)) == n
    ensures n > 0 ==> Decimal(n)[0] != '0'
  {
    if n < 10 {
      assert Decimal(n)[..0] == "";
    } else {
      DecimalDenotes(n / 10);
      assert Decimal(n)[..|Decimal(n)| - 1] == Decimal(n / 10);
    }
  }

  datatype ThreadPost = ThreadPost(index: nat, total: nat, content: string)

  function Numbered(text: string, index: nat, total: nat): string {
    text + " " + Decimal(index) + "/" + Decimal(total)
  }

  function NumberPosts(rawPosts: seq<string>): seq<ThreadPost> {
    var total := |rawPosts|;
    seq(total, i requires 0 <= i < total => ThreadPost(i + 1, total, Numbered(rawPosts[i], i + 1, total)))
  }

  /** The text before the last space. */
  function BeforeLastSpace(s: string): string {
    if s == "" then ""
    else if s[|s| - 1] == ' ' then s[..|s| - 1]
    else BeforeLastSpace(s[..|s| - 1])
  }

  lemma {:induction false} BeforeLastSpaceOf(text: string, suffix: string)
    requires ' ' !in suffix
    ensures BeforeLastSpace(text + " " + suffix) == text
  {
    var s := text + " " + suffix;
    if suffix == "" {
      assert s[..|s| - 1] == text;
    } else {
      var m := |suffix| - 1;
      assert s[|s| - 1] == suffix[m];
      assert s[..|s| - 1] == text + " " + suffix[..m];
      BeforeLastSpaceOf(text, suffix[..m]);
    }
  }

  lemma {:induction false} DecimalHasNoSpace(n: nat)
    ensures Decimal(n) != "" && forall i :: 0 <= i < |Decimal(n)| ==> !IsSpace(Decimal(n)[i])
  {
    if n >= 10 {
      DecimalHasNoSpace(n / 10);
    }
  }

  /** A numbered post carries its text: cutting at the last space takes the number off again. */
  lemma NumberComesOff(text: string, index: nat, total: nat)
    ensures BeforeLastSpace(Numbered(text, index, total)) == text
  {
    DecimalHasNoSpace(index);
    DecimalHasNoSpace(total);
    var suffix := Decimal(index) + "/" + Decimal(total);
    assert ' ' !in suffix by {
      assert forall i :: 0 <= i < |suffix| ==> !IsSpace(suffix[i]);
    }
    BeforeLastSpaceOf(text, suffix);
    assert Numbered(text, index, total) == text + " " + suffix;
  }

  function Unnumbered(posts: seq<ThreadPost>): seq<string> {
    seq(|posts|, i requires 0 <= i < |posts| => BeforeLastSpace(posts[i].content))
  }

  function ThreadOf(content: string): seq<ThreadPost> {
    NumberPosts(JoinEach(Pack(Split(content))))
  }

  lemma {:induction false} JoinFlatten(groups: seq<seq<string>>)
    requires forall i :: 0 <= i < |groups| ==> groups[i] != []
    ensures Join(JoinEach(groups)) == Join(Flatten(groups))
    ensures groups != [] ==> Flatten(groups) != []
  {
    if |groups| == 1 {
      assert groups[0] + [] == groups[0];
      assert Flatten(groups[1..]) == [];
    } else if groups != [] {
      JoinFlatten(groups[1..]);
      assert JoinEach(groups)[1..] == JoinEach(groups[1..]);
      JoinConcat(groups[0], Flatten(groups[1..]));
    }
  }

  /** The text after the last space. */
  function AfterLastSpace(s: string): string {
    if s == "" || s[|s| - 1] == ' ' then "" else AfterLastSpace(s[..|s| - 1]) + [s[|s| - 1]]
  }

  lemma {:induction false} AfterLastSpaceOf(text: string, suffix: string)
    requires ' ' !in suffix
    ensures AfterLastSpace(text + " " + suffix) == suffix
  {
    var s := text + " " + suffix;
    if suffix != "" {
      var m := |suffix| - 1;
      assert s[|s| - 1] == suffix[m];
      assert s[..|s| - 1] == text + " " + suffix[..m];
      AfterLastSpaceOf(text, suffix[..m]);
    }
  }

  /** What a number in decimal digits looks like. */
  ghost predicate AllDigits(s: string) {
    s != "" && forall i :: 0 <= i < |s| ==> '0' <= s[i] <= '9'
  }

  lemma {:induction false} DecimalIsDigits(n: nat)
    ensures AllDigits(Decimal(n))
  {
    if n >= 10 {
      DecimalIsDigits(n / 10);
    }
  }

  /** The number a post ends in: its index and the total, in digits, with a slash between. */
  ghost predicate EndsInNumber(content: string, index: nat, total: nat) {
    exists cut: nat ::
      var suffix := AfterLastSpace(content);
      && cut < |suffix| && suffix[cut] == '/'
      && AllDigits(suffix[..cut]) && AllDigits(suffix[cut + 1..])
      && NumberOf(suffix[..cut]) == index && NumberOf(suffix[cut + 1..]) == total
  }

  lemma NumberedEndsInNumber(text: string, index: nat, total: nat)
    ensures EndsInNumber(Numbered(text, index, total), index, total)
  {
    var s := Numbered(text, index, total);
    var suffix := Decimal(index) + "/" + Decimal(total);
    DecimalIsDigits(index);
    DecimalIsDigits(total);
    assert ' ' !in suffix by {
      assert forall i :: 0 <= i < |suffix| ==> suffix[i] != ' ';
    }
    assert s == text + " " + suffix;
    AfterLastSpaceOf(text, suffix);
    DecimalDenotes(index);
    DecimalDenotes(total);
    var cut := |Decimal(index)|;
    assert suffix[..cut] == Decimal(index) && suffix[cut + 1..] == Decimal(total);
  }

  /** Every post of a thread ends in its own position, counted from one, and the number of posts. */
  lemma ThreadIsNumbered(content: string)
    ensures forall i :: 0 <= i < |ThreadOf(content)| ==>
              EndsInNumber(ThreadOf(content)[i].content, i + 1, |ThreadOf(content)|)
  {
    hide Numbered;
    hide EndsInNumber;
    var texts := JoinEach(Pack(Split(content)));
    forall i | 0 <= i < |ThreadOf(content)|
      ensures EndsInNumber(ThreadOf(content)[i].content, i + 1, |ThreadOf(content)|)
    {
      NumberedEndsInNumber(texts[i], i + 1, |texts|);
    }
  }

  /** A thread loses nothing: unnumbered and joined by one space, its posts are the joined sentences. */
  lemma ThreadLosesNothing(content: string)
    ensures Join(Unnumbered(ThreadOf(content))) == Join(Split(content))
    ensures Split(Join(Unnumbered(ThreadOf(content)))) == Split(content)
    ensures forall i :: 0 <= i < |ThreadOf(content)| ==>
              ThreadOf(content)[i].index == i + 1 && ThreadOf(content)[i].total == |ThreadOf(content)|
  {
    hide Numbered;
    hide Pack;
    hide Split;
    hide Join;
    var groups := Pack(Split(content));
    PackIsGrouping(Split(content));
    JoinFlatten(groups);
    var posts := ThreadOf(content);
    forall i | 0 <= i < |posts|
      ensures Unnumbered(posts)[i] == JoinEach(groups)[i]
    {
      NumberComesOff(JoinEach(groups)[i], i + 1, |posts|);
    }
    assert Unnumbered(posts) == JoinEach(groups);
    SplitIsStable(content);
  }
}
