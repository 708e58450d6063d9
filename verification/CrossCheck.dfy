/**
 Cross-checking research claims: `cross_check`, `_overlaps`, `_consistent` and the
 verified/disputed partition of app/research/pipeline.py.
 */
module CrossCheck {
  import opened Outcomes

  /** What a claim says and where it comes from; none of it changes. */
  datatype Finding = Finding(claim: string, url: string, evidence: string)

  /** Lower-casing and the word-character class are the library's and stay parameters. */
  datatype Lexer = Lexer(lower: string -> string, isWord: char -> bool)

  /** The maximal runs of word characters, with `word` the run being read. */
  function Words(isWord: char -> bool, word: string, rest: string): set<string>
    decreases |rest|
  {
    var ended := if word == "" then {} else {word};
    if rest == "" then ended
    else if isWord(rest[0]) then Words(isWord, word + [rest[0]], rest[1..])
    else ended + Words(isWord, "", rest[1..])
  }

  function Tokens(lx: Lexer, text: string): set<string> {
    Words(lx.isWord, "", lx.lower(text))
  }

  /** Positions i to j of a text are word characters, and neither neighbour is one. */
  ghost predicate IsRun(isWord: char -> bool, s: string, i: int, j: int) {
    && 0 <= i < j <= |s| && (forall k :: i <= k < j ==> isWord(s[k]))
    && (i > 0 ==> !isWord(s[i - 1])) && (j < |s| ==> !isWord(s[j]))
  }

  ghost predicate HasRun(isWord: char -> bool, s: string, t: string) {
    exists i, j :: IsRun(isWord, s, i, j) && t == s[i..j]
  }

  /** A text of word characters is its own only run. */
  lemma WholeRun(isWord: char -> bool, word: string, t: string)
    requires forall k :: 0 <= k < |word| ==> isWord(word[k])
    ensures HasRun(isWord, word, t) <==> word != "" && t == word
  {
    if word != "" {
      assert IsRun(isWord, word, 0, |word|) && word[0..|word|] == word;
    }
  }

  /** A run before a character that is not a word character stays one, and is cut off by it. */
  lemma RunBefore(isWord: char -> bool, word: string, c: char, rest: string, i: int, j: int)
    requires !isWord(c) && i <= |word|
    ensures IsRun(isWord, word + [c] + rest, i, j) <==> IsRun(isWord, word, i, j)
    ensures IsRun(isWord, word, i, j) ==> (word + [c] + rest)[i..j] == word[i..j]
  {
    var s := word + [c] + rest;
    assert s[|word|] == c && forall k :: 0 <= k < |word| ==> s[k] == word[k];
  }

  /** A run behind such a character is one of the text behind it, and the other way round. */
  lemma RunOfRest(isWord: char -> bool, s: string, n: nat, i: int, j: int)
    requires 0 < n <= |s| && !isWord(s[n - 1]) && 0 <= i && IsRun(isWord, s, n + i, n + j)
    ensures IsRun(isWord, s[n..], i, j) && s[n..][i..j] == s[n + i..n + j]
  {
    var rest := s[n..];
    assert forall k :: 0 <= k < |rest| ==> rest[k] == s[n + k];
    assert rest[i..j] == s[n + i..n + j];
    forall k | i <= k < j
      ensures isWord(rest[k])
    {
      assert rest[k] == s[n + k];
    }
  }

  lemma RunInWhole(isWord: char -> bool, s: string, n: nat, i: int, j: int)
    requires 0 < n <= |s| && !isWord(s[n - 1]) && IsRun(isWord, s[n..], i, j)
    ensures IsRun(isWord, s, n + i, n + j) && s[n..][i..j] == s[n + i..n + j]
  {
    var rest := s[n..];
    assert forall k :: 0 <= k < |rest| ==> rest[k] == s[n + k];
    assert n + j <= |s| && rest[i..j] == s[n + i..n + j];
    assert !isWord(s[n + i - 1]) by {
      assert i > 0 ==> !isWord(rest[i - 1]);
    }
    assert n + j < |s| ==> !isWord(s[n + j]) by {
      assert j < |rest| ==> !isWord(rest[j]);
    }
    forall k | n + i <= k < n + j
      ensures isWord(s[k])
    {
      assert s[k] == rest[k - n];
    }
  }

  /** The runs before and after a character that is not a word character. */
  lemma RunsApart(isWord: char -> bool, word: string, c: char, rest: string, t: string)
    requires !isWord(c)
    ensures HasRun(isWord, word + [c] + rest, t) <==> HasRun(isWord, word, t) || HasRun(isWord, rest, t)
  {
    hide IsRun;
    var s, n := word + [c] + rest, |word| + 1;
    assert s[n - 1] == c && s[n..] == rest;
    RunsAreInside(isWord, s);
    RunsAreInside(isWord, word);
    RunsAreInside(isWord, rest);
    forall i, j | 0 <= i < j <= |s|
      ensures IsRun(isWord, s, i, j) && t == s[i..j] ==> HasRun(isWord, word, t) || HasRun(isWord, rest, t)
    {
      if i <= |word| {
        RunBefore(isWord, word, c, rest, i, j);
      } else if IsRun(isWord, s, i, j) {
        RunOfRest(isWord, s, n, i - n, j - n);
      }
    }
    forall i, j | 0 <= i < j <= |word|
      ensures IsRun(isWord, word, i, j) && t == word[i..j] ==> HasRun(isWord, s, t)
    {
      RunBefore(isWord, word, c, rest, i, j);
    }
    forall i, j | 0 <= i < j <= |rest|
      ensures IsRun(isWord, rest, i, j) && t == rest[i..j] ==> HasRun(isWord, s, t)
    {
      if IsRun(isWord, rest, i, j) {
        RunInWhole(isWord, s, n, i, j);
      }
    }
  }

  lemma RunsAreInside(isWord: char -> bool, s: string)
    ensures forall i, j :: IsRun(isWord, s, i, j) ==> 0 <= i < j <= |s|
  {
  }

  lemma {:induction false} WordsAreRuns(isWord: char -> bool, word: string, rest: string, t: string)
    requires forall k :: 0 <= k < |word| ==> isWord(word[k])
    ensures t in Words(isWord, word, rest) <==> HasRun(isWord, word + rest, t)
    decreases |rest|
  {
    hide HasRun;
    if rest == "" {
      assert word + rest == word;
      WholeRun(isWord, word, t);
    } else if isWord(rest[0]) {
      assert word + [rest[0]] + rest[1..] == word + rest;
      WordsAreRuns(isWord, word + [rest[0]], rest[1..], t);
    } else {
      assert word + [rest[0]] + rest[1..] == word + rest;
      assert "" + rest[1..] == rest[1..];
      WordsAreRuns(isWord, "", rest[1..], t);
      WholeRun(isWord, word, t);
      RunsApart(isWord, word, rest[0], rest[1..], t);
    }
  }

  /** The tokens of a text are exactly the maximal runs of word characters of its lower-cased form. */
  lemma TokensAreRuns(lx: Lexer, text: string, t: string)
    ensures var s := lx.lower(text);
            t in Tokens(lx, text) <==>
            exists i, j :: && 0 <= i < j <= |s| && t == s[i..j] && (forall k :: i <= k < j ==> lx.isWord(s[k]))
                           && (i == 0 || !lx.isWord(s[i - 1])) && (j == |s| || !lx.isWord(s[j]))
  {
    var s := lx.lower(text);
    assert "" + s == s;
    WordsAreRuns(lx.isWord, "", s, t);
    if i, j :| IsRun(lx.isWord, s, i, j) && t == s[i..j] {
      assert 0 <= i < j <= |s| && (forall k :: i <= k < j ==> lx.isWord(s[k]));
    }
    if i, j :| && 0 <= i < j <= |s| && t == s[i..j] && (forall k :: i <= k < j ==> lx.isWord(s[k]))
               && (i == 0 || !lx.isWord(s[i - 1])) && (j == |s| || !lx.isWord(s[j])) {
      assert IsRun(lx.isWord, s, i, j);
    }
  }

  /** Whether at least `tenths` tenths of the words of either set are in both. */
  predicate Share(a: set<string>, b: set<string>, tenths: nat) {
    10 * |a * b| >= tenths * |a + b|
  }

  predicate Overlaps(lx: Lexer, a: string, b: string) {
    var ta, tb := Tokens(lx, a), Tokens(lx, b);
    ta != {} && tb != {} && Share(ta, tb, 4)
  }

  predicate Consistent(lx: Lexer, a: string, b: string) {
    var ta, tb := Tokens(lx, a), Tokens(lx, b);
    ta == {} || tb == {} || Share(ta, tb, 8)
  }

  /** Two claims from different sources that share a subject but not their evidence. */
  predicate Conflicts(lx: Lexer, a: Finding, b: Finding) {
    a.url != b.url && Overlaps(lx, a.claim, b.claim) && !Consistent(lx, a.evidence, b.evidence)
  }

  /** The share of common words among all words of two token sets. */
  function Jaccard(a: set<string>, b: set<string>): real
    requires a != {} || b != {}
  {
    UnionSize(a, b);
    |a * b| as real / |a + b| as real
  }

  lemma UnionSize(a: set<string>, b: set<string>)
    requires a != {} || b != {}
    ensures |a + b| > 0
  {
    var x :| x in a + b;
  }

  /**
   A conflict: different sources, claims with a Jaccard share of at least 0.4, evidence with one below 0.8, and
   no side without tokens.
   */
  lemma ConflictsExactly(lx: Lexer, a: Finding, b: Finding)
    ensures var ca, cb := Tokens(lx, a.claim), Tokens(lx, b.claim);
            var ea, eb := Tokens(lx, a.evidence), Tokens(lx, b.evidence);
            Conflicts(lx, a, b) <==>
            && a.url != b.url && ca != {} && cb != {} && ea != {} && eb != {}
            && Jaccard(ca, cb) >= 0.4 && Jaccard(ea, eb) < 0.8
  {
    hide Tokens;
    hide Jaccard;
    var ca, cb := Tokens(lx, a.claim), Tokens(lx, b.claim);
    var ea, eb := Tokens(lx, a.evidence), Tokens(lx, b.evidence);
    if ca != {} && cb != {} {
      ShareIsJaccard(ca, cb, 4);
    }
    if ea != {} && eb != {} {
      ShareIsJaccard(ea, eb, 8);
    }
  }

  lemma ShareIsJaccard(a: set<string>, b: set<string>, tenths: nat)
    requires a != {} || b != {}
    ensures Share(a, b, tenths) <==> Jaccard(a, b) >= tenths as real / 10.0
  {
    UnionSize(a, b);
    var common, all, share := |a * b|, |a + b|, Jaccard(a, b);
    assert share * all as real == common as real;
    if share >= tenths as real / 10.0 {
      assert share * all as real >= tenths as real / 10.0 * all as real;
    } else {
      assert share * all as real < tenths as real / 10.0 * all as real;
    }
  }

  lemma ShareSymmetric(a: set<string>, b: set<string>, tenths: nat)
    ensures Share(a, b, tenths) <==> Share(b, a, tenths)
  {
    assert a * b == b * a && a + b == b + a;
  }

  lemma ConflictsSymmetric(lx: Lexer, a: Finding, b: Finding)
    ensures Conflicts(lx, a, b) <==> Conflicts(lx, b, a)
  {
    hide Share;
    hide Tokens;
    ShareSymmetric(Tokens(lx, a.claim), Tokens(lx, b.claim), 4);
    ShareSymmetric(Tokens(lx, a.evidence), Tokens(lx, b.evidence), 8);
  }

  /** Lower-casing invents no text. */
  ghost predicate Sound(lx: Lexer) {
    lx.lower("") == ""
  }

  /** Evidence that conflicts with anything is never empty. */
  lemma ConflictHasEvidence(lx: Lexer, a: Finding, b: Finding)
    requires Sound(lx) && Conflicts(lx, a, b)
    ensures a.evidence != "" && b.evidence != ""
  {
    assert Tokens(lx, "") == {};
  }

  /* ---- What the double loop amounts to ---- */

  /** Whether recorded contradicting evidence counts: neither absent nor empty. */
  predicate Recorded(contradicting: Option<string>) {
    contradicting.Some? && contradicting.value != ""
  }

  /** Position of the first of the first `n` findings that conflicts with `f`, or `n`. */
  function FirstConflict(lx: Lexer, findings: seq<Finding>, f: Finding, n: nat): nat
    requires n <= |findings|
  {
    if n == 0 then 0
    else
      var i := FirstConflict(lx, findings, f, n - 1);
      if i < n - 1 || Conflicts(lx, f, findings[n - 1]) then i else n
  }

  lemma {:induction false} FirstConflictIsFirst(lx: Lexer, findings: seq<Finding>, f: Finding, n: nat)
    requires n <= |findings|
    ensures var i := FirstConflict(lx, findings, f, n);
            && i <= n && (i < n ==> Conflicts(lx, f, findings[i]))
            && forall j :: 0 <= j < i ==> !Conflicts(lx, f, findings[j])
  {
    hide Conflicts;
    if n > 0 {
      FirstConflictIsFirst(lx, findings, f, n - 1);
    }
  }

  /** The evidence a claim holds once the first `n` findings have been held against it. */
  function After(lx: Lexer, findings: seq<Finding>, f: Finding, was: Option<string>, n: nat): Option<string>
    requires n <= |findings|
  {
    var i := FirstConflict(lx, findings, f, n);
    if Recorded(was) || i >= n then was else Some(findings[i].evidence)
  }

  /**
   Evidence that is already there and not empty stays, and so does everything where nothing conflicts; otherwise
   the evidence of the first conflicting finding is taken.
   */
  lemma AfterExactly(lx: Lexer, findings: seq<Finding>, f: Finding, was: Option<string>, k: nat)
    requires k < |findings|
    ensures (was.Some? && was.value != "") || (forall j :: 0 <= j < |findings| ==> !Conflicts(lx, f, findings[j])) ==>
              After(lx, findings, f, was, |findings|) == was
    ensures (was == None || was == Some("")) && Conflicts(lx, f, findings[k])
            && (forall j :: 0 <= j < k ==> !Conflicts(lx, f, findings[j])) ==>
              After(lx, findings, f, was, |findings|) == Some(findings[k].evidence)
  {
    hide Conflicts;
    FirstConflictIsFirst(lx, findings, f, |findings|);
  }

  /** One claim at a time, in order: nothing more changes once evidence is recorded. */
  lemma AfterStep(lx: Lexer, findings: seq<Finding>, f: Finding, was: Option<string>, n: nat)
    requires Sound(lx) && n < |findings|
    ensures var now := After(lx, findings, f, was, n);
            After(lx, findings, f, was, n + 1)
            == if Conflicts(lx, f, findings[n]) && !Recorded(now) then Some(findings[n].evidence) else now
  {
    hide Conflicts;
    FirstConflictIsFirst(lx, findings, f, n);
    FirstConflictIsFirst(lx, findings, f, n + 1);
    var i := FirstConflict(lx, findings, f, n);
    if i < n {
      ConflictHasEvidence(lx, f, findings[i]);
    }
  }

  /** A finding among those already held against a conflicting one has been recorded. */
  lemma AfterRecorded(lx: Lexer, findings: seq<Finding>, f: Finding, was: Option<string>, n: nat, k: nat)
    requires Sound(lx) && k < n <= |findings| && Conflicts(lx, f, findings[k])
    ensures Recorded(After(lx, findings, f, was, n))
  {
    hide Conflicts;
    FirstConflictIsFirst(lx, findings, f, n);
    ConflictHasEvidence(lx, f, findings[FirstConflict(lx, findings, f, n)]);
  }

  /** Cross-checking again changes nothing. */
  lemma AfterIsStable(lx: Lexer, findings: seq<Finding>, f: Finding, was: Option<string>)
    requires Sound(lx)
    ensures var n := |findings|;
            After(lx, findings, f, After(lx, findings, f, was, n), n) == After(lx, findings, f, was, n)
  {
    hide Conflicts;
    FirstConflictIsFirst(lx, findings, f, |findings|);
    var i := FirstConflict(lx, findings, f, |findings|);
    if i < |findings| {
      ConflictHasEvidence(lx, f, findings[i]);
    }
  }

  /* ---- Disputed claims ---- */

  predicate DisputedAfter(lx: Lexer, findings: seq<Finding>, k: nat)
    requires k < |findings|
  {
    Recorded(After(lx, findings, findings[k], None, |findings|))
  }

  /** From a clean start a claim is disputed exactly when some claim conflicts with it. */
  lemma DisputedExactlyWhenInConflict(lx: Lexer, findings: seq<Finding>, k: nat)
    requires Sound(lx) && k < |findings|
    ensures DisputedAfter(lx, findings, k)
            <==> exists j :: 0 <= j < |findings| && Conflicts(lx, findings[k], findings[j])
  {
    hide Conflicts;
    FirstConflictIsFirst(lx, findings, findings[k], |findings|);
    if j :| 0 <= j < |findings| && Conflicts(lx, findings[k], findings[j]) {
      AfterRecorded(lx, findings, findings[k], None, |findings|, j);
    }
  }

  function Disputed(lx: Lexer, findings: seq<Finding>): set<nat> {
    set k: nat | k < |findings| && DisputedAfter(lx, findings, k)
  }

  /** A dispute has at least two sides. */
  lemma NeverOneDisputed(lx: Lexer, findings: seq<Finding>)
    requires Sound(lx)
    ensures |Disputed(lx, findings)| != 1
  {
    hide Conflicts;
    hide DisputedAfter;
    if k :| k in Disputed(lx, findings) {
      DisputedExactlyWhenInConflict(lx, findings, k);
      var j :| 0 <= j < |findings| && Conflicts(lx, findings[k], findings[j]);
      ConflictsSymmetric(lx, findings[k], findings[j]);
      DisputedExactlyWhenInConflict(lx, findings, j);
      NoConflictWithItself(lx, findings[k]);
      SubsetSmaller({j, k}, Disputed(lx, findings));
    }
  }

  lemma NoConflictWithItself(lx: Lexer, f: Finding)
    ensures !Conflicts(lx, f, f)
  {
  }

  lemma SubsetSmaller<T>(a: set<T>, b: set<T>)
    requires a <= b
    ensures |a| <= |b|
  {
    if a != {} {
      var x :| x in a;
      SubsetSmaller(a - {x}, b - {x});
    }
  }

  /* ---- The loops ---- */

  class Claim {
    const finding: Finding
    var contradicting: Option<string>

    constructor (finding: Finding)
      ensures this.finding == finding && contradicting == None
    {
      this.finding, contradicting := finding, None;
    }
  }

  function Findings(claims: seq<Claim>): seq<Finding> {
    seq(|claims|, i requires 0 <= i < |claims| => claims[i].finding)
  }

  /**
   How many findings have been held against a claim when the loops stand at (i, j): all of them once
   the claim has been the outer one; as the outer one, those before i and those before j; otherwise
   those before i, and claims[i] too once the inner loop has passed the claim.
   */
  function HeldAgainst(claims: seq<Claim>, c: Claim, i: nat, j: nat): nat
    requires i < |claims| && j <= |claims|
  {
    if c in claims[..i] then |claims|
    else if c == claims[i] then (if i < j then j else i)
    else if c in claims[..j] then i + 1
    else i
  }

  lemma AfterNone(lx: Lexer, findings: seq<Finding>, f: Finding, was: Option<string>)
    ensures After(lx, findings, f, was, 0) == was
  {
  }

  /** One turn of the inner loop, as each claim sees it. */
  lemma PairStep(lx: Lexer, claims: seq<Claim>, c: Claim, was: Option<string>, i: nat, j: nat)
    requires Sound(lx) && c in claims && i < |claims| && j < |claims|
    ensures var findings := Findings(claims);
            var now := After(lx, findings, c.finding, was, HeldAgainst(claims, c, i, j));
            After(lx, findings, c.finding, was, HeldAgainst(claims, c, i, j + 1))
            == if Recorded(now) then now
               else if c == claims[i] && Conflicts(lx, c.finding, findings[j]) then Some(findings[j].evidence)
               else if c == claims[j] && Conflicts(lx, c.finding, findings[i]) then Some(findings[i].evidence)
               else now
  {
    hide Conflicts;
    hide After;
    var findings, n := Findings(claims), |claims|;
    NoConflictWithItself(lx, c.finding);
    assert claims[..j + 1] == claims[..j] + [claims[j]];
    AfterStep(lx, findings, c.finding, was, i);
    AfterStep(lx, findings, c.finding, was, j);
    var held := HeldAgainst(claims, c, i, j);
    if c == claims[i] && j < held && Conflicts(lx, c.finding, findings[j]) {
      AfterRecorded(lx, findings, c.finding, was, held, j);
    }
    if c == claims[j] && i < held && Conflicts(lx, c.finding, findings[i]) {
      AfterRecorded(lx, findings, c.finding, was, held, i);
    }
  }

  method CrossCheckClaims(lx: Lexer, claims: seq<Claim>)
    requires Sound(lx)
    modifies claims
    ensures forall c :: c in claims ==>
              c.contradicting == After(lx, Findings(claims), c.finding, old(c.contradicting), |claims|)
  {
    hide After;
    hide Overlaps;
    hide Consistent;
    var findings := Findings(claims);
    forall c | c in claims
      ensures c.contradicting == After(lx, findings, c.finding, c.contradicting, 0)
    {
      AfterNone(lx, findings, c.finding, c.contradicting);
    }
    for i := 0 to |claims|
      invariant forall c :: c in claims ==>
                  c.contradicting == After(lx, findings, c.finding, old(c.contradicting),
                                           if c in claims[..i] then |claims| else i)
    {
      var a := claims[i];
      for j := 0 to |claims|
        invariant forall c :: c in claims ==>
                    c.contradicting
                    == After(lx, findings, c.finding, old(c.contradicting), HeldAgainst(claims, c, i, j))
      {
        var b := claims[j];
        ConflictsSymmetric(lx, a.finding, b.finding);
        if a != b && a.finding.url != b.finding.url
           && Overlaps(lx, a.finding.claim, b.finding.claim)
           && !Consistent(lx, a.finding.evidence, b.finding.evidence) {
          if !Recorded(a.contradicting) {
            a.contradicting := Some(b.finding.evidence);
          }
          if !Recorded(b.contradicting) {
            b.contradicting := Some(a.finding.evidence);
          }
        }
        forall c | c in claims
          ensures c.contradicting
                  == After(lx, findings, c.finding, old(c.contradicting), HeldAgainst(claims, c, i, j + 1))
        {
          PairStep(lx, claims, c, old(c.contradicting), i, j);
        }
      }
    }
  }
}
