/**
 Sentence splitting: `_split_into_sentences` of app/tools/builtin/content.py.

 Text is cut at every run of whitespace that follows '.', '!' or '?'.  The result is shown to be
 a normal form: it keeps every non-whitespace character in order, and re-splitting the sentences
 joined by single spaces gives the same sentences back.
 */
module Sentences {

  /** The characters `str.strip` and the regular expression class \s treat as whitespace. */
  predicate IsSpace(c: char) {
    var u := c as int;
    || 0x09 <= u <= 0x0D || 0x1C <= u <= 0x20 || u == 0x85 || u == 0xA0 || u == 0x1680
    || 0x2000 <= u <= 0x200A || u == 0x2028 || u == 0x2029 || u == 0x202F || u == 0x205F || u == 0x3000
  }

  predicate IsTerminator(c: char) {
    c == '.' || c == '!' || c == '?'
  }

  function StripLeft(s: string): string {
    if s != "" && IsSpace(s[0]) then StripLeft(s[1..]) else s
  }

  function StripRight(s: string): string {
    if s != "" && IsSpace(s[|s| - 1]) then StripRight(s[..|s| - 1]) else s
  }

  function Strip(s: string): string {
    StripRight(StripLeft(s))
  }

  /** The regular-expression split, scanning left to right: `piece` is the text since the last cut. */
  function Cut(piece: string, rest: string): (pieces: seq<string>)
    ensures pieces != []
    decreases |rest|
  {
    if rest == "" then [piece]
    else if piece != "" && IsTerminator(piece[|piece| - 1]) && IsSpace(rest[0]) then
      StripLeftShorter(rest);
      [piece] + Cut("", StripLeft(rest))
    else Cut(piece + [rest[0]], rest[1..])
  }

  lemma {:induction false} StripLeftShorter(s: string)
    ensures |StripLeft(s)| <= |s|
    ensures s != "" && IsSpace(s[0]) ==> |StripLeft(s)| < |s|
    ensures StripLeft(s) != "" ==> !IsSpace(StripLeft(s)[0])
  {
    if s != "" {
      StripLeftShorter(s[1..]);
    }
  }

  /** The stripped, non-empty pieces. */
  function Kept(pieces: seq<string>): seq<string> {
    if pieces == [] then []
    else
      var s := Strip(pieces[0]);
      (if s != "" then [s] else []) + Kept(pieces[1..])
  }

  function Split(text: string): seq<string> {
    Kept(Cut("", Strip(text)))
  }

  function Join(parts: seq<string>): string {
    if parts == [] then ""
    else if |parts| == 1 then parts[0]
    else parts[0] + " " + Join(parts[1..])
  }

  /* ---- The normal form ---- */

  ghost predicate Trimmed(s: string) {
    s != "" && !IsSpace(s[0]) && !IsSpace(s[|s| - 1])
  }

  ghost predicate NoInnerCut(s: string) {
    forall i :: 0 <= i < |s| - 1 ==> !(IsTerminator(s[i]) && IsSpace(s[i + 1]))
  }

  ghost predicate IsSentence(s: string) {
    Trimmed(s) && NoInnerCut(s)
  }

  ghost predicate EndsSentence(s: string) {
    s != "" && IsTerminator(s[|s| - 1])
  }

  /** Sentences that only the last of may lack a terminator. */
  ghost predicate Normal(sentences: seq<string>) {
    && (forall i :: 0 <= i < |sentences| ==> IsSentence(sentences[i]))
    && (forall i :: 0 <= i < |sentences| - 1 ==> EndsSentence(sentences[i]))
  }

  lemma TrimmedStrips(s: string)
    requires Trimmed(s)
    ensures Strip(s) == s
  {
  }

  lemma {:induction false} StripRightEnds(s: string)
    ensures StripRight(s) <= s
    ensures StripRight(s) != "" ==> !IsSpace(StripRight(s)[|StripRight(s)| - 1])
    ensures s != "" && !IsSpace(s[0]) ==> StripRight(s) != ""
  {
    if s != "" && IsSpace(s[|s| - 1]) {
      StripRightEnds(s[..|s| - 1]);
    }
  }

  lemma StripTrims(s: string)
    ensures Strip(s) == "" || Trimmed(Strip(s))
  {
    StripLeftShorter(s);
    StripRightEnds(StripLeft(s));
  }

  /** Cutting text that ends in a non-space character, after a piece without a cut, is normal. */
  lemma {:induction false} CutIsNormal(piece: string, rest: string)
    requires NoInnerCut(piece) && (piece != "" ==> !IsSpace(piece[0]))
    requires piece == "" && rest != "" ==> !IsSpace(rest[0])
    requires piece + rest != "" ==> !IsSpace((piece + rest)[|piece + rest| - 1])
    ensures piece + rest == "" ==> Cut(piece, rest) == [""]
    ensures piece + rest != "" ==> Normal(Cut(piece, rest))
    decreases |rest|
  {
    if rest == "" {
      assert piece + rest == piece;
    } else if piece != "" && IsTerminator(piece[|piece| - 1]) && IsSpace(rest[0]) {
      StripLeftShorter(rest);
      StripLeftSuffix(rest);
      assert "" + StripLeft(rest) == StripLeft(rest);
      CutIsNormal("", StripLeft(rest));
      NormalCons(piece, Cut("", StripLeft(rest)));
    } else {
      assert piece + [rest[0]] + rest[1..] == piece + rest;
      assert NoInnerCut(piece + [rest[0]]);
      CutIsNormal(piece + [rest[0]], rest[1..]);
    }
  }

  lemma NormalCons(first: string, others: seq<string>)
    requires IsSentence(first) && EndsSentence(first) && Normal(others)
    ensures Normal([first] + others)
  {
  }

  /** Stripping on the left keeps a suffix, which is empty only when everything was whitespace. */
  lemma {:induction false} StripLeftSuffix(s: string)
    ensures var t := StripLeft(s); |t| <= |s| && s[|s| - |t|..] == t
    ensures s != "" && !IsSpace(s[|s| - 1]) ==> StripLeft(s) != "" && StripLeft(s)[|StripLeft(s)| - 1] == s[|s| - 1]
  {
    if s != "" && IsSpace(s[0]) {
      StripLeftSuffix(s[1..]);
      assert s[1..][|s[1..]| - |StripLeft(s)|..] == s[|s| - |StripLeft(s)|..];
    }
  }

  lemma {:induction false} NormalIsKept(sentences: seq<string>)
    requires forall i :: 0 <= i < |sentences| ==> Trimmed(sentences[i])
    ensures Kept(sentences) == sentences
  {
    if sentences != [] {
      TrimmedStrips(sentences[0]);
      NormalIsKept(sentences[1..]);
    }
  }

  /** Every text splits into a normal list. */
  lemma SplitIsNormal(text: string)
    ensures Normal(Split(text))
    ensures Strip(text) != "" ==> Split(text) == Cut("", Strip(text)) && Split(text) != []
    ensures Strip(text) == "" ==> Split(text) == []
  {
    hide NoInnerCut;
    var s := Strip(text);
    StripTrims(text);
    assert "" + s == s;
    CutIsNormal("", s);
    if s != "" {
      NormalIsKept(Cut("", s));
    } else {
      assert Kept([""]) == [];
    }
  }

  /* ---- Round trip ---- */

  /** Scanning past text without a cut only moves it into the piece. */
  lemma {:induction false} CutPasses(piece: string, passed: string, rest: string)
    requires NoInnerCut(piece + passed) && piece + passed != ""
    ensures Cut(piece, passed + rest) == Cut(piece + passed, rest)
    decreases |passed|
  {
    if passed == "" {
      assert passed + rest == rest && piece + passed == piece;
    } else {
      assert (passed + rest)[1..] == passed[1..] + rest;
      assert piece + [passed[0]] + passed[1..] == piece + passed;
      assert piece != "" ==> (piece + passed)[|piece| - 1] == piece[|piece| - 1];
      assert (piece + passed)[|piece|] == passed[0];
      CutPasses(piece + [passed[0]], passed[1..], rest);
    }
  }

  /** A sentence, a whitespace character and more text are cut exactly there. */
  lemma CutAfterSentence(first: string, space: char, tail: string)
    requires IsSentence(first) && EndsSentence(first) && IsSpace(space) && Trimmed(tail)
    ensures Cut("", first + ([space] + tail)) == [first] + Cut("", tail)
  {
    var rest := [space] + tail;
    assert "" + first == first;
    CutPasses("", first, rest);
    assert rest[1..] == tail;
    assert StripLeft(tail) == tail;
    assert StripLeft(rest) == tail;
    assert Cut(first, rest) == [first] + Cut("", StripLeft(rest));
  }

  lemma {:induction false} CutOfJoin(sentences: seq<string>)
    requires Normal(sentences) && sentences != []
    ensures Cut("", Join(sentences)) == sentences
  {
    var first := sentences[0];
    if |sentences| == 1 {
      assert "" + first == first && first + "" == first;
      CutPasses("", first, "");
    } else {
      JoinTrimmed(sentences[1..]);
      CutAfterSentence(first, ' ', Join(sentences[1..]));
      assert Join(sentences) == first + (" " + Join(sentences[1..]));
      CutOfJoin(sentences[1..]);
    }
  }

  lemma {:induction false} JoinTrimmed(sentences: seq<string>)
    requires sentences != [] && forall i :: 0 <= i < |sentences| ==> Trimmed(sentences[i])
    ensures Trimmed(Join(sentences))
  {
    if |sentences| > 1 {
      JoinTrimmed(sentences[1..]);
    }
  }

  /** Splitting the space-joined sentences of a normal list gives the list back. */
  lemma SplitOfJoin(sentences: seq<string>)
    requires Normal(sentences)
    ensures Split(Join(sentences)) == sentences
  {
    if sentences != [] {
      JoinTrimmed(sentences);
      TrimmedStrips(Join(sentences));
      CutOfJoin(sentences);
      NormalIsKept(sentences);
    } else {
      assert Kept([""]) == [];
    }
  }

  /** Splitting is idempotent up to joining: the sentences are a normal form of the text. */
  lemma SplitIsStable(text: string)
    ensures Split(Join(Split(text))) == Split(text)
  {
    SplitIsNormal(text);
    SplitOfJoin(Split(text));
  }

  /** A sentence end followed by white space is where a text is cut; what follows is split on its own. */
  lemma SplitsAfterSentence(first: string, end: char, space: char, tail: string)
    requires IsSentence(first) && first[|first| - 1] == end && (end == '.' || end == '!' || end == '?')
    requires space == ' ' || space == '\n' || space == '\t' || space == '\r'
    requires Trimmed(tail)
    ensures Split(first + [space] + tail) == [first] + Split(tail)
  {
    var text := first + [space] + tail;
    TrimmedStrips(text);
    TrimmedStrips(tail);
    TrimmedStrips(first);
    CutAfterSentence(first, space, tail);
    assert text == first + ([space] + tail);
  }

  /** A text without any of the three sentence ends is one sentence. */
  lemma OneSentenceWithoutEnd(text: string)
    requires Trimmed(text) && forall i :: 0 <= i < |text| ==> text[i] != '.' && text[i] != '!' && text[i] != '?'
    ensures Split(text) == [text]
  {
    assert Normal([text]);
    assert Join([text]) == text;
    SplitOfJoin([text]);
  }

  /** The white space of Unicode: nine ASCII controls, the space, and 19 characters beyond ASCII. */
  lemma WhiteSpaceExactly(c: char)
    ensures IsSpace(c) <==>
            c as int in {
              0x09, 0x0A, 0x0B, 0x0C, 0x0D, 0x1C, 0x1D, 0x1E, 0x1F, 0x20, 0x85, 0xA0, 0x1680,
              0x2000, 0x2001, 0x2002, 0x2003, 0x2004, 0x2005, 0x2006, 0x2007, 0x2008, 0x2009, 0x200A,
              0x2028, 0x2029, 0x202F, 0x205F, 0x3000
            }
  {
  }

  /* ---- Conservation ---- */

  /** The non-whitespace characters of a text, in order. */
  function Ink(s: string): string {
    if s == "" then "" else (if IsSpace(s[0]) then "" else [s[0]]) + Ink(s[1..])
  }

  function InkOfAll(parts: seq<string>): string {
    if parts == [] then "" else Ink(parts[0]) + InkOfAll(parts[1..])
  }

  lemma {:induction false} InkConcat(a: string, b: string)
    ensures Ink(a + b) == Ink(a) + Ink(b)
  {
    if a == "" {
      assert a + b == b;
    } else {
      assert (a + b)[1..] == a[1..] + b;
      InkConcat(a[1..], b);
    }
  }

  lemma {:induction false} StripKeepsInk(s: string)
    ensures Ink(StripLeft(s)) == Ink(s)
    ensures Ink(StripRight(s)) == Ink(s)
  {
    if s != "" && IsSpace(s[0]) {
      StripKeepsInk(s[1..]);
    }
    if s != "" && IsSpace(s[|s| - 1]) {
      StripKeepsInk(s[..|s| - 1]);
      assert s == s[..|s| - 1] + [s[|s| - 1]];
      InkConcat(s[..|s| - 1], [s[|s| - 1]]);
      assert Ink([s[|s| - 1]]) == "";
    }
  }

  lemma {:induction false} CutKeepsInk(piece: string, rest: string)
    ensures InkOfAll(Cut(piece, rest)) == Ink(piece) + Ink(rest)
    decreases |rest|
  {
    if rest == "" {
      assert InkOfAll([piece]) == Ink(piece) + InkOfAll([]);
    } else if piece != "" && IsTerminator(piece[|piece| - 1]) && IsSpace(rest[0]) {
      StripLeftShorter(rest);
      StripKeepsInk(rest);
      CutKeepsInk("", StripLeft(rest));
    } else {
      CutKeepsInk(piece + [rest[0]], rest[1..]);
      InkConcat(piece, [rest[0]]);
      InkConcat([rest[0]], rest[1..]);
      assert [rest[0]] + rest[1..] == rest;
    }
  }

  /** The sentences carry exactly the text's non-whitespace characters, in order. */
  lemma SplitKeepsInk(text: string)
    ensures InkOfAll(Split(text)) == Ink(text)
  {
    SplitIsNormal(text);
    StripKeepsInk(text);
    StripKeepsInk(StripLeft(text));
    CutKeepsInk("", Strip(text));
  }
}
