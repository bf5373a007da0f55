/** Tidying a model's answer into a subject line (server/src/digest.rs). */
module Gist {
  import opened Truncation

  predicate Quote(c: char) {
    c == '"' || c == '\'' || c == '`'
  }

  predicate Punctuation(c: char) {
    c == '.' || c == '!' || c == '?' || c == ':'
  }

  /** What is taken off the front, and what is taken off the end. */
  predicate Front(c: char) {
    White(c) || Quote(c)
  }

  predicate Back(c: char) {
    White(c) || Quote(c) || Punctuation(c)
  }

  function DropStart(s: string, p: char -> bool): (t: string)
    ensures |t| <= |s| && t == s[|s| - |t|..] && (t != "" ==> !p(t[0]))
    ensures forall k :: 0 <= k < |s| - |t| ==> p(s[k])
  {
    if s == "" || !p(s[0]) then s else DropStart(s[1..], p)
  }

  function DropEnd(s: string, p: char -> bool): (t: string)
    ensures t <= s && (t != "" ==> !p(t[|t| - 1]))
    ensures forall k :: |t| <= k < |s| ==> p(s[k])
  {
    if s == "" || !p(s[|s| - 1]) then s else DropEnd(s[..|s| - 1], p)
  }

  /** The first line that is not blank, without the whitespace around it. */
  function FirstLine(raw: string): string
    decreases |raw|
  {
    var line := UpToNewline(raw);
    if Trim(line) != "" || |line| == |raw| then Trim(line) else FirstLine(raw[|line| + 1..])
  }

  function UpToNewline(s: string): (t: string)
    ensures |t| <= |s| && t == s[..|t|] && '\n' !in t && (|t| < |s| ==> s[|t|] == '\n')
  {
    if s == "" || s[0] == '\n' then "" else [s[0]] + UpToNewline(s[1..])
  }

  const MaxGist := 120

  /** `t` is `s` from `i` to `j`, with nothing else cut off than what may be. */
  predicate CutFrom(s: string, i: nat, j: nat) {
    i <= j <= |s| && (forall k :: 0 <= k < i ==> Front(s[k])) && forall k :: j <= k < |s| ==> Back(s[k])
  }

  /** Cutting more off the front. */
  lemma FrontCut(s: string, i: nat, j: nat, line: string, t: string) returns (i': nat)
    requires i <= j <= |s| && CutFrom(s, i, j) && line == s[i..j] && |t| <= |line| && t == line[|line| - |t|..]
    requires forall k :: 0 <= k < |line| - |t| ==> Front(line[k])
    ensures i <= i' <= j && CutFrom(s, i', j) && t == s[i'..j]
  {
    i' := j - |t|;
    forall k | i <= k < i'
      ensures Front(s[k])
    {
      assert line[k - i] == s[k];
    }
  }

  /** Cutting more off the end. */
  lemma BackCut(s: string, i: nat, j: nat, line: string, t: string) returns (j': nat)
    requires i <= j <= |s| && CutFrom(s, i, j) && line == s[i..j] && t <= line
    requires forall k :: |t| <= k < |line| ==> Back(line[k])
    ensures i <= j' <= j && CutFrom(s, i, j') && t == s[i..j']
  {
    j' := i + |t|;
    forall k | j' <= k < j
      ensures Back(s[k])
    {
      assert line[k - i] == s[k];
    }
  }

  /** Whitespace off both ends. */
  method TrimBoth(line: string, ghost s: string, ghost i: nat, ghost j: nat) returns (t: string, ghost i': nat, ghost j': nat)
    requires i <= j <= |s| && CutFrom(s, i, j) && line == s[i..j]
    ensures i' <= j' <= |s| && CutFrom(s, i', j') && t == s[i'..j']
    ensures |t| <= |line| && (|t| == |line| ==> t == line) && (t != "" ==> !White(t[0]) && !White(t[|t| - 1]))
  {
    hide CutFrom, White, Quote, Punctuation, TrimStart, TrimEnd;
    var a := TrimStart(line);
    i' := FrontCut(s, i, j, line, a);
    t := TrimEnd(a);
    j' := BackCut(s, i', j, a, t);
  }

  /** Quotation marks off both ends. */
  method Unquote(line: string, ghost s: string, ghost i: nat, ghost j: nat) returns (t: string, ghost i': nat, ghost j': nat)
    requires i <= j <= |s| && CutFrom(s, i, j) && line == s[i..j]
    ensures i' <= j' <= |s| && CutFrom(s, i', j') && t == s[i'..j']
    ensures |t| <= |line| && (|t| == |line| ==> t == line) && (t != "" ==> !Quote(t[|t| - 1]))
    ensures t == line && t != "" ==> !Quote(t[0])
  {
    hide CutFrom, White, Quote, Punctuation, DropStart, DropEnd;
    var a := DropStart(line, Quote);
    assert |a| == |line| ==> a == line;
    i' := FrontCut(s, i, j, line, a);
    t := DropEnd(a, Quote);
    assert |t| == |a| ==> t == a;
    j' := BackCut(s, i', j, a, t);
  }

  /** One round: quotation marks, whitespace, punctuation at the end, whitespace. */
  method Round(line: string, ghost s: string, ghost i: nat, ghost j: nat) returns (t: string, ghost i': nat, ghost j': nat)
    requires i <= j <= |s| && CutFrom(s, i, j) && line == s[i..j]
    ensures i' <= j' <= |s| && CutFrom(s, i', j') && t == s[i'..j']
    ensures |t| <= |line| && (|t| == |line| ==> t == line)
    ensures t == line && t != "" ==> !Front(t[0]) && !Back(t[|t| - 1])
  {
    hide CutFrom, White, Quote, Punctuation, DropEnd;
    var a, b;
    a, i', j' := Unquote(line, s, i, j);
    b, i', j' := TrimBoth(a, s, i', j');
    var c := DropEnd(b, Punctuation);
    j' := BackCut(s, i', j', b, c);
    t, i', j' := TrimBoth(c, s, i', j');
  }

  /** Everything that may be cut off, in one go. */
  function Stripped(s: string): string {
    DropEnd(DropStart(s, Front), Back)
  }

  lemma {:induction false} DropStartExactly(s: string, p: char -> bool, n: nat)
    requires n < |s| && !p(s[n]) && forall k :: 0 <= k < n ==> p(s[k])
    ensures DropStart(s, p) == s[n..]
  {
    if n > 0 {
      DropStartExactly(s[1..], p, n - 1);
      assert s[1..][n - 1..] == s[n..];
    }
  }

  lemma {:induction false} DropEndExactly(s: string, p: char -> bool, n: nat)
    requires n <= |s| && (n > 0 ==> !p(s[n - 1])) && forall k :: n <= k < |s| ==> p(s[k])
    ensures DropEnd(s, p) == s[..n]
    decreases |s|
  {
    if n < |s| {
      DropEndExactly(s[..|s| - 1], p, n);
      assert s[..|s| - 1][..n] == s[..n];
    }
  }

  lemma AllBack(s: string, i: nat, n: nat)
    requires i <= |s| && n <= |s| && CutFrom(s, i, i)
    ensures forall k :: 0 <= k < |s| - n ==> Back(s[n..][k])
  {
    forall k | 0 <= k < |s| - n
      ensures Back(s[n..][k])
    {
      assert s[n..][k] == s[n + k];
    }
  }

  lemma AllCut(s: string, i: nat)
    requires i <= |s| && CutFrom(s, i, i)
    ensures Stripped(s) == ""
  {
    hide CutFrom, Front, Back, DropStart, DropEnd;
    var a := DropStart(s, Front);
    AllBack(s, i, |s| - |a|);
    DropEndExactly(a, Back, 0);
  }

  lemma FrontCutOff(s: string, i: nat, j: nat)
    requires i < j <= |s| && CutFrom(s, i, j) && !Front(s[i])
    ensures DropStart(s, Front) == s[i..]
  {
    hide Front, Back, DropStart;
    DropStartExactly(s, Front, i);
  }

  lemma BackCutOff(s: string, i: nat, j: nat)
    requires i < j <= |s| && CutFrom(s, i, j) && !Back(s[j - 1])
    ensures DropEnd(s[i..], Back) == s[i..j]
  {
    hide Front, Back, DropEnd;
    var a, n := s[i..], j - i;
    assert a[n - 1] == s[j - 1];
    forall k | n <= k < |a|
      ensures Back(a[k])
    {
      assert a[k] == s[i + k];
    }
    DropEndExactly(a, Back, n);
    assert a[..n] == s[i..j];
  }

  /** A cut that leaves nothing to cut off is the whole cut. */
  lemma FullyCut(s: string, i: nat, j: nat)
    requires i <= j <= |s| && CutFrom(s, i, j) && (i < j ==> !Front(s[i]) && !Back(s[j - 1]))
    ensures s[i..j] == Stripped(s)
  {
    hide CutFrom, Front, Back, DropStart, DropEnd;
    if i < j {
      FrontCutOff(s, i, j);
      BackCutOff(s, i, j);
    } else {
      AllCut(s, i);
    }
  }

  lemma NothingCut(s: string)
    ensures CutFrom(s, 0, |s|) && s[0..|s|] == s
  {
  }

  lemma Ends(s: string, i: nat, j: nat, t: string)
    requires i <= j <= |s| && CutFrom(s, i, j) && t == s[i..j] && (t != "" ==> !Front(t[0]) && !Back(t[|t| - 1]))
    ensures t == Stripped(s)
  {
    FullyCut(s, i, j);
  }

  /**
   The rounds end, and together take off exactly what one pass would: all whitespace and quotation
   marks in front, and all whitespace, quotation marks and closing punctuation at the end, however mixed.
   */
  method CleanGist(raw: string) returns (gist: string)
    ensures gist == if |Stripped(FirstLine(raw))| <= MaxGist then Stripped(FirstLine(raw)) else Stripped(FirstLine(raw))[..MaxGist]
  {
    hide CutFrom, Front, Back, FirstLine, Stripped;
    var line := FirstLine(raw);
    NothingCut(line);
    ghost var s, i: nat, j: nat := line, 0, |line|;
    while true
      invariant i <= j <= |s| && CutFrom(s, i, j) && line == s[i..j]
      decreases |line|
    {
      var before := line;
      line, i, j := Round(line, s, i, j);
      if line == before {
        break;
      }
    }
    Ends(s, i, j, line);
    return if |line| <= MaxGist then line else line[..MaxGist];
  }
}
