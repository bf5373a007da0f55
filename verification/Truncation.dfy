/** Cutting a message down to a snippet's length (server/src/digest.rs). */
module Truncation {
  /** The Unicode White_Space property. */
  predicate White(c: char) {
    var n := c as int;
    || 0x9 <= n <= 0xD || n == 0x20 || n == 0x85 || n == 0xA0 || n == 0x1680 || 0x2000 <= n <= 0x200A
    || n == 0x2028 || n == 0x2029 || n == 0x202F || n == 0x205F || n == 0x3000
  }

  /** Bytes of a character in UTF-8. */
  function Width(c: char): (w: nat)
    ensures 1 <= w <= 4
  {
    var n := c as int;
    if n < 0x80 then 1 else if n < 0x800 then 2 else if n < 0x1_0000 then 3 else 4
  }

  function Size(s: string): nat {
    if s == "" then 0 else Width(s[0]) + Size(s[1..])
  }

  /** Whether byte `i` starts a character or ends the text. */
  predicate CharBoundary(s: string, i: nat)
    decreases s
  {
    i == 0 || (s != "" && Width(s[0]) <= i && CharBoundary(s[1..], i - Width(s[0])))
  }

  /** The first `i` bytes, which have to end on a character boundary. */
  function SliceTo(s: string, i: nat): (p: string)
    requires CharBoundary(s, i)
    ensures p <= s && Size(p) == i
    decreases s
  {
    if i == 0 then "" else [s[0]] + SliceTo(s[1..], i - Width(s[0]))
  }

  function TrimEnd(s: string): (t: string)
    ensures t <= s && (t != "" ==> !White(t[|t| - 1]))
    ensures forall k :: |t| <= k < |s| ==> White(s[k])
  {
    if s == "" || !White(s[|s| - 1]) then s else TrimEnd(s[..|s| - 1])
  }

  function TrimStart(s: string): (t: string)
    ensures |t| <= |s| && t == s[|s| - |t|..] && (t != "" ==> !White(t[0]))
    ensures forall k :: 0 <= k < |s| - |t| ==> White(s[k])
  {
    if s == "" || !White(s[0]) then s else TrimStart(s[1..])
  }

  function Trim(s: string): string {
    TrimEnd(TrimStart(s))
  }

  lemma {:induction false} SizeConcat(a: string, b: string)
    ensures Size(a + b) == Size(a) + Size(b)
  {
    if a == "" {
      assert a + b == b;
    } else {
      assert (a + b)[1..] == a[1..] + b;
      SizeConcat(a[1..], b);
    }
  }

  /** A longer prefix takes more bytes. */
  lemma SizeGrows(s: string, m: nat, n: nat)
    requires m <= n <= |s|
    ensures Size(s[..m]) + Size(s[m..n]) == Size(s[..n])
    ensures m < n ==> Size(s[..m]) < Size(s[..n])
  {
    assert s[..n] == s[..m] + s[m..n];
    SizeConcat(s[..m], s[m..n]);
  }

  /** The character boundaries are where the prefixes end. */
  lemma {:induction false} PrefixBoundary(s: string, n: nat)
    requires n <= |s|
    ensures CharBoundary(s, Size(s[..n])) && SliceTo(s, Size(s[..n])) == s[..n]
  {
    if n > 0 {
      assert s[..n][1..] == s[1..][..n - 1];
      PrefixBoundary(s[1..], n - 1);
    }
  }

  // ----- where to cut -----

  /** The end of a chunk, a word with the whitespace character that follows it, or the beginning. */
  predicate ChunkEnd(s: string, n: nat)
    requires n <= |s|
  {
    n == 0 || n == |s| || White(s[n - 1])
  }

  /** The end of the chunk that starts at `i`. */
  function NextEnd(s: string, i: nat): (n: nat)
    requires i < |s|
    ensures i < n <= |s| && ChunkEnd(s, n)
    ensures forall m :: i < m < n ==> !ChunkEnd(s, m)
    decreases |s| - i
  {
    if White(s[i]) || i + 1 == |s| then i + 1 else NextEnd(s, i + 1)
  }

  predicate Fits(s: string, max: nat, n: nat)
    requires n <= |s|
  {
    Size(s[..n]) <= max
  }

  /** The last chunk end that fits. */
  ghost predicate LastChunkEnd(s: string, max: nat, n: nat) {
    n <= |s| && ChunkEnd(s, n) && Fits(s, max, n) && forall m :: n < m <= |s| && ChunkEnd(s, m) ==> !Fits(s, max, m)
  }

  /** The longest prefix that fits. */
  ghost predicate LongestFit(s: string, max: nat, p: string) {
    p <= s && Size(p) <= max && forall m :: |p| < m <= |s| ==> !Fits(s, max, m)
  }

  lemma NoLaterChunkFits(s: string, max: nat, n: nat, end: nat)
    requires n < end <= |s| && Fits(s, max, n) && ChunkEnd(s, n) && !Fits(s, max, end)
    requires forall m :: n < m < end ==> !ChunkEnd(s, m)
    ensures LastChunkEnd(s, max, n)
  {
    forall m | n < m <= |s| && ChunkEnd(s, m)
      ensures !Fits(s, max, m)
    {
      SizeGrows(s, end, m);
    }
  }

  /** No character boundary between the cut and the limit: the cut is the longest prefix that fits. */
  lemma HardCutIsLongest(s: string, max: nat, i: nat)
    requires CharBoundary(s, i) && i <= max
    requires forall j :: i < j <= max ==> !CharBoundary(s, j)
    ensures LongestFit(s, max, SliceTo(s, i))
  {
    var p := SliceTo(s, i);
    forall m | |p| < m <= |s|
      ensures !Fits(s, max, m)
    {
      SizeGrows(s, |p|, m);
      assert s[..|p|] == p;
      PrefixBoundary(s, m);
    }
  }

  /** Back from the limit to the end of a character. */
  method HardCut(s: string, max: nat) returns (cut: string)
    ensures LongestFit(s, max, cut)
  {
    var i := max;
    while !CharBoundary(s, i)
      invariant 0 <= i <= max
      invariant forall j :: i < j <= max ==> !CharBoundary(s, j)
      decreases i
    {
      i := i - 1;
    }
    HardCutIsLongest(s, max, i);
    return SliceTo(s, i);
  }

  /** The chunk loop: how many bytes of whole chunks fit. */
  method LastFit(s: string, max: nat) returns (lastFit: nat)
    requires Size(s) > max
    ensures exists n: nat :: LastChunkEnd(s, max, n) && lastFit == Size(s[..n])
  {
    assert s[..|s|] == s;
    lastFit := 0;
    var acc, start := 0, 0;
    while start < |s|
      invariant start <= |s| && ChunkEnd(s, start)
      invariant lastFit == acc == Size(s[..start]) <= max
    {
      var end := NextEnd(s, start);
      var next := acc + Size(s[start..end]);
      SizeGrows(s, start, end);
      if next > max {
        NoLaterChunkFits(s, max, start, end);
        return;
      }
      acc := next;
      lastFit := acc;
      start := end;
    }
  }

  /** How a text that does not fit is cut, given the last chunk end that fits. */
  ghost predicate CutFrom(s: string, max: nat, n: nat, cut: string) {
    LastChunkEnd(s, max, n) && if TrimEnd(s[..n]) != "" then cut == TrimEnd(s[..n]) else LongestFit(s, max, cut)
  }

  lemma CutIsShort(s: string, max: nat, n: nat, cut: string)
    requires CutFrom(s, max, n, cut)
    ensures cut <= s && Size(cut) <= max
  {
    if TrimEnd(s[..n]) != "" {
      SizeGrows(s, |cut|, n);
      assert s[..|cut|] == cut;
    }
  }

  /** A text that fits is kept; any other is cut after the last word that fits, or, without one, anywhere between characters. */
  method WordTruncate(s: string, max: nat) returns (cut: string, truncated: bool)
    ensures truncated <==> Size(s) > max
    ensures !truncated ==> cut == s
    ensures cut <= s && Size(cut) <= max
    ensures truncated ==> exists n: nat :: CutFrom(s, max, n, cut)
  {
    if Size(s) <= max {
      return s, false;
    }
    var lastFit := LastFit(s, max);
    ghost var n: nat :| LastChunkEnd(s, max, n) && lastFit == Size(s[..n]);
    PrefixBoundary(s, n);
    cut := TrimEnd(SliceTo(s, lastFit));
    if cut == "" {
      cut := HardCut(s, max);
    }
    assert CutFrom(s, max, n, cut);
    CutIsShort(s, max, n, cut);
    return cut, true;
  }

  /** Unless no chunk that fits holds a word, the cut ends a word: whitespace follows it and no whitespace ends it. */
  lemma CutsBetweenWords(s: string, max: nat, n: nat)
    requires LastChunkEnd(s, max, n) && Size(s) > max && TrimEnd(s[..n]) != ""
    ensures var cut := TrimEnd(s[..n]);
            |cut| < |s| && White(s[|cut|]) && !White(s[|cut| - 1])
  {
    assert s[..|s|] == s;
    var cut := TrimEnd(s[..n]);
    assert n > 0 && White(s[..n][n - 1]);
    assert s[..n][|cut|] == s[|cut|] && cut[|cut| - 1] == s[|cut| - 1];
  }

  /** With at least one word that fits, whole words are kept: no longer run of whole words would fit. */
  lemma NoWholeWordLeftOut(s: string, max: nat, n: nat, m: nat)
    requires LastChunkEnd(s, max, n) && |TrimEnd(s[..n])| < m < |s| && !White(s[m - 1]) && White(s[m])
    ensures !Fits(s, max, m + 1)
  {
    forall k | |TrimEnd(s[..n])| <= k < n
      ensures White(s[k])
    {
      assert s[..n][k] == s[k];
    }
  }
}
