/**
 The plain and the HTML form of one digest message (server/src/digest.rs). The link finder and the
 spoiler filter are functions of the text; the mention pattern is the code's own.
 */
module Snippet {
  import opened Wrappers
  import opened Truncation
  import opened Html

  // ----- mentions -----

  predicate NameChar(c: char) {
    'A' <= c <= 'Z' || 'a' <= c <= 'z' || '0' <= c <= '9' || c == '_' || c == '-'
  }

  const MaxName := 32

  /** How many name characters `e` starts with, up to `max`. */
  function NameRun(e: string, max: nat): (n: nat)
    ensures n <= max && n <= |e| && forall k :: 0 <= k < n ==> NameChar(e[k])
    ensures n < max && n < |e| ==> !NameChar(e[n])
  {
    if e == "" || max == 0 || !NameChar(e[0]) then 0 else 1 + NameRun(e[1..], max - 1)
  }

  /** From the `@` to the end of the name. */
  datatype Span = Span(at: nat, end: nat)

  /** The length of a mention whose `@` is first, or 0. */
  function MentionLength(e: string): (n: nat)
    ensures n <= |e|
  {
    if e == "" || e[0] != '@' || NameRun(e[1..], MaxName) == 0 then 0 else 1 + NameRun(e[1..], MaxName)
  }

  predicate IsMention(e: string, sp: Span) {
    && sp.at + 1 < sp.end <= |e| && sp.end - sp.at <= 1 + MaxName && e[sp.at] == '@'
    && forall k :: sp.at < k < sp.end ==> NameChar(e[k])
  }

  lemma MentionHere(e: string, at: nat)
    requires at <= |e| && MentionLength(e[at..]) > 0
    ensures IsMention(e, Span(at, at + MentionLength(e[at..])))
  {
    var x := e[at..];
    forall k | at < k < at + MentionLength(x)
      ensures NameChar(e[k])
    {
      assert e[k] == x[1..][k - at - 1];
    }
  }

  /** An `@name` at the very start of the text, or after the whitespace character that `e` starts with. */
  function MatchHere(e: string, start: bool): (m: Option<Span>)
    ensures m.Some? ==> IsMention(e, m.value)
  {
    if start && MentionLength(e) > 0 then
      MentionHere(e, 0);
      assert e[0..] == e;
      Some(Span(0, MentionLength(e)))
    else if e != "" && White(e[0]) && MentionLength(e[1..]) > 0 then
      MentionHere(e, 1);
      Some(Span(1, 1 + MentionLength(e[1..])))
    else
      None
  }

  /** The matches, left to right; `e` is what is left of the text from `offset` on. */
  function FindMentions(e: string, offset: nat, start: bool): seq<Span>
    decreases |e|
  {
    if e == "" then
      []
    else match MatchHere(e, start)
      case Some(m) => [Span(offset + m.at, offset + m.end)] + FindMentions(e[m.end..], offset + m.end, false)
      case None => FindMentions(e[1..], offset + 1, false)
  }

  /** Mentions in order, none over another. */
  predicate MentionSpans(e: string, spans: seq<Span>, cursor: nat)
    decreases spans
  {
    spans == [] || (cursor <= spans[0].at && IsMention(e, spans[0]) && MentionSpans(e, spans[1..], spans[0].end))
  }

  function SpanText(e: string, sp: Span): string {
    if sp.at <= sp.end <= |e| then e[sp.at..sp.end] else ""
  }

  function SpanTexts(e: string, spans: seq<Span>): seq<string> {
    if spans == [] then [] else [SpanText(e, spans[0])] + SpanTexts(e, spans[1..])
  }

  lemma {:induction false} SpansLater(e: string, spans: seq<Span>, cursor: nat, cursor': nat)
    requires MentionSpans(e, spans, cursor) && cursor' <= cursor
    ensures MentionSpans(e, spans, cursor')
  {
  }

  lemma SpansCons(e: string, sp: Span, spans: seq<Span>, cursor: nat)
    requires cursor <= sp.at && IsMention(e, sp) && MentionSpans(e, spans, sp.end)
    ensures MentionSpans(e, [sp] + spans, cursor)
  {
    assert ([sp] + spans)[1..] == spans;
  }

  lemma MentionShifted(e: string, offset: nat, m: Span)
    requires offset <= |e| && IsMention(e[offset..], m)
    ensures IsMention(e, Span(offset + m.at, offset + m.end))
  {
    forall k | offset + m.at < k < offset + m.end
      ensures NameChar(e[k])
    {
      assert e[k] == e[offset..][k - offset];
    }
  }

  /** The pattern's matches are mentions in order. */
  lemma {:induction false} FoundMentions(e: string, offset: nat, start: bool)
    requires offset <= |e|
    ensures MentionSpans(e, FindMentions(e[offset..], offset, start), offset)
    decreases |e| - offset
  {
    hide MatchHere;
    var x := e[offset..];
    if x != "" {
      match MatchHere(x, start)
      case Some(m) =>
        MentionShifted(e, offset, m);
        assert x[m.end..] == e[offset + m.end..];
        FoundMentions(e, offset + m.end, false);
        SpansCons(e, Span(offset + m.at, offset + m.end), FindMentions(x[m.end..], offset + m.end, false), offset);
      case None =>
        assert x[1..] == e[offset + 1..];
        FoundMentions(e, offset + 1, false);
        SpansLater(e, FindMentions(x[1..], offset + 1, false), offset + 1, offset);
    }
  }

  /** The text from `cursor` on with every span in bold. */
  function Bolded(e: string, spans: seq<Span>, cursor: nat): string
    requires MentionSpans(e, spans, cursor) && cursor <= |e|
    decreases spans
  {
    if spans == [] then
      e[cursor..]
    else
      var sp := spans[0];
      e[cursor..sp.at] + StrongTag + e[sp.at..sp.end] + StrongEndTag + Bolded(e, spans[1..], sp.end)
  }

  /** One mention: what stands before it, and the mention in bold. */
  function BoldStep(e: string, cursor: nat, sp: Span): string
    requires cursor <= sp.at < sp.end <= |e|
  {
    e[cursor..sp.at] + StrongTag + e[sp.at..sp.end] + StrongEndTag
  }

  lemma BoldedStep(e: string, spans: seq<Span>, i: nat, cursor: nat, out: string)
    requires i < |spans| && cursor <= |e| && MentionSpans(e, spans[i..], cursor)
    ensures cursor <= spans[i].at && IsMention(e, spans[i]) && MentionSpans(e, spans[i + 1..], spans[i].end)
    ensures out + Bolded(e, spans[i..], cursor) == out + BoldStep(e, cursor, spans[i]) + Bolded(e, spans[i + 1..], spans[i].end)
  {
    assert spans[i..][1..] == spans[i + 1..];
    var step, rest := BoldStep(e, cursor, spans[i]), Bolded(e, spans[i + 1..], spans[i].end);
    assert Bolded(e, spans[i..], cursor) == step + rest;
    assert out + (step + rest) == out + step + rest;
  }

  lemma AtSignInTag(e: string, sp: Span)
    requires IsMention(e, sp)
    ensures "<strong>@" + e[sp.at + 1..sp.end] == StrongTag + e[sp.at..sp.end]
  {
    assert "<strong>@" == StrongTag + ['@'];
    assert ['@'] + e[sp.at + 1..sp.end] == e[sp.at..sp.end];
  }

  lemma PushedInTurn<T>(before: seq<T>, plain: seq<T>, first: seq<T>, second: seq<T>, tag: seq<T>, text: seq<T>, end: seq<T>)
    requires first + second == tag + text
    ensures before + plain + first + second + end == before + (plain + tag + text + end)
  {
    Associative(before + plain, first, second);
    Associative(before + plain, tag, text);
    Associative(before, plain, tag);
    Associative(before, plain + tag, text);
    Associative(before, plain + tag + text, end);
  }

  method PushMention(e: string, cursor: nat, sp: Span, before: string) returns (out: string)
    requires cursor <= sp.at && IsMention(e, sp)
    ensures out == before + BoldStep(e, cursor, sp)
  {
    AtSignInTag(e, sp);
    out := before;
    if sp.at > cursor {
      out := out + e[cursor..sp.at];
    }
    assert out == before + e[cursor..sp.at];
    out := out + "<strong>@";
    out := out + e[sp.at + 1..sp.end];
    out := out + "</strong>";
    PushedInTurn(before, e[cursor..sp.at], "<strong>@", e[sp.at + 1..sp.end], StrongTag, e[sp.at..sp.end], "</strong>");
  }

  method ApplyMentionBold(e: string) returns (out: string)
    ensures MentionSpans(e, FindMentions(e, 0, true), 0)
    ensures out == Bolded(e, FindMentions(e, 0, true), 0)
  {
    var spans := FindMentions(e, 0, true);
    assert e[0..] == e && spans[0..] == spans;
    FoundMentions(e, 0, true);
    out := "";
    var cursor: nat, i: nat := 0, 0;
    while i < |spans|
      invariant i <= |spans| && cursor <= |e| && MentionSpans(e, spans[i..], cursor)
      invariant out + Bolded(e, spans[i..], cursor) == Bolded(e, spans, 0)
    {
      BoldedStep(e, spans, i, cursor, out);
      out := PushMention(e, cursor, spans[i], out);
      cursor := spans[i].end;
      i := i + 1;
    }
    assert spans[i..] == [];
    if cursor < |e| {
      out := out + e[cursor..];
    }
  }

  // ----- what the bold text reads as -----

  /** A run of text, a mention or a link. */
  datatype Piece = Plain(text: string) | Strong(text: string) | Link(text: string)

  function PieceTokens(p: Piece): seq<Token> {
    match p
    case Plain(t) => Chars(t)
    case Strong(t) => [StrongOpen] + Chars(t) + [StrongClose]
    case Link(t) => [AnchorOpen(t)] + Chars(t) + [AnchorClose]
  }

  function StrongOf(p: Piece): seq<string> {
    if p.Strong? then [p.text] else []
  }

  function LinkOf(p: Piece): seq<string> {
    if p.Link? then [p.text] else []
  }

  function PiecesTokens(ps: seq<Piece>): seq<Token> {
    if ps == [] then [] else PieceTokens(ps[0]) + PiecesTokens(ps[1..])
  }

  function PiecesText(ps: seq<Piece>): string {
    if ps == [] then "" else ps[0].text + PiecesText(ps[1..])
  }

  /** The mentions, in order. */
  function Strongs(ps: seq<Piece>): seq<string> {
    if ps == [] then [] else StrongOf(ps[0]) + Strongs(ps[1..])
  }

  /** The addresses, in order. */
  function Links(ps: seq<Piece>): seq<string> {
    if ps == [] then [] else LinkOf(ps[0]) + Links(ps[1..])
  }

  /** What is seen, what is bold and what is linked. */
  ghost predicate Reads(html: string, text: string, strongs: seq<string>, links: seq<string>) {
    exists ps :: Tokens(html) == Some(PiecesTokens(ps)) && PiecesText(ps) == text && Strongs(ps) == strongs && Links(ps) == links
  }

  lemma {:induction false} PiecesConcat(a: seq<Piece>, b: seq<Piece>)
    ensures PiecesTokens(a + b) == PiecesTokens(a) + PiecesTokens(b)
    ensures PiecesText(a + b) == PiecesText(a) + PiecesText(b)
  {
    hide PieceTokens;
    if a == [] {
      assert a + b == b;
    } else {
      assert (a + b)[1..] == a[1..] + b;
      PiecesConcat(a[1..], b);
      Associative(PieceTokens(a[0]), PiecesTokens(a[1..]), PiecesTokens(b));
      Associative(a[0].text, PiecesText(a[1..]), PiecesText(b));
    }
  }

  lemma Associative<T>(a: seq<T>, b: seq<T>, c: seq<T>)
    ensures a + (b + c) == a + b + c
  {
  }

  lemma {:induction false} MarksConcat(a: seq<Piece>, b: seq<Piece>)
    ensures Strongs(a + b) == Strongs(a) + Strongs(b)
    ensures Links(a + b) == Links(a) + Links(b)
  {
    hide StrongOf, LinkOf;
    if a == [] {
      assert a + b == b;
    } else {
      assert (a + b)[1..] == a[1..] + b;
      MarksConcat(a[1..], b);
      Associative(StrongOf(a[0]), Strongs(a[1..]), Strongs(b));
      Associative(LinkOf(a[0]), Links(a[1..]), Links(b));
    }
  }

  lemma ReadsConcat(h: string, t: string, ss: seq<string>, ls: seq<string>, h': string, t': string, ss': seq<string>, ls': seq<string>)
    requires Reads(h, t, ss, ls) && Reads(h', t', ss', ls')
    ensures Reads(h + h', t + t', ss + ss', ls + ls')
  {
    hide TokenAt, PiecesTokens, PiecesText, Strongs, Links;
    var ps :| Tokens(h) == Some(PiecesTokens(ps)) && PiecesText(ps) == t && Strongs(ps) == ss && Links(ps) == ls;
    var ps' :| Tokens(h') == Some(PiecesTokens(ps')) && PiecesText(ps') == t' && Strongs(ps') == ss' && Links(ps') == ls';
    TokensConcat(h, h');
    PiecesConcat(ps, ps');
    MarksConcat(ps, ps');
    assert PiecesText(ps + ps') == t + t';
  }

  lemma OnePiece(html: string, p: Piece)
    requires Tokens(html) == Some(PieceTokens(p))
    ensures Reads(html, p.text, StrongOf(p), LinkOf(p))
  {
    assert [p][1..] == [];
    assert PiecesTokens([p]) == PieceTokens(p) + [] == PieceTokens(p);
    assert PiecesText([p]) == p.text + [] == p.text;
    assert Strongs([p]) == StrongOf(p) + [] == StrongOf(p);
    assert Links([p]) == LinkOf(p) + [] == LinkOf(p);
  }

  lemma PlainReads(t: string)
    ensures Reads(Escape(t), t, [], [])
  {
    EscapedReads(t);
    OnePiece(Escape(t), Plain(t));
  }

  lemma StrongReads(t: string)
    ensures Reads(StrongTag + Escape(t) + StrongEndTag, t, [t], [])
  {
    EscapedReads(t);
    StrongTagsRead();
    TokensConcat(StrongTag, Escape(t));
    TokensConcat(StrongTag + Escape(t), StrongEndTag);
    OnePiece(StrongTag + Escape(t) + StrongEndTag, Strong(t));
  }

  lemma LinkReads(t: string)
    ensures Reads(AnchorHead + Escape(t) + AnchorTail + Escape(t) + AnchorEndTag, t, [], [t])
  {
    EscapedReads(t);
    AnchorReads(t);
    AnchorEndReads();
    var head := AnchorHead + Escape(t) + AnchorTail;
    TokensConcat(head, Escape(t));
    TokensConcat(head + Escape(t), AnchorEndTag);
    OnePiece(head + Escape(t) + AnchorEndTag, Link(t));
  }

  // ----- escaping and mentions do not interfere -----

  /** An `@` of the escaped text is an `@` of the text. */
  lemma {:induction false} AtSignSplits(s: string, at: nat) returns (k: nat)
    requires at < |Escape(s)| && Escape(s)[at] == '@'
    ensures k < |s| && s[k] == '@' && Escape(s[..k]) == Escape(s)[..at] && Escape(s[k..]) == Escape(s)[at..]
  {
    hide EscapeChar;
    var x := EscapeChar(s[0]);
    if at < |x| {
      OnlyAtSign(s[0], at);
      k := 0;
    } else {
      var k' := AtSignSplits(s[1..], at - |x|);
      k := k' + 1;
      assert s[..k][1..] == s[1..][..k'] && s[k..] == s[1..][k'..];
    }
  }

  lemma OnlyAtSign(c: char, at: nat)
    requires at < |EscapeChar(c)| && EscapeChar(c)[at] == '@'
    ensures c == '@' && at == 0
  {
  }

  /** Name characters of the escaped text are name characters of the text. */
  lemma {:induction false} NameCharsKept(s: string, n: nat)
    requires n <= |Escape(s)| && forall k :: 0 <= k < n ==> NameChar(Escape(s)[k])
    ensures n <= |s| && s[..n] == Escape(s)[..n] && Escape(s[n..]) == Escape(s)[n..]
  {
    hide Escape, EscapeChar;
    if n > 0 {
      FirstKept(s);
      var e, rest := Escape(s), Escape(s[1..]);
      assert NameChar(e[0]) && rest == e[1..];
      assert forall k :: 0 <= k < n - 1 ==> rest[k] == e[k + 1];
      NameCharsKept(s[1..], n - 1);
      SliceCons(s, n);
      SliceCons(e, n);
    }
  }

  lemma SliceCons(s: string, n: nat)
    requires 0 < n <= |s|
    ensures s[..n] == [s[0]] + s[1..][..n - 1] && s[n..] == s[1..][n - 1..]
  {
  }

  predicate Special(c: char) {
    c == '&' || c == '<' || c == '>' || c == '"' || c == '\''
  }

  lemma FirstKept(s: string)
    ensures s != "" <==> Escape(s) != ""
    ensures s != "" ==> if Special(s[0]) then Escape(s)[0] == '&' else Escape(s)[0] == s[0] && Escape(s)[1..] == Escape(s[1..])
  {
  }

  lemma {:induction false} NameRunKept(s: string, max: nat)
    ensures NameRun(Escape(s), max) == NameRun(s, max)
  {
    if s != "" && max > 0 {
      FirstKept(s);
      if !Special(s[0]) {
        NameRunKept(s[1..], max - 1);
      }
    }
  }

  lemma MentionKept(s: string)
    ensures MentionLength(Escape(s)) == MentionLength(s)
  {
    if s != "" {
      FirstKept(s);
      if !Special(s[0]) {
        NameRunKept(s[1..], MaxName);
      }
    }
  }

  lemma MatchKept(s: string, start: bool)
    ensures MatchHere(Escape(s), start) == MatchHere(s, start)
  {
    MentionKept(s);
    if s != "" {
      FirstKept(s);
      if !Special(s[0]) {
        MentionKept(s[1..]);
      }
    }
  }

  /** The texts of the matches. */
  function Names(e: string, start: bool): seq<string>
    decreases |e|
  {
    if e == "" then
      []
    else match MatchHere(e, start)
      case Some(m) => [e[m.at..m.end]] + Names(e[m.end..], false)
      case None => Names(e[1..], false)
  }

  predicate NoWhite(x: string) {
    forall k :: 0 <= k < |x| ==> !White(x[k])
  }

  /** Nothing matches inside a run without whitespace. */
  lemma {:induction false} NamesSkip(x: string, rest: string)
    requires NoWhite(x)
    ensures Names(x + rest, false) == Names(rest, false)
  {
    if x == "" {
      assert x + rest == rest;
    } else {
      assert (x + rest)[1..] == x[1..] + rest;
      NamesSkip(x[1..], rest);
    }
  }

  lemma EntityHasNoWhite(c: char)
    requires Special(c)
    ensures NoWhite(EscapeChar(c)) && EscapeChar(c)[0] == '&' && |EscapeChar(c)| > 1
  {
  }

  lemma NamesPastEntity(s: string, start: bool)
    requires s != "" && Special(s[0])
    ensures Names(Escape(s), start) == Names(Escape(s[1..]), false)
  {
    hide EscapeChar;
    var x := EscapeChar(s[0]);
    EntityHasNoWhite(s[0]);
    MatchKept(s, start);
    assert MatchHere(s, start) == None;
    assert Escape(s)[1..] == x[1..] + Escape(s[1..]);
    NamesSkip(x[1..], Escape(s[1..]));
  }

  lemma SliceSlice(s: string, a: nat, i: nat, j: nat)
    requires i <= j && a + j <= |s|
    ensures s[a..][i..j] == s[a + i..a + j] && s[a..][j..] == s[a + j..]
  {
  }

  /** An `@` and name characters are the same before and after escaping. */
  lemma NameHere(s: string, e: string, n: nat)
    requires s != "" && s[0] == '@' && e == Escape(s) && n < |e| && forall k :: 0 < k <= n ==> NameChar(e[k])
    ensures n < |s| && e[..1 + n] == s[..1 + n] && e[1 + n..] == Escape(s[1 + n..])
  {
    hide Escape;
    FirstKept(s);
    var rest := e[1..];
    assert forall k :: 0 <= k < n ==> rest[k] == e[k + 1];
    NameCharsKept(s[1..], n);
    SliceCons(s, 1 + n);
    SliceCons(e, 1 + n);
  }

  lemma MatchSplits(s: string, m: Span)
    requires m.at <= 1 && IsMention(s, m) && IsMention(Escape(s), m) && (m.at == 1 ==> White(s[0]))
    ensures Escape(s)[m.at..m.end] == s[m.at..m.end] && Escape(s)[m.end..] == Escape(s[m.end..])
  {
    hide Escape;
    var e := Escape(s);
    if m.at == 0 {
      NameHere(s, e, m.end - 1);
    } else {
      FirstKept(s);
      var rest := e[1..];
      assert forall k :: 0 < k <= m.end - 2 ==> rest[k] == e[k + 1];
      NameHere(s[1..], rest, m.end - 2);
      SliceSlice(s, 1, 0, m.end - 1);
      SliceSlice(e, 1, 0, m.end - 1);
    }
  }

  /** Escaping neither makes nor breaks a mention: the pattern finds the same names before and after. */
  lemma {:induction false} EscapingKeepsMentions(s: string, start: bool)
    ensures Names(Escape(s), start) == Names(s, start)
    decreases |s|
  {
    if s != "" {
      FirstKept(s);
      MatchKept(s, start);
      match MatchHere(s, start)
      case Some(m) =>
        MatchSplits(s, m);
        EscapingKeepsMentions(s[m.end..], false);
      case None =>
        EscapingKeepsMentions(s[1..], false);
        if Special(s[0]) {
          NamesPastEntity(s, start);
        }
    }
  }

  lemma SpanTextsCons(e: string, sp: Span, spans: seq<Span>)
    ensures SpanTexts(e, [sp] + spans) == [SpanText(e, sp)] + SpanTexts(e, spans)
  {
    assert ([sp] + spans)[1..] == spans;
  }

  lemma FirstMatch(x: string, offset: nat, start: bool) returns (m: Span)
    requires x != "" && MatchHere(x, start).Some?
    ensures MatchHere(x, start) == Some(m) && IsMention(x, m)
    ensures FindMentions(x, offset, start) == [Span(offset + m.at, offset + m.end)] + FindMentions(x[m.end..], offset + m.end, false)
    ensures Names(x, start) == [x[m.at..m.end]] + Names(x[m.end..], false)
  {
    hide MatchHere;
    m := MatchHere(x, start).value;
  }

  /** One match further on in `e`, seen from `offset`. */
  lemma MatchStep(e: string, offset: nat, start: bool)
    requires offset < |e| && MatchHere(e[offset..], start).Some?
    ensures var m := MatchHere(e[offset..], start).value;
            var sp := Span(offset + m.at, offset + m.end);
            && sp.end <= |e|
            && FindMentions(e[offset..], offset, start) == [sp] + FindMentions(e[sp.end..], sp.end, false)
            && Names(e[offset..], start) == [SpanText(e, sp)] + Names(e[sp.end..], false)
  {
    hide MatchHere, FindMentions, Names;
    var m := FirstMatch(e[offset..], offset, start);
    SliceSlice(e, offset, m.at, m.end);
  }

  /** No match: both go on one character further. */
  lemma NoMatchStep(e: string, offset: nat, start: bool)
    requires offset < |e| && MatchHere(e[offset..], start).None?
    ensures FindMentions(e[offset..], offset, start) == FindMentions(e[offset + 1..], offset + 1, false)
    ensures Names(e[offset..], start) == Names(e[offset + 1..], false)
  {
    hide MatchHere;
    assert e[offset..][1..] == e[offset + 1..];
  }

  lemma NothingFound(e: string, offset: nat, start: bool)
    ensures SpanTexts(e, FindMentions("", offset, start)) == [] == Names("", start)
  {
  }

  /** The marked texts are the names. */
  lemma {:induction false} FoundNames(e: string, offset: nat, start: bool)
    requires offset <= |e|
    ensures SpanTexts(e, FindMentions(e[offset..], offset, start)) == Names(e[offset..], start)
    decreases |e| - offset
  {
    hide MatchHere, FindMentions, Names, SpanTexts;
    if offset == |e| {
      NothingFound(e, offset, start);
    } else {
      match MatchHere(e[offset..], start)
      case Some(m) =>
        MatchStep(e, offset, start);
        FoundNames(e, offset + m.end, false);
        SpanTextsCons(e, Span(offset + m.at, offset + m.end), FindMentions(e[offset + m.end..], offset + m.end, false));
      case None =>
        NoMatchStep(e, offset, start);
        FoundNames(e, offset + 1, false);
    }
  }

  // ----- bold text -----

  lemma {:induction false} WordEscaped(w: string)
    requires forall j :: 0 <= j < |w| ==> NameChar(w[j]) || w[j] == '@'
    ensures Escape(w) == w
  {
    if w != "" {
      WordEscaped(w[1..]);
    }
  }

  /** Where a mention of the escaped text is in the text: from `k` to `n`. */
  lemma MentionInText(e: string, cursor: nat, sp: Span, s: string) returns (k: nat, n: nat)
    requires cursor <= sp.at && IsMention(e, sp) && e[cursor..] == Escape(s)
    ensures k <= n <= |s|
    ensures e[cursor..sp.at] == Escape(s[..k]) && e[sp.at..sp.end] == s[k..n] && e[sp.end..] == Escape(s[n..])
  {
    hide Tokens, Reads, Escape;
    var at, length := sp.at - cursor, sp.end - sp.at;
    SliceSlice(e, cursor, 0, at);
    SliceSlice(e, cursor, at, at);
    k := AtSignSplits(s, at);
    n := k + length;
    var rest := e[sp.at..];
    assert forall j :: 0 < j < length ==> rest[j] == e[sp.at + j];
    NameHere(s[k..], rest, length - 1);
    SliceSlice(e, sp.at, 0, length);
    SliceSlice(s, k, 0, length);
  }

  /** One mention and what is before it. */
  lemma StepReads(e: string, cursor: nat, sp: Span, s: string) returns (n: nat)
    requires cursor <= sp.at && IsMention(e, sp) && e[cursor..] == Escape(s)
    ensures n <= |s| && e[sp.end..] == Escape(s[n..])
    ensures Reads(BoldStep(e, cursor, sp), s[..n], [SpanText(e, sp)], [])
  {
    hide Tokens, Reads, Escape;
    var k: nat;
    k, n := MentionInText(e, cursor, sp, s);
    var a, b := s[..k], s[k..n];
    assert forall j :: 0 <= j < |b| ==> b[j] == e[sp.at + j];
    WordEscaped(b);
    PlainReads(a);
    StrongReads(b);
    var bold := StrongTag + Escape(b) + StrongEndTag;
    ReadsConcat(Escape(a), a, [], [], bold, b, [b], []);
    assert BoldStep(e, cursor, sp) == Escape(a) + bold;
    NothingBefore([b]);
    NothingBefore<string>([]);
    assert a + b == s[..n];
  }

  lemma NothingBefore<T>(a: seq<T>)
    ensures [] + a == a
  {
  }

  lemma BoldedCons(e: string, spans: seq<Span>, cursor: nat)
    requires cursor <= |e| && spans != [] && MentionSpans(e, spans, cursor)
    ensures Bolded(e, spans, cursor) == BoldStep(e, cursor, spans[0]) + Bolded(e, spans[1..], spans[0].end)
  {
  }

  /** Whatever mentions are marked, the result shows the text as it was, with exactly those in bold. */
  lemma {:induction false} BoldedReads(e: string, spans: seq<Span>, cursor: nat, s: string)
    requires cursor <= |e| && MentionSpans(e, spans, cursor) && e[cursor..] == Escape(s)
    ensures Reads(Bolded(e, spans, cursor), s, SpanTexts(e, spans), [])
    decreases spans
  {
    hide Tokens, Reads, Escape;
    if spans == [] {
      PlainReads(s);
    } else {
      var sp := spans[0];
      var n := StepReads(e, cursor, sp, s);
      BoldedReads(e, spans[1..], sp.end, s[n..]);
      BoldedCons(e, spans, cursor);
      ReadsConcat(BoldStep(e, cursor, sp), s[..n], [SpanText(e, sp)], [],
                  Bolded(e, spans[1..], sp.end), s[n..], SpanTexts(e, spans[1..]), []);
      assert s[..n] + s[n..] == s;
      NothingBefore<string>([]);
    }
  }

  /** `Reads` is enough for the reader to accept the document and to see the text. */
  lemma ReadsIsRead(html: string, text: string, strongs: seq<string>, links: seq<string>)
    requires Reads(html, text, strongs, links)
    ensures Read(html) == Some(text)
  {
    hide TokenAt;
    var ps :| Tokens(html) == Some(PiecesTokens(ps)) && PiecesText(ps) == text && Strongs(ps) == strongs && Links(ps) == links;
    PiecesRead(ps);
  }

  lemma {:induction false} PiecesRead(ps: seq<Piece>)
    ensures WellFormed(PiecesTokens(ps), Outside) && Shown(PiecesTokens(ps)) == PiecesText(ps)
  {
    if ps != [] {
      PiecesRead(ps[1..]);
      PieceRead(ps[0], PiecesTokens(ps[1..]));
    }
  }

  lemma PieceRead(p: Piece, more: seq<Token>)
    ensures WellFormed(PieceTokens(p) + more, Outside) == WellFormed(more, Outside)
    ensures Shown(PieceTokens(p) + more) == p.text + Shown(more)
  {
    match p
    case Plain(t) => CharsRead(t, more, Outside);
    case Strong(t) => TaggedRead(StrongOpen, t, StrongClose, InStrong, more);
    case Link(t) => TaggedRead(AnchorOpen(t), t, AnchorClose, InAnchor(t), more);
  }

  lemma TaggedRead(first: Token, t: string, last: Token, p: Place, more: seq<Token>)
    requires (first == StrongOpen && last == StrongClose && p == InStrong)
             || (first == AnchorOpen(t) && last == AnchorClose && p == InAnchor(t))
    ensures WellFormed([first] + Chars(t) + [last] + more, Outside) == WellFormed(more, Outside)
    ensures Shown([first] + Chars(t) + [last] + more) == t + Shown(more)
  {
    var rest := [last] + more;
    CharsRead(t, rest, p);
    assert rest[1..] == more && Shown(rest) == Shown(more);
    var ts := [first] + (Chars(t) + rest);
    assert ts[1..] == Chars(t) + rest && Shown(ts) == t + Shown(rest);
    assert WellFormed(ts, Outside) == WellFormed(more, Outside);
    assert [first] + Chars(t) + [last] + more == ts;
  }

  /** A run of text is shown; inside a link it uses up the address. */
  lemma {:induction false} CharsRead(t: string, more: seq<Token>, p: Place)
    requires p.InAnchor? ==> p.rest == t
    ensures WellFormed(Chars(t) + more, p) == WellFormed(more, if p.InAnchor? then InAnchor("") else p)
    ensures Shown(Chars(t) + more) == t + Shown(more)
  {
    if t == "" {
      assert Chars(t) + more == more && t + Shown(more) == Shown(more);
    } else {
      assert Chars(t) + more == [Char(t[0])] + (Chars(t[1..]) + more);
      assert (Chars(t) + more)[1..] == Chars(t[1..]) + more;
      CharsRead(t[1..], more, if p.InAnchor? then InAnchor(t[1..]) else p);
      assert t + Shown(more) == [t[0]] + (t[1..] + Shown(more));
    }
  }

  // ----- links -----

  /** What the link finder reports; only web addresses are turned into links. */
  datatype Found = Found(start: nat, end: nat, isUrl: bool)

  /** In order, none over another. */
  predicate FoundInOrder(s: string, links: seq<Found>, cursor: nat)
    decreases links
  {
    links == [] || (cursor <= links[0].start <= links[0].end <= |s| && FoundInOrder(s, links[1..], links[0].end))
  }

  /** A stretch without links. */
  function Segment(s: string): string {
    var e := Escape(s);
    var spans := FindMentions(e, 0, true);
    FoundMentions(e, 0, true);
    assert e[0..] == e;
    Bolded(e, spans, 0)
  }

  function Anchor(url: string): string {
    AnchorHead + Escape(url) + AnchorTail + Escape(url) + AnchorEndTag
  }

  /** The addresses the finder reported. */
  function Urls(s: string, links: seq<Found>, cursor: nat): seq<string>
    requires FoundInOrder(s, links, cursor)
    decreases links
  {
    if links == [] then []
    else (if links[0].isUrl then [s[links[0].start..links[0].end]] else []) + Urls(s, links[1..], links[0].end)
  }

  /** The mentions of the text itself, looked for between the links. */
  function Mentioned(s: string, links: seq<Found>, cursor: nat, seen: nat): seq<string>
    requires FoundInOrder(s, links, seen) && cursor <= seen <= |s|
    decreases links
  {
    if links == [] then Names(s[cursor..], true)
    else if !links[0].isUrl then Mentioned(s, links[1..], cursor, links[0].end)
    else Names(s[cursor..links[0].start], true) + Mentioned(s, links[1..], links[0].end, links[0].end)
  }

  lemma SegmentReads(s: string)
    ensures Reads(Segment(s), s, Names(s, true), [])
  {
    hide Reads, Bolded, Names, Escape;
    var e := Escape(s);
    assert e[0..] == e;
    FoundMentions(e, 0, true);
    BoldedReads(e, FindMentions(e, 0, true), 0, s);
    FoundNames(e, 0, true);
    EscapingKeepsMentions(s, true);
  }

  lemma EmptyReads()
    ensures Reads("", "", [], []) && Segment("") == "" && Names("", true) == []
  {
    PlainReads("");
  }

  /** `out` shows the text up to the cursor, with the mentions and addresses found on the way. */
  lemma StretchReads(s: string, cursor: nat, end: nat, out: string, strongs: seq<string>, links: seq<string>)
    requires cursor <= end <= |s| && Reads(out, s[..cursor], strongs, links)
    ensures Reads(out + Segment(s[cursor..end]), s[..end], strongs + Names(s[cursor..end], true), links)
  {
    hide Reads, Segment, Names;
    SegmentReads(s[cursor..end]);
    ReadsConcat(out, s[..cursor], strongs, links, Segment(s[cursor..end]), s[cursor..end], Names(s[cursor..end], true), []);
    assert s[..cursor] + s[cursor..end] == s[..end] && links + [] == links;
  }

  lemma AnchorStretchReads(s: string, start: nat, end: nat, out: string, strongs: seq<string>, links: seq<string>)
    requires start <= end <= |s| && Reads(out, s[..start], strongs, links)
    ensures Reads(out + Anchor(s[start..end]), s[..end], strongs, links + [s[start..end]])
  {
    hide Reads;
    LinkReads(s[start..end]);
    hide Anchor;
    ReadsConcat(out, s[..start], strongs, links, Anchor(s[start..end]), s[start..end], [], [s[start..end]]);
    assert s[..start] + s[start..end] == s[..end] && strongs + [] == strongs;
  }

  method PushSegment(before: string, s: string) returns (out: string)
    ensures out == before + Segment(s)
  {
    var escaped := HtmlEscape(s);
    var bold := ApplyMentionBold(escaped);
    return before + bold;
  }

  method PushAnchor(before: string, url: string) returns (out: string)
    ensures out == before + Anchor(url)
  {
    var escaped := HtmlEscape(url);
    out := before + AnchorHead;
    out := out + escaped;
    out := out + AnchorTail;
    out := out + escaped;
    out := out + AnchorEndTag;
    assert out == before + Anchor(url);
  }

  /** The stretch between two links, or nothing. */
  method PushStretch(before: string, s: string, cursor: nat, end: nat, ghost strongs: seq<string>, ghost links: seq<string>)
    returns (out: string)
    requires cursor <= end <= |s| && Reads(before, s[..cursor], strongs, links)
    ensures Reads(out, s[..end], strongs + Names(s[cursor..end], true), links)
  {
    hide Reads, Segment, Names;
    StretchReads(s, cursor, end, before, strongs, links);
    if end > cursor {
      out := PushSegment(before, s[cursor..end]);
    } else {
      EmptyReads();
      out := before;
      assert s[cursor..end] == "" && before + "" == before;
    }
  }

  lemma NextFound(s: string, links: seq<Found>, i: nat, cursor: nat, seen: nat)
    requires i < |links| && cursor <= seen <= |s| && FoundInOrder(s, links[i..], seen)
    ensures var l := links[i];
            && seen <= l.start <= l.end <= |s| && FoundInOrder(s, links[i + 1..], l.end)
            && Urls(s, links[i..], seen) == (if l.isUrl then [s[l.start..l.end]] else []) + Urls(s, links[i + 1..], l.end)
            && Mentioned(s, links[i..], cursor, seen)
               == if l.isUrl then Names(s[cursor..l.start], true) + Mentioned(s, links[i + 1..], l.end, l.end)
                  else Mentioned(s, links[i + 1..], cursor, l.end)
  {
    hide Names;
    assert links[i..][1..] == links[i + 1..];
  }

  /**
   The snippet shows the text itself, with no character lost, added or moved; its links are the
   addresses that were found, and the bold words are the mentions of the text between them.
   */
  method RenderHtmlSnippet(s: string, links: seq<Found>) returns (out: string)
    requires FoundInOrder(s, links, 0)
    ensures Reads(out, s, Mentioned(s, links, 0, 0), Urls(s, links, 0))
    ensures Read(out) == Some(s)
  {
    hide Reads, Names, Mentioned, Urls, Segment, Anchor, Read;
    out := "";
    EmptyReads();
    var cursor: nat, i: nat := 0, 0;
    ghost var seen: nat, strongs: seq<string>, urls: seq<string> := 0, [], [];
    assert links[0..] == links && s[..0] == "";
    while i < |links|
      invariant i <= |links| && cursor <= seen <= |s| && FoundInOrder(s, links[i..], seen)
      invariant Reads(out, s[..cursor], strongs, urls)
      invariant strongs + Mentioned(s, links[i..], cursor, seen) == Mentioned(s, links, 0, 0)
      invariant urls + Urls(s, links[i..], seen) == Urls(s, links, 0)
    {
      NextFound(s, links, i, cursor, seen);
      var link := links[i];
      if link.isUrl {
        var url := s[link.start..link.end];
        out := PushStretch(out, s, cursor, link.start, strongs, urls);
        strongs := strongs + Names(s[cursor..link.start], true);
        AnchorStretchReads(s, link.start, link.end, out, strongs, urls);
        out := PushAnchor(out, url);
        urls := urls + [url];
        cursor := link.end;
      }
      seen := link.end;
      i := i + 1;
    }
    Ends(s, cursor, seen);
    assert links[i..] == [] && urls + [] == urls;
    out := PushStretch(out, s, cursor, |s|, strongs, urls);
    assert s[..|s|] == s && s[cursor..|s|] == s[cursor..];
    ReadsIsRead(out, s, Mentioned(s, links, 0, 0), Urls(s, links, 0));
  }

  lemma Ends(s: string, cursor: nat, seen: nat)
    requires cursor <= seen <= |s|
    ensures Mentioned(s, [], cursor, seen) == Names(s[cursor..], true) && Urls(s, [], seen) == []
  {
  }

  const MaxChars := 140

  lemma EllipsisReads()
    ensures Reads("...", "...", [], [])
  {
    hide Reads;
    assert Escape("...") == "...";
    PlainReads("...");
  }

  /** Both forms of a message: the HTML shows exactly the plain text, which is the cut text and, if it was cut, an ellipsis. */
  method BuildSnippet(body: string, redact: string -> string, finder: string -> seq<Found>) returns (plain: string, html: string)
    requires forall t: string :: FoundInOrder(t, finder(t), 0)
    ensures Read(html) == Some(plain)
    ensures var t := Trim(redact(body));
            if Size(t) <= MaxChars then plain == t
            else exists cut: string, n: nat :: CutFrom(t, MaxChars, n, cut) && plain == cut + "..."
  {
    hide Reads, Read, Mentioned, Urls;
    var trimmed := Trim(redact(body));
    var cut, truncated := WordTruncate(trimmed, MaxChars);
    html := RenderHtmlSnippet(cut, finder(cut));
    plain := cut;
    if truncated {
      EllipsisReads();
      ReadsConcat(html, cut, Mentioned(cut, finder(cut), 0, 0), Urls(cut, finder(cut), 0), "...", "...", [], []);
      plain := cut + "...";
      html := html + "...";
      ReadsIsRead(html, plain, Mentioned(cut, finder(cut), 0, 0) + [], Urls(cut, finder(cut), 0) + []);
    }
  }
}
