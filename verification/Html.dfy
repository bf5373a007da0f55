/**
 Writing text as HTML (server/src/digest.rs), and a reader of what is written that knows nothing of
 how it came about: it splits a document into characters and the four tags a snippet may hold,
 decodes entities, and refuses everything else.
 */
module Html {
  import opened Wrappers

  function EscapeChar(c: char): string {
    if c == '&' then "&amp;" else if c == '<' then "&lt;" else if c == '>' then "&gt;"
    else if c == '"' then "&quot;" else if c == '\'' then "&#39;" else [c]
  }

  function Escape(s: string): string {
    if s == "" then "" else EscapeChar(s[0]) + Escape(s[1..])
  }

  lemma {:induction false} EscapeConcat(a: string, b: string)
    ensures Escape(a + b) == Escape(a) + Escape(b)
  {
    if a == "" {
      assert a + b == b;
    } else {
      assert (a + b)[1..] == a[1..] + b;
      EscapeConcat(a[1..], b);
      assert EscapeChar(a[0]) + (Escape(a[1..]) + Escape(b)) == EscapeChar(a[0]) + Escape(a[1..]) + Escape(b);
    }
  }

  lemma EscapeNext(s: string, i: nat)
    requires i < |s|
    ensures Escape(s[..i + 1]) == Escape(s[..i]) + EscapeChar(s[i])
  {
    hide EscapeChar;
    var last := [s[i]];
    EscapeConcat(s[..i], last);
    assert s[..i + 1] == s[..i] + last && last[1..] == "";
    assert Escape(last) == EscapeChar(s[i]) + Escape("");
  }

  method HtmlEscape(s: string) returns (out: string)
    ensures out == Escape(s)
  {
    hide EscapeChar;
    out := "";
    var i := 0;
    while i < |s|
      invariant i <= |s| && out == Escape(s[..i])
    {
      EscapeNext(s, i);
      out := out + EscapeChar(s[i]);
      i := i + 1;
    }
    assert s[..|s|] == s;
  }

  // ----- reading -----

  datatype Token = Char(c: char) | StrongOpen | StrongClose | AnchorOpen(href: string) | AnchorClose

  /** What was read, and how many characters it took. */
  datatype Taken<T> = Taken(value: T, length: nat)

  const StrongTag := "<strong>"
  const StrongEndTag := "</strong>"
  const AnchorHead := "<a href=\""
  const AnchorTail := "\">"
  const AnchorEndTag := "</a>"

  function Expect<T>(h: string, word: string, value: T): (r: Option<Taken<T>>)
    ensures r.Some? ==> r.value.length <= |h|
  {
    if word <= h then Some(Taken(value, |word|)) else None
  }

  function EntityAt(h: string): (r: Option<Taken<char>>)
    ensures r.Some? ==> r.value.length <= |h|
  {
    if |h| < 2 then None
    else if h[1] == 'a' then Expect(h, "&amp;", '&')
    else if h[1] == 'l' then Expect(h, "&lt;", '<')
    else if h[1] == 'g' then Expect(h, "&gt;", '>')
    else if h[1] == 'q' then Expect(h, "&quot;", '"')
    else Expect(h, "&#39;", '\'')
  }

  function CharAt(h: string): (r: Option<Taken<char>>)
    requires h != ""
    ensures r.Some? ==> 0 < r.value.length <= |h|
  {
    if h[0] == '&' then
      EntityAt(h)
    else if h[0] == '<' || h[0] == '>' || h[0] == '"' || h[0] == '\'' then
      None
    else
      Some(Taken(h[0], 1))
  }

  function Unescape(h: string): Option<string>
    decreases |h|
  {
    if h == "" then
      Some("")
    else match CharAt(h)
      case None => None
      case Some(t) => Before([t.value], Unescape(h[t.length..]))
  }

  /** Where the first quotation mark is, or the end. */
  function Quote(h: string): (q: nat)
    ensures q <= |h| && '"' !in h[..q] && (q < |h| ==> h[q] == '"')
  {
    if h == "" || h[0] == '"' then 0 else 1 + Quote(h[1..])
  }

  /** An address up to the quotation mark, and the end of its tag. */
  function HrefAt(h: string): (r: Option<Taken<string>>)
    ensures r.Some? ==> r.value.length <= |h|
  {
    var q := Quote(h);
    if !(AnchorTail <= h[q..]) then None
    else match Unescape(h[..q])
      case None => None
      case Some(href) => Some(Taken(href, q + |AnchorTail|))
  }

  function AnchorAt(h: string): (r: Option<Taken<Token>>)
    ensures r.Some? ==> 0 < r.value.length <= |h|
  {
    if !(AnchorHead <= h) then None
    else match HrefAt(h[|AnchorHead|..])
      case None => None
      case Some(t) => Some(Taken(AnchorOpen(t.value), |AnchorHead| + t.length))
  }

  function TagAt(h: string): (r: Option<Taken<Token>>)
    ensures r.Some? ==> 0 < r.value.length <= |h|
  {
    if |h| < 3 then None
    else if h[1] == 's' then Expect(h, StrongTag, StrongOpen)
    else if h[1] == 'a' then AnchorAt(h)
    else if h[2] == 's' then Expect(h, StrongEndTag, StrongClose)
    else Expect(h, AnchorEndTag, AnchorClose)
  }

  function TokenAt(h: string): (r: Option<Taken<Token>>)
    requires h != ""
    ensures r.Some? ==> 0 < r.value.length <= |h|
  {
    if h[0] == '<' then
      TagAt(h)
    else match CharAt(h)
      case None => None
      case Some(t) => Some(Taken(Char(t.value), t.length))
  }

  function Tokens(h: string): Option<seq<Token>>
    decreases |h|
  {
    if h == "" then
      Some([])
    else match TokenAt(h)
      case None => None
      case Some(t) => Before([t.value], Tokens(h[t.length..]))
  }

  function Before<T>(first: seq<T>, rest: Option<seq<T>>): Option<seq<T>> {
    match rest
    case None => None
    case Some(ts) => Some(first + ts)
  }

  /** Where a document stands: a link still has to show the rest of its address. */
  datatype Place = Outside | InStrong | InAnchor(rest: string)

  /** No tag inside another, all of them closed, and every link shows its own address. */
  predicate WellFormed(ts: seq<Token>, p: Place)
    decreases ts
  {
    if ts == [] then
      p == Outside
    else match ts[0]
      case Char(c) =>
        if p.InAnchor? then p.rest != "" && p.rest[0] == c && WellFormed(ts[1..], InAnchor(p.rest[1..])) else WellFormed(ts[1..], p)
      case StrongOpen => p == Outside && WellFormed(ts[1..], InStrong)
      case StrongClose => p == InStrong && WellFormed(ts[1..], Outside)
      case AnchorOpen(href) => p == Outside && WellFormed(ts[1..], InAnchor(href))
      case AnchorClose => p == InAnchor("") && WellFormed(ts[1..], Outside)
  }

  /** The characters a reader sees. */
  function Shown(ts: seq<Token>): string {
    if ts == [] then "" else (if ts[0].Char? then [ts[0].c] else "") + Shown(ts[1..])
  }

  /** The text of a document, if it is one. */
  function Read(h: string): Option<string> {
    match Tokens(h)
    case None => None
    case Some(ts) => if WellFormed(ts, Outside) then Some(Shown(ts)) else None
  }

  // ----- reading is compositional -----

  lemma ExpectExtends<T>(h: string, more: string, word: string, value: T)
    requires word <= h
    ensures Expect(h + more, word, value) == Expect(h, word, value)
  {
    assert (h + more)[..|word|] == h[..|word|];
  }

  lemma EntityExtends(h: string, more: string)
    requires EntityAt(h).Some?
    ensures EntityAt(h + more) == EntityAt(h)
  {
    var w := if h[1] == 'a' then "&amp;" else if h[1] == 'l' then "&lt;" else if h[1] == 'g' then "&gt;" else if h[1] == 'q' then "&quot;" else "&#39;";
    assert w <= h;
    ExpectExtends(h, more, w, EntityAt(h).value.value);
  }

  lemma CharExtends(h: string, more: string)
    requires h != "" && CharAt(h).Some?
    ensures CharAt(h + more) == CharAt(h)
  {
    if h[0] == '&' {
      EntityExtends(h, more);
    }
  }

  lemma {:induction false} QuoteExtends(h: string, more: string)
    requires Quote(h) < |h|
    ensures Quote(h + more) == Quote(h)
  {
    if h[0] != '"' {
      assert (h + more)[1..] == h[1..] + more;
      QuoteExtends(h[1..], more);
    }
  }

  lemma HrefExtends(h: string, more: string)
    requires HrefAt(h).Some?
    ensures HrefAt(h + more) == HrefAt(h)
  {
    var q := Quote(h);
    assert h[q..] != "" && q < |h|;
    QuoteExtends(h, more);
    assert (h + more)[q..] == h[q..] + more;
    assert (h + more)[..q] == h[..q];
    ExpectExtends(h[q..], more, AnchorTail, ());
  }

  lemma AnchorExtends(h: string, more: string)
    requires AnchorAt(h).Some?
    ensures AnchorAt(h + more) == AnchorAt(h)
  {
    assert (h + more)[|AnchorHead|..] == h[|AnchorHead|..] + more;
    HrefExtends(h[|AnchorHead|..], more);
    ExpectExtends(h, more, AnchorHead, ());
  }

  lemma TagExtends(h: string, more: string)
    requires TagAt(h).Some?
    ensures TagAt(h + more) == TagAt(h)
  {
    if h[1] == 'a' {
      AnchorExtends(h, more);
    } else if h[1] == 's' {
      ExpectExtends(h, more, StrongTag, StrongOpen);
    } else if h[2] == 's' {
      ExpectExtends(h, more, StrongEndTag, StrongClose);
    } else {
      ExpectExtends(h, more, AnchorEndTag, AnchorClose);
    }
  }

  lemma TokenExtends(h: string, more: string)
    requires h != "" && TokenAt(h).Some?
    ensures TokenAt(h + more) == TokenAt(h)
  {
    if h[0] == '<' {
      TagExtends(h, more);
    } else {
      CharExtends(h, more);
    }
  }

  lemma BeforeTwice<T>(a: seq<T>, b: seq<T>, rest: Option<seq<T>>)
    ensures Before(a, Before(b, rest)) == Before(a + b, rest)
    ensures Before(a, Some([])) == Some(a) && Before([], rest) == rest
  {
    if rest.Some? {
      assert a + (b + rest.value) == a + b + rest.value && [] + rest.value == rest.value;
    }
    assert a + [] == a;
  }

  lemma TokensStep(h: string, t: Token, n: nat)
    requires h != "" && TokenAt(h) == Some(Taken(t, n))
    ensures Tokens(h) == Before([t], Tokens(h[n..]))
  {
  }

  /** What reads on its own reads the same in front of anything. */
  lemma {:induction false} TokensConcat(a: string, b: string)
    requires Tokens(a).Some?
    ensures Tokens(a + b) == Before(Tokens(a).value, Tokens(b))
    decreases |a|
  {
    if a == "" {
      assert a + b == b;
      BeforeTwice<Token>([], [], Tokens(b));
    } else {
      var t := TokenAt(a).value;
      TokenExtends(a, b);
      assert (a + b)[t.length..] == a[t.length..] + b;
      TokensConcat(a[t.length..], b);
      BeforeTwice([t.value], Tokens(a[t.length..]).value, Tokens(b));
    }
  }

  lemma CharThen(h: string, more: string)
    requires h != "" && CharAt(h).Some? && CharAt(h).value.length == |h|
    ensures Unescape(h + more) == Before([CharAt(h).value.value], Unescape(more))
  {
    CharExtends(h, more);
    assert (h + more)[|h|..] == more;
  }

  // ----- reading what is written -----

  function Chars(s: string): seq<Token> {
    seq(|s|, i requires 0 <= i < |s| => Char(s[i]))
  }

  lemma EscapedChar(c: char)
    ensures EscapeChar(c) != "" && CharAt(EscapeChar(c)) == Some(Taken(c, |EscapeChar(c)|))
    ensures '"' !in EscapeChar(c) && EscapeChar(c)[0] != '<'
  {
  }

  lemma TokensOfChar(c: char)
    ensures Tokens(EscapeChar(c)) == Some([Char(c)])
  {
    EscapedChar(c);
    TokensOfWord(EscapeChar(c), Char(c));
  }

  lemma NothingReads()
    ensures Tokens("") == Some(Chars("")) && Unescape("") == Some("")
  {
    assert Chars("") == [];
  }

  /** Escaped text reads as itself, character by character, as text and as an address. */
  lemma {:induction false} EscapedReads(s: string)
    ensures Tokens(Escape(s)) == Some(Chars(s))
    ensures Unescape(Escape(s)) == Some(s)
    ensures '"' !in Escape(s)
  {
    hide Tokens, Unescape, CharAt, EscapeChar;
    if s == "" {
      NothingReads();
    } else {
      EscapedReads(s[1..]);
      EscapedChar(s[0]);
      TokensOfChar(s[0]);
      TokensConcat(EscapeChar(s[0]), Escape(s[1..]));
      CharThen(EscapeChar(s[0]), Escape(s[1..]));
      assert Chars(s) == [Char(s[0])] + Chars(s[1..]);
      assert [s[0]] + s[1..] == s;
    }
  }

  lemma TokensOfWord(h: string, t: Token)
    requires h != "" && TokenAt(h) == Some(Taken(t, |h|))
    ensures Tokens(h) == Some([t])
  {
    TokensStep(h, t, |h|);
    assert h[|h|..] == "";
    assert Tokens("") == Some([]);
    BeforeTwice([t], [], Some([]));
  }

  lemma StrongTagsRead()
    ensures Tokens(StrongTag) == Some([StrongOpen])
    ensures Tokens(StrongEndTag) == Some([StrongClose])
  {
    TokensOfWord(StrongTag, StrongOpen);
    TokensOfWord(StrongEndTag, StrongClose);
  }

  lemma AnchorEndReads()
    ensures Tokens(AnchorEndTag) == Some([AnchorClose])
  {
    TokensOfWord(AnchorEndTag, AnchorClose);
  }

  lemma {:induction false} QuoteAfter(a: string, b: string)
    requires '"' !in a && b != "" && b[0] == '"'
    ensures Quote(a + b) == |a|
  {
    if a == "" {
      assert a + b == b;
    } else {
      assert a[0] in a && (a + b)[0] == a[0];
      assert (a + b)[1..] == a[1..] + b;
      QuoteAfter(a[1..], b);
    }
  }

  lemma HrefReads(url: string)
    ensures HrefAt(Escape(url) + AnchorTail) == Some(Taken(url, |Escape(url)| + |AnchorTail|))
  {
    hide Escape, Unescape, Quote;
    var h := Escape(url) + AnchorTail;
    EscapedReads(url);
    QuoteAfter(Escape(url), AnchorTail);
    assert h[|Escape(url)|..] == AnchorTail && h[..|Escape(url)|] == Escape(url);
  }

  lemma AnchorHeadReads(url: string)
    ensures AnchorAt(AnchorHead + Escape(url) + AnchorTail) == Some(Taken(AnchorOpen(url), |AnchorHead + Escape(url) + AnchorTail|))
  {
    HrefReads(url);
    hide HrefAt, Escape;
    AnchorFrom(Escape(url) + AnchorTail);
    assert AnchorHead + Escape(url) + AnchorTail == AnchorHead + (Escape(url) + AnchorTail);
  }

  lemma AnchorFrom(rest: string)
    requires HrefAt(rest).Some?
    ensures AnchorAt(AnchorHead + rest) ==
            Some(Taken(AnchorOpen(HrefAt(rest).value.value), |AnchorHead| + HrefAt(rest).value.length))
  {
    hide HrefAt;
    assert (AnchorHead + rest)[|AnchorHead|..] == rest;
  }

  lemma AnchorReads(url: string)
    ensures Tokens(AnchorHead + Escape(url) + AnchorTail) == Some([AnchorOpen(url)])
  {
    var h := AnchorHead + Escape(url) + AnchorTail;
    AnchorHeadReads(url);
    assert h[0] == AnchorHead[0] == '<' && h[1] == AnchorHead[1] == 'a';
    TokensOfWord(h, AnchorOpen(url));
  }
}
