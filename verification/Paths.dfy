/** Slash-separated archive names (server/src/backup.rs). */
module Paths {
  /** The name `rel` inside directory `dir`. */
  function Under(dir: string, rel: string): string {
    dir + "/" + rel
  }

  /** Up to the first slash. */
  function Head(p: string): (h: string)
    ensures |h| <= |p| && p[..|h|] == h && '/' !in h
    ensures |h| < |p| ==> p[|h|] == '/'
  {
    if p == "" || p[0] == '/' then "" else [p[0]] + Head(p[1..])
  }

  predicate HasTail(p: string) {
    |Head(p)| < |p|
  }

  /** After the first slash. */
  function Tail(p: string): string
    requires HasTail(p)
  {
    p[|Head(p)| + 1..]
  }

  predicate Plain(name: string) {
    name != "" && '/' !in name
  }

  lemma {:induction false} HeadOfPlain(name: string)
    requires '/' !in name
    ensures Head(name) == name
  {
    if name != "" {
      HeadOfPlain(name[1..]);
    }
  }

  lemma {:induction false} HeadOfUnder(name: string, rel: string)
    requires '/' !in name
    ensures Head(Under(name, rel)) == name && HasTail(Under(name, rel)) && Tail(Under(name, rel)) == rel
  {
    var p := Under(name, rel);
    if name == "" {
      assert p[0] == '/' && Head(p) == "" && p[1..] == rel;
    } else {
      HeadOfUnder(name[1..], rel);
      assert p[1..] == Under(name[1..], rel);
    }
  }

  /** A path with a slash is its head, the slash and its tail. */
  lemma SplitAtSlash(p: string)
    requires HasTail(p)
    ensures p == Under(Head(p), Tail(p))
  {
  }

  lemma UnderUnder(dir: string, name: string, rel: string)
    ensures Under(Under(dir, name), rel) == Under(dir, Under(name, rel))
  {
  }

  lemma UnderInjective(dir: string, a: string, b: string)
    requires Under(dir, a) == Under(dir, b)
    ensures a == b
  {
    assert Under(dir, a)[|dir| + 1..] == a && Under(dir, b)[|dir| + 1..] == b;
  }

  /** The directories on the way to `p`: what create_dir_all of its parent makes. */
  function Ancestors(p: string): set<string> {
    set k | 0 <= k < |p| && p[k] == '/' :: p[..k]
  }

  lemma AncestorIsPrefix(p: string, a: string) returns (rel: string)
    requires a in Ancestors(p)
    ensures p == Under(a, rel)
  {
    var k :| 0 <= k < |p| && p[k] == '/' && p[..k] == a;
    rel := p[k + 1..];
  }

  lemma NoAncestors(name: string)
    requires '/' !in name
    ensures Ancestors(name) == {}
  {
  }

  // ----- what stage_extract refuses -----

  predicate Separator(c: char) {
    c == '/' || c == '\\'
  }

  /** Some segment between separators, the first one continuing `seg`, is "..". */
  predicate DotDotFrom(seg: string, p: string)
    decreases p
  {
    if p == "" then seg == ".."
    else if Separator(p[0]) then seg == ".." || DotDotFrom("", p[1..])
    else DotDotFrom(seg + [p[0]], p[1..])
  }

  predicate HasDotDot(p: string) {
    DotDotFrom("", p)
  }

  predicate SafeName(p: string) {
    (p != "" ==> !Separator(p[0])) && !HasDotDot(p)
  }

  lemma {:induction false} DotDotConcat(seg: string, a: string, b: string)
    ensures DotDotFrom(seg, Under(a, b)) <==> DotDotFrom(seg, a) || HasDotDot(b)
    decreases a
  {
    var p := Under(a, b);
    if a == "" {
      assert p[0] == '/' && p[1..] == b;
    } else {
      assert p[1..] == Under(a[1..], b) && p[0] == a[0];
      DotDotConcat(if Separator(a[0]) then "" else seg + [a[0]], a[1..], b);
    }
  }

  lemma {:induction false} DotDotWithoutSeparator(seg: string, name: string)
    requires forall c :: c in name ==> !Separator(c)
    ensures DotDotFrom(seg, name) <==> seg + name == ".."
    decreases name
  {
    if name == "" {
      assert seg + name == seg;
    } else {
      DotDotWithoutSeparator(seg + [name[0]], name[1..]);
      assert seg + [name[0]] + name[1..] == seg + name;
    }
  }
}
