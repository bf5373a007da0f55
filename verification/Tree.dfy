/**
 The on-disk trees a backup walks (server/src/backup.rs): which files it archives and under which
 names, told by walking and, independently, by looking a path up.
 */
module Tree {
  import opened Wrappers
  import opened Paths

  newtype Byte = x: int | 0 <= x < 256

  type Bytes = seq<Byte>

  /** `Special` stands for what is neither a file nor a directory: links, sockets. */
  datatype Node = File(bytes: Bytes) | Dir(entries: seq<Entry>) | Special

  datatype Entry = Entry(name: string, node: Node)

  /** One entry of the zip. */
  datatype Member = Member(name: string, bytes: Bytes)

  /** Uploads are written through a .tmp directory and *.tmp siblings; both are left out. */
  predicate Skipped(name: string) {
    name == ".tmp" || (|name| >= 4 && name[|name| - 4..] == ".tmp")
  }

  /** The order is the order in which the directories list their entries. */
  function Walk(entries: seq<Entry>, prefix: string): seq<Member>
    decreases entries, 0
  {
    if entries == [] then [] else WalkEntry(entries[0], prefix) + Walk(entries[1..], prefix)
  }

  function WalkEntry(e: Entry, prefix: string): seq<Member>
    decreases e, 1
  {
    if Skipped(e.name) then []
    else match e.node
      case File(bytes) => [Member(Under(prefix, e.name), bytes)]
      case Dir(entries) => Walk(entries, Under(prefix, e.name))
      case Special => []
  }

  /** The regular file at `path`, unless a name on the way is skipped. */
  function Resolve(entries: seq<Entry>, path: string): Option<Bytes>
    decreases entries, 0
  {
    if entries == [] then None
    else if entries[0].name == Head(path) then ResolveEntry(entries[0], path)
    else Resolve(entries[1..], path)
  }

  function ResolveEntry(e: Entry, path: string): Option<Bytes>
    decreases e, 1
  {
    if Skipped(e.name) then None
    else match e.node
      case File(bytes) => if HasTail(path) then None else Some(bytes)
      case Dir(entries) => if HasTail(path) then Resolve(entries, Tail(path)) else None
      case Special => None
  }

  /** What a file system guarantees: names are non-empty, hold no slash, and differ within a directory. */
  predicate WellNamed(entries: seq<Entry>)
    decreases entries, 0
  {
    entries == [] ||
    (EntryNamed(entries[0]) && WellNamed(entries[1..]) &&
     (forall k :: 1 <= k < |entries| ==> entries[k].name != entries[0].name))
  }

  predicate EntryNamed(e: Entry)
    decreases e, 1
  {
    Plain(e.name) && e.name != ".." && (e.node.Dir? ==> WellNamed(e.node.entries))
  }

  predicate NoBackslash(entries: seq<Entry>)
    decreases entries, 0
  {
    entries == [] || (EntryNoBackslash(entries[0]) && NoBackslash(entries[1..]))
  }

  predicate EntryNoBackslash(e: Entry)
    decreases e, 1
  {
    '\\' !in e.name && (e.node.Dir? ==> NoBackslash(e.node.entries))
  }

  // ----- walking and looking up agree -----

  lemma {:induction false} WalkConcat(a: seq<Entry>, b: seq<Entry>, prefix: string)
    ensures Walk(a + b, prefix) == Walk(a, prefix) + Walk(b, prefix)
  {
    if a == [] {
      assert a + b == b;
    } else {
      assert (a + b)[1..] == a[1..] + b;
      WalkConcat(a[1..], b, prefix);
    }
  }

  /** The members around one entry of a directory. */
  lemma WalkAt(entries: seq<Entry>, i: nat, prefix: string)
    requires i < |entries|
    ensures Walk(entries[..i + 1], prefix) == Walk(entries[..i], prefix) + WalkEntry(entries[i], prefix)
    ensures Walk(entries, prefix) ==
            Walk(entries[..i], prefix) + WalkEntry(entries[i], prefix) + Walk(entries[i + 1..], prefix)
  {
    var one := [entries[i]];
    assert one[1..] == [] && Walk(one, prefix) == WalkEntry(entries[i], prefix);
    assert entries[..i + 1] == entries[..i] + one && entries == entries[..i + 1] + entries[i + 1..];
    WalkConcat(entries[..i], one, prefix);
    WalkConcat(entries[..i + 1], entries[i + 1..], prefix);
  }

  lemma {:induction false} ResolvedHeads(entries: seq<Entry>, path: string)
    requires Resolve(entries, path).Some?
    ensures exists k :: 0 <= k < |entries| && entries[k].name == Head(path)
    decreases entries
  {
    if entries[0].name != Head(path) {
      ResolvedHeads(entries[1..], path);
      var k :| 0 <= k < |entries[1..]| && entries[1..][k].name == Head(path);
      assert entries[k + 1].name == Head(path);
    }
  }

  /** A found file comes from the first entry or from the rest, by its head. */
  lemma ResolveSplits(entries: seq<Entry>, path: string)
    requires entries != [] && WellNamed(entries)
    ensures Resolve(entries[1..], path).Some? ==> entries[0].name != Head(path)
    ensures Resolve(entries, path) ==
            if entries[0].name == Head(path) then ResolveEntry(entries[0], path) else Resolve(entries[1..], path)
  {
    if Resolve(entries[1..], path).Some? {
      ResolvedHeads(entries[1..], path);
      var k :| 0 <= k < |entries[1..]| && entries[1..][k].name == Head(path);
      assert entries[k + 1].name == Head(path);
    }
  }

  /** Every archived member is a file of the tree under its path. */
  lemma {:induction false} WalkSound(entries: seq<Entry>, prefix: string, m: Member) returns (rel: string)
    requires WellNamed(entries) && m in Walk(entries, prefix)
    ensures m.name == Under(prefix, rel) && Resolve(entries, rel) == Some(m.bytes)
    decreases entries, 0
  {
    if m in WalkEntry(entries[0], prefix) {
      rel := WalkEntrySound(entries[0], prefix, m);
    } else {
      rel := WalkSound(entries[1..], prefix, m);
      ResolveSplits(entries, rel);
    }
  }

  lemma {:induction false} WalkEntrySound(e: Entry, prefix: string, m: Member) returns (rel: string)
    requires EntryNamed(e) && m in WalkEntry(e, prefix)
    ensures m.name == Under(prefix, rel) && Head(rel) == e.name && ResolveEntry(e, rel) == Some(m.bytes)
    decreases e, 1
  {
    match e.node {
      case File(_) =>
        rel := e.name;
        HeadOfPlain(rel);
      case Dir(inner) =>
        var r := WalkSound(inner, Under(prefix, e.name), m);
        rel := Under(e.name, r);
        UnderUnder(prefix, e.name, r);
        HeadOfUnder(e.name, r);
    }
  }

  /** Every file of the tree is archived under its path. */
  lemma {:induction false} WalkComplete(entries: seq<Entry>, prefix: string, rel: string)
    requires WellNamed(entries) && Resolve(entries, rel).Some?
    ensures Member(Under(prefix, rel), Resolve(entries, rel).value) in Walk(entries, prefix)
    decreases entries, 0
  {
    if entries[0].name == Head(rel) {
      WalkEntryComplete(entries[0], prefix, rel);
    } else {
      WalkComplete(entries[1..], prefix, rel);
    }
  }

  lemma {:induction false} WalkEntryComplete(e: Entry, prefix: string, rel: string)
    requires EntryNamed(e) && Head(rel) == e.name && ResolveEntry(e, rel).Some?
    ensures Member(Under(prefix, rel), ResolveEntry(e, rel).value) in WalkEntry(e, prefix)
    decreases e, 1
  {
    match e.node {
      case File(_) =>
        assert rel == Head(rel);
      case Dir(inner) =>
        SplitAtSlash(rel);
        WalkComplete(inner, Under(prefix, e.name), Tail(rel));
        UnderUnder(prefix, e.name, Tail(rel));
    }
  }

  predicate DistinctNames(ms: seq<Member>) {
    forall i, j :: 0 <= i < j < |ms| ==> ms[i].name != ms[j].name
  }

  lemma DistinctConcat(a: seq<Member>, b: seq<Member>)
    requires DistinctNames(a) && DistinctNames(b)
    requires forall m, n :: m in a && n in b ==> m.name != n.name
    ensures DistinctNames(a + b)
  {
    forall i, j | 0 <= i < j < |a + b|
      ensures (a + b)[i].name != (a + b)[j].name
    {
      if i < |a| && j >= |a| {
        assert a[i] in a && b[j - |a|] in b;
      }
    }
  }

  lemma {:induction false} WalkDistinct(entries: seq<Entry>, prefix: string)
    requires WellNamed(entries)
    ensures DistinctNames(Walk(entries, prefix))
    decreases entries, 0
  {
    if entries != [] {
      var e, rest := entries[0], entries[1..];
      WalkEntryDistinct(e, prefix);
      WalkDistinct(rest, prefix);
      forall m, n | m in WalkEntry(e, prefix) && n in Walk(rest, prefix)
        ensures m.name != n.name
      {
        var r := WalkEntrySound(e, prefix, m);
        var s := WalkSound(rest, prefix, n);
        ResolveSplits(entries, s);
        if m.name == n.name {
          UnderInjective(prefix, r, s);
        }
      }
      DistinctConcat(WalkEntry(e, prefix), Walk(rest, prefix));
    }
  }

  lemma {:induction false} WalkEntryDistinct(e: Entry, prefix: string)
    requires EntryNamed(e)
    ensures DistinctNames(WalkEntry(e, prefix))
    decreases e, 1
  {
    if !Skipped(e.name) && e.node.Dir? {
      WalkDistinct(e.node.entries, Under(prefix, e.name));
    }
  }

  /** No path leads through a file. */
  lemma {:induction false} NothingUnderFile(entries: seq<Entry>, p: string, rel: string)
    requires WellNamed(entries) && Resolve(entries, p).Some?
    ensures Resolve(entries, Under(p, rel)) == None
    decreases entries, 0
  {
    if HasTail(p) {
      SplitAtSlash(p);
      UnderUnder(Head(p), Tail(p), rel);
      HeadOfUnder(Head(p), Under(Tail(p), rel));
    } else {
      HeadOfUnder(p, rel);
    }
    assert Head(Under(p, rel)) == Head(p);
    if entries[0].name != Head(p) {
      NothingUnderFile(entries[1..], p, rel);
    } else if entries[0].node.Dir? {
      NothingUnderFile(entries[0].node.entries, Tail(p), rel);
    }
  }

  // ----- names stage_extract accepts -----

  lemma {:induction false} PlainNamesHaveNoDotDot(entries: seq<Entry>, path: string)
    requires WellNamed(entries) && NoBackslash(entries) && Resolve(entries, path).Some?
    ensures !HasDotDot(path)
    decreases entries, 0
  {
    var e := entries[0];
    if e.name != Head(path) {
      PlainNamesHaveNoDotDot(entries[1..], path);
    } else {
      DotDotWithoutSeparator("", e.name);
      assert "" + e.name == e.name;
      if HasTail(path) {
        SplitAtSlash(path);
        DotDotConcat("", e.name, Tail(path));
        PlainNamesHaveNoDotDot(e.node.entries, Tail(path));
      } else {
        assert path == e.name;
      }
    }
  }

  lemma {:induction false} ResolvedName(entries: seq<Entry>, path: string)
    requires WellNamed(entries) && Resolve(entries, path).Some?
    ensures path != "" && path[|path| - 1] != '/'
    decreases entries
  {
    if entries[0].name != Head(path) {
      ResolvedName(entries[1..], path);
    } else if HasTail(path) {
      SplitAtSlash(path);
      ResolvedName(entries[0].node.entries, Tail(path));
    } else {
      assert path == Head(path);
    }
  }

  // ----- a tree walked from its own root -----

  function Slashed(ms: seq<Member>): seq<Member> {
    seq(|ms|, k requires 0 <= k < |ms| => Member(Under("", ms[k].name), ms[k].bytes))
  }

  lemma SlashedConcat(a: seq<Member>, b: seq<Member>)
    ensures Slashed(a + b) == Slashed(a) + Slashed(b)
  {
  }

  lemma {:induction false} WalkSlashed(entries: seq<Entry>, prefix: string)
    ensures Walk(entries, Under("", prefix)) == Slashed(Walk(entries, prefix))
    decreases entries, 0
  {
    if entries != [] {
      WalkEntrySlashed(entries[0], prefix);
      WalkSlashed(entries[1..], prefix);
      SlashedConcat(WalkEntry(entries[0], prefix), Walk(entries[1..], prefix));
    }
  }

  lemma {:induction false} WalkEntrySlashed(e: Entry, prefix: string)
    ensures WalkEntry(e, Under("", prefix)) == Slashed(WalkEntry(e, prefix))
    decreases e, 1
  {
    UnderUnder("", prefix, e.name);
    if e.node.Dir? {
      WalkSlashed(e.node.entries, Under(prefix, e.name));
    }
  }

  /** `ms` is what walking `entries` archives, named from their own directory. */
  predicate WalkedFrom(entries: seq<Entry>, ms: seq<Member>) {
    Walk(entries, "") == Slashed(ms)
  }

  lemma WalkedExact(entries: seq<Entry>, ms: seq<Member>, m: Member)
    requires WellNamed(entries) && WalkedFrom(entries, ms)
    ensures m in ms <==> Resolve(entries, m.name) == Some(m.bytes)
  {
    var slashed := Member(Under("", m.name), m.bytes);
    if m in ms {
      var k :| 0 <= k < |ms| && ms[k] == m;
      assert Slashed(ms)[k] == slashed;
      var rel := WalkSound(entries, "", slashed);
      UnderInjective("", m.name, rel);
    }
    if Resolve(entries, m.name) == Some(m.bytes) {
      WalkComplete(entries, "", m.name);
      var k :| 0 <= k < |Slashed(ms)| && Slashed(ms)[k] == slashed;
      UnderInjective("", ms[k].name, m.name);
      assert ms[k] == m;
    }
  }

  lemma WalkedDistinct(entries: seq<Entry>, ms: seq<Member>)
    requires WellNamed(entries) && WalkedFrom(entries, ms)
    ensures DistinctNames(ms)
  {
    WalkDistinct(entries, "");
    forall i, j | 0 <= i < j < |ms|
      ensures ms[i].name != ms[j].name
    {
      assert Slashed(ms)[i].name != Slashed(ms)[j].name;
    }
  }

  /** No archived name is a directory on the way to another path with a file. */
  lemma NoFileOnTheWay(entries: seq<Entry>, name: string, path: string)
    requires WellNamed(entries) && Resolve(entries, name).Some? && Resolve(entries, path).Some?
    ensures name !in Ancestors(path)
  {
    if name in Ancestors(path) {
      var rel := AncestorIsPrefix(path, name);
      NothingUnderFile(entries, name, rel);
    }
  }
}
