/** When the desktop client updates itself (desktop/src/update.rs, desktop/src/update_verify.rs, desktop/src/oci.rs). */
module Updates {
  import opened Wrappers
  import opened Ordering

  // ----- comparing versions -----

  function TrimV(s: string): (t: string)
    ensures t == "" || t[0] != 'v'
    ensures s == "" || s[0] != 'v' ==> t == s
  {
    if s != "" && s[0] == 'v' then TrimV(s[1..]) else s
  }

  predicate Separator(c: char) {
    c == '.' || c == '-' || c == '+'
  }

  /** The stretch before the first separator. */
  function FirstChunk(s: string): (h: string)
    ensures |h| <= |s| && h == s[..|h|] && (forall c :: c in h ==> !Separator(c))
    ensures |h| < |s| ==> Separator(s[|h|])
  {
    if s == "" || Separator(s[0]) then "" else [s[0]] + FirstChunk(s[1..])
  }

  function Chunks(s: string): (cs: seq<string>)
    ensures cs != []
    decreases |s|
  {
    var h := FirstChunk(s);
    if |h| == |s| then [h] else [h] + Chunks(s[|h| + 1..])
  }

  predicate Digits(s: string) {
    forall i :: 0 <= i < |s| ==> '0' <= s[i] <= '9'
  }

  function Value(s: string): nat
    requires Digits(s)
  {
    if s == "" then 0 else 10 * Value(s[..|s| - 1]) + (s[|s| - 1] as int - '0' as int)
  }

  /** A 64-bit number, or 0 for anything else. */
  function Number(chunk: string): nat {
    if chunk != "" && Digits(chunk) && Value(chunk) < 0x1_0000_0000_0000_0000 then Value(chunk) else 0
  }

  function Numbers(cs: seq<string>): (ns: seq<int>)
    ensures |ns| == |cs|
  {
    if cs == [] then [] else [Number(cs[0])] + Numbers(cs[1..])
  }

  const Compared := 4

  /** What is compared first: up to four chunks as numbers. */
  function Parts(s: string): seq<int> {
    var cs := Chunks(TrimV(s));
    Numbers(if |cs| <= Compared then cs else cs[..Compared])
  }

  predicate IsNewer(remote: string, local: string) {
    var r, l := Parts(remote), Parts(local);
    if r == l then StringLess(TrimV(local), TrimV(remote)) else IntsLess(l, r)
  }

  /** Newer is a strict total order of the version strings, as far as they differ after their leading v's. */
  lemma NewerIsAnOrder(a: string, b: string, c: string)
    ensures TrimV(a) == TrimV(b) ==> !IsNewer(a, b) && !IsNewer(b, a)
    ensures TrimV(a) != TrimV(b) ==> (IsNewer(a, b) <==> !IsNewer(b, a))
    ensures IsNewer(a, b) && IsNewer(b, c) ==> IsNewer(a, c)
  {
    StringOrder();
    IntsOrder();
    hide StringLess, IntsLess, TrimV, Parts;
    SameParts(a, b);
  }

  /** The first compared chunk that differs decides, as a number. */
  lemma HigherNumberIsNewer(remote: string, local: string, i: nat)
    requires i < |Parts(remote)| && i < |Parts(local)| && Parts(remote)[..i] == Parts(local)[..i]
    ensures Parts(remote)[i] > Parts(local)[i] ==> IsNewer(remote, local)
    ensures Parts(remote)[i] < Parts(local)[i] ==> !IsNewer(remote, local)
  {
    var r, l := Parts(remote), Parts(local);
    if r[i] != l[i] {
      FirstDifference(l, r, i);
      FirstDifference(r, l, i);
    }
  }

  lemma {:induction false} FirstDifference(a: seq<int>, b: seq<int>, i: nat)
    requires i < |a| && i < |b| && a[..i] == b[..i] && a[i] != b[i]
    ensures IntsLess(a, b) <==> a[i] < b[i]
  {
    if i > 0 {
      assert a[0] == a[..i][0] == b[..i][0] == b[0];
      assert a[1..][..i - 1] == a[..i][1..] && b[1..][..i - 1] == b[..i][1..];
      FirstDifference(a[1..], b[1..], i - 1);
    }
  }

  lemma SameParts(a: string, b: string)
    ensures TrimV(a) == TrimV(b) ==> Parts(a) == Parts(b)
  {
  }

  lemma ChunksStep(s: string)
    ensures var h := FirstChunk(s); Chunks(s) == if |h| == |s| then [h] else [h] + Chunks(s[|h| + 1..])
  {
  }

  lemma Regroup<T>(a: seq<T>, b: seq<T>, c: seq<T>)
    ensures a + (b + c) == a + b + c
  {
  }

  lemma AfterChunk(a: string, sep: char, b: string, n: nat)
    requires n <= |a|
    ensures (a + [sep] + b)[n + 1..] == if n == |a| then b else a[n + 1..] + [sep] + b
  {
  }

  lemma {:induction false} ChunksConcat(a: string, sep: char, b: string)
    requires Separator(sep)
    ensures Chunks(a + [sep] + b) == Chunks(a) + Chunks(b)
    decreases |a|
  {
    hide Chunks, FirstChunk;
    var s, h := a + [sep] + b, FirstChunk(a);
    FirstChunkThere(a, sep, b);
    ChunksStep(s);
    ChunksStep(a);
    assert |a| < |s|;
    AfterChunk(a, sep, b, |h|);
    if |h| < |a| {
      var rest := a[|h| + 1..];
      ChunksConcat(rest, sep, b);
      Regroup([h], Chunks(rest), Chunks(b));
    }
  }

  lemma {:induction false} FirstChunkThere(a: string, sep: char, b: string)
    requires Separator(sep)
    ensures FirstChunk(a + [sep] + b) == FirstChunk(a)
  {
    if a != "" && !Separator(a[0]) {
      assert (a + [sep] + b)[1..] == a[1..] + [sep] + b;
      FirstChunkThere(a[1..], sep, b);
    }
  }

  lemma {:induction false} TrimThere(a: string, sep: char, b: string)
    requires Separator(sep)
    ensures TrimV(a + [sep] + b) == TrimV(a) + [sep] + b
  {
    if a != "" && a[0] == 'v' {
      assert (a + [sep] + b)[1..] == a[1..] + [sep] + b;
      TrimThere(a[1..], sep, b);
    }
  }

  lemma {:induction false} NumbersConcat(a: seq<string>, b: seq<string>)
    ensures Numbers(a + b) == Numbers(a) + Numbers(b)
  {
    if a == [] {
      assert a + b == b;
    } else {
      assert (a + b)[1..] == a[1..] + b;
      NumbersConcat(a[1..], b);
    }
  }

  lemma {:induction false} PrefixIsLess(a: seq<int>, b: seq<int>)
    requires b != []
    ensures IntsLess(a, a + b)
  {
    if a != [] {
      assert (a + b)[1..] == a[1..] + b;
      PrefixIsLess(a[1..], b);
    }
  }

  lemma AttachedParts(version: string, sep: char, suffix: string) returns (more: seq<int>)
    requires Separator(sep) && |Chunks(TrimV(version))| < Compared
    ensures more != [] && Parts(version + [sep] + suffix) == Parts(version) + more
  {
    var a, b := Chunks(TrimV(version)), Chunks(suffix);
    TrimThere(version, sep, suffix);
    ChunksConcat(TrimV(version), sep, suffix);
    hide Chunks, TrimV;
    var kept := if |a + b| <= Compared then b else b[..Compared - |a|];
    assert (if |a + b| <= Compared then a + b else (a + b)[..Compared]) == a + kept && kept != [];
    NumbersConcat(a, kept);
    more := Numbers(kept);
  }

  /**
   Anything attached to a version of fewer than four chunks makes it newer, whatever it says: a
   release candidate counts as newer than its release, and is never replaced by it.
   */
  lemma AttachedIsNewer(version: string, sep: char, suffix: string)
    requires Separator(sep) && |Chunks(TrimV(version))| < Compared
    ensures IsNewer(version + [sep] + suffix, version) && !IsNewer(version, version + [sep] + suffix)
  {
    hide Parts, Chunks, TrimV, IntsLess, StringLess;
    var longer := version + [sep] + suffix;
    var more := AttachedParts(version, sep, suffix);
    PrefixIsLess(Parts(version), more);
    assert Parts(version) + more != Parts(version);
    NewerIsAnOrder(longer, version, version);
  }

  lemma CandidateOutranksRelease()
    ensures IsNewer("1.0.0-rc1", "1.0.0") && !IsNewer("1.0.0", "1.0.0-rc1")
  {
    ThreeChunks();
    assert "1.0.0" + ['-'] + "rc1" == "1.0.0-rc1";
    AttachedIsNewer("1.0.0", '-', "rc1");
  }

  lemma OneChunk(c: char)
    requires !Separator(c)
    ensures |Chunks([c])| == 1
  {
    assert FirstChunk([c]) == [c];
  }

  lemma ThreeChunks()
    ensures |Chunks(TrimV("1.0.0"))| < Compared
  {
    hide Chunks;
    var a, b := "1.0", "0";
    assert "1.0.0" == a + ['.'] + b && a == "1" + ['.'] + b;
    OneChunk('1');
    OneChunk('0');
    ChunksConcat("1", '.', b);
    ChunksConcat(a, '.', b);
  }

  // ----- installing -----

  datatype Artifact = Artifact(version: string, digest: string, size: nat)

  datatype Outcome = Updated(version: string) | AlreadyLatest | Failed

  const DigestPrefix := "sha256:"

  function Sha256Hex(a: Artifact): Option<string> {
    if DigestPrefix <= a.digest then Some(a.digest[|DigestPrefix|..]) else None
  }

  /** What the outside contributes to one attempt: the registry's answers, and whether the file could be written and swapped in. */
  datatype Attempt<Body> = Attempt(artifact: Option<Artifact>, body: Option<Body>, length: nat, written: bool, replaced: bool)

  /** Whether a download may be installed. `matches` compares the body's SHA-256 with a hexadecimal one. */
  predicate Acceptable<Body>(a: Attempt<Body>, matches: (Body, string) -> bool) {
    a.artifact.Some? && Sha256Hex(a.artifact.value).Some? && a.body.Some?
    && (a.artifact.value.size == 0 || a.length == a.artifact.value.size)
    && matches(a.body.value, Sha256Hex(a.artifact.value).value)
  }

  /** The version one attempt puts in place of `local`, if any. */
  function AfterApply<Body>(local: string, a: Attempt<Body>, matches: (Body, string) -> bool): Option<string> {
    if Acceptable(a, matches) && IsNewer(a.artifact.value.version, local) && a.written && a.replaced
    then Some(a.artifact.value.version) else None
  }

  /** The running installation; an installed binary reports the version of its artifact. */
  class Installation<Body> {
    var version: string
    var binary: Option<Body>

    constructor (v: string)
      ensures version == v && binary == None
    {
      version, binary := v, None;
    }

    method Apply(a: Attempt<Body>, matches: (Body, string) -> bool) returns (r: Outcome)
      modifies this
      ensures r.Updated? <==>
              Acceptable(a, matches) && IsNewer(a.artifact.value.version, old(version)) && a.written && a.replaced
      ensures r == AlreadyLatest <==> a.artifact.Some? && !IsNewer(a.artifact.value.version, old(version))
      ensures if r.Updated? then r.version == version == a.artifact.value.version && binary == a.body
              else version == old(version) && binary == old(binary)
      ensures AfterApply(old(version), a, matches) == if r.Updated? then Some(version) else None
    {
      if a.artifact.None? {
        return Failed;
      }
      var artifact := a.artifact.value;
      if !IsNewer(artifact.version, version) {
        return AlreadyLatest;
      }
      var expected := Sha256Hex(artifact);
      if expected.None? || a.body.None? {
        return Failed;
      }
      if artifact.size > 0 && a.length != artifact.size {
        return Failed;
      }
      if !matches(a.body.value, expected.value) || !a.written || !a.replaced {
        return Failed;
      }
      version, binary := artifact.version, a.body;
      return Updated(artifact.version);
    }
  }

  /** The versions a run of attempts goes through, the first one included. */
  function Versions<Body>(local: string, run: seq<Attempt<Body>>, matches: (Body, string) -> bool): (vs: seq<string>)
    ensures vs != [] && vs[0] == local
    decreases run
  {
    if run == [] then [local]
    else match AfterApply(local, run[0], matches)
      case None => Versions(local, run[1..], matches)
      case Some(v) => [local] + Versions(v, run[1..], matches)
  }

  /** Over any run, whatever the registry offers, a later version is newer than every earlier one; none comes twice. */
  lemma {:induction false} RunsOnlyUpgrade<Body>(local: string, run: seq<Attempt<Body>>, matches: (Body, string) -> bool, i: nat, j: nat)
    requires i < j < |Versions(local, run, matches)|
    ensures var vs := Versions(local, run, matches);
            IsNewer(vs[j], vs[i]) && TrimV(vs[j]) != TrimV(vs[i])
    decreases run
  {
    hide IsNewer, Acceptable, TrimV;
    match AfterApply(local, run[0], matches)
    case None =>
      RunsOnlyUpgrade(local, run[1..], matches, i, j);
    case Some(v) =>
      var vs := Versions(v, run[1..], matches);
      var later := if j == 1 then v else vs[j - 1];
      if i > 0 {
        RunsOnlyUpgrade(v, run[1..], matches, i - 1, j - 1);
      } else if j > 1 {
        RunsOnlyUpgrade(v, run[1..], matches, 0, j - 1);
        NewerIsAnOrder(later, v, local);
      }
      NewerIsAnOrder(later, local, local);
  }
}
