/** Building, verifying and extracting a backup archive (server/src/backup.rs). */
module Archive {
  import opened Wrappers
  import opened Paths
  import opened Tree

  datatype ManifestEntry = ManifestEntry(path: string, size: nat, sha256: string)

  datatype Manifest = Manifest(version: string, gitHash: string, createdAt: string, files: seq<ManifestEntry>)

  /** SHA-256 in hexadecimal, and the manifest's JSON form, as functions nothing else is known about. */
  datatype Codec = Codec(sha: Bytes -> string, write: Manifest -> Bytes, parse: Bytes -> Option<Manifest>)

  /** What is written can be read back. */
  ghost predicate Faithful(c: Codec) {
    forall m: Manifest :: c.parse(c.write(m)) == Some(m)
  }

  datatype Error =
    | DuplicateName(name: string)
    | MissingManifest
    | BadManifest
    | WrongVersion
    | MissingFile(path: string)
    | SizeMismatch(path: string)
    | HashMismatch(path: string)
    | UnsafePath(name: string)
    | NotADirectory(name: string)

  const ManifestName := "manifest.json"

  // ----- building -----

  function EntryFor(m: Member, sha: Bytes -> string): ManifestEntry {
    ManifestEntry(m.name, |m.bytes|, sha(m.bytes))
  }

  function EntriesFor(ms: seq<Member>, sha: Bytes -> string): seq<ManifestEntry> {
    seq(|ms|, k requires 0 <= k < |ms| => EntryFor(ms[k], sha))
  }

  function WalkRoot(root: Option<seq<Entry>>, prefix: string): seq<Member> {
    match root
    case None => []
    case Some(entries) => Walk(entries, prefix)
  }

  /** The three snapshots and the two trees; a tree is absent when its directory is. */
  datatype Source = Source(auth: Bytes, chat: Bytes, settings: Bytes,
                           uploads: Option<seq<Entry>>, avatars: Option<seq<Entry>>)

  function Snapshots(s: Source): seq<Member> {
    [Member("auth.db", s.auth), Member("chat.db", s.chat), Member("settings.db", s.settings)]
  }

  function Archived(s: Source): seq<Member> {
    Snapshots(s) + WalkRoot(s.uploads, "uploads") + WalkRoot(s.avatars, "avatars")
  }

  function ManifestFor(s: Source, version: string, gitHash: string, createdAt: string, c: Codec): Manifest {
    Manifest(version, gitHash, createdAt, EntriesFor(Archived(s), c.sha))
  }

  function ZipFor(s: Source, version: string, gitHash: string, createdAt: string, c: Codec): seq<Member> {
    Archived(s) + [Member(ManifestName, c.write(ManifestFor(s, version, gitHash, createdAt, c)))]
  }

  predicate Named(ms: seq<Member>, name: string) {
    exists k :: 0 <= k < |ms| && ms[k].name == name
  }

  /** The zip writer together with the manifest entries collected so far. */
  class ArchiveWriter {
    var members: seq<Member>
    var entries: seq<ManifestEntry>

    constructor ()
      ensures members == [] && entries == []
    {
      members, entries := [], [];
    }

    method StartFile(name: string) returns (ok: bool)
      modifies this`members
      ensures ok == !Named(old(members), name)
      ensures members == if ok then old(members) + [Member(name, [])] else old(members)
    {
      ok := true;
      for i := 0 to |members|
        invariant ok == !Named(members[..i], name)
      {
        assert members[..i + 1] == members[..i] + [members[i]];
        if members[i].name == name {
          ok := false;
          assert members[..i + 1][i].name == name;
        } else if !ok {
          var k :| 0 <= k < |members[..i]| && members[..i][k].name == name;
          assert members[..i + 1][k].name == name;
        }
      }
      assert members[..|members|] == members;
      if ok {
        members := members + [Member(name, [])];
      }
    }

    method WriteAll(chunk: Bytes)
      requires members != []
      modifies this`members
      ensures members == old(members)[..|old(members)| - 1] +
                         [Member(old(members)[|old(members)| - 1].name, old(members)[|old(members)| - 1].bytes + chunk)]
    {
      var last := members[|members| - 1];
      members := members[..|members| - 1] + [Member(last.name, last.bytes + chunk)];
    }

    /** Copies in chunks of the read's choosing, hashing what it copies. */
    method StreamFileIntoZip(name: string, src: Bytes, sha: Bytes -> string) returns (ok: bool)
      modifies this
      ensures ok == !Named(old(members), name)
      ensures ok ==> members == old(members) + [Member(name, src)]
      ensures ok ==> entries == old(entries) + [EntryFor(Member(name, src), sha)]
    {
      ok := StartFile(name);
      if !ok {
        return;
      }
      var absorbed: Bytes := [];
      var total := 0;
      while total < |src|
        invariant total <= |src| && absorbed == src[..total]
        invariant members == old(members) + [Member(name, absorbed)] && entries == old(entries)
      {
        var n :| 1 <= n <= 64 * 1024 && total + n <= |src|;
        var buf := src[total..total + n];
        absorbed := absorbed + buf;
        WriteAll(buf);
        total := total + n;
      }
      assert src[..total] == src;
      entries := entries + [ManifestEntry(name, total, sha(absorbed))];
    }

    method WalkIntoZip(src: seq<Entry>, prefix: string, sha: Bytes -> string) returns (ok: bool)
      modifies this
      ensures ok ==> members == old(members) + Walk(src, prefix)
      ensures ok ==> entries == old(entries) + EntriesFor(Walk(src, prefix), sha)
      ensures DistinctNames(old(members) + Walk(src, prefix)) ==> ok
      decreases src, 0
    {
      NothingWalked(prefix, sha);
      hide Walk, WalkEntry, EntriesFor, DistinctNames;
      var i := 0;
      assert src[..i] == [];
      while i < |src|
        invariant 0 <= i <= |src|
        invariant members == old(members) + Walk(src[..i], prefix)
        invariant entries == old(entries) + EntriesFor(Walk(src[..i], prefix), sha)
      {
        WalkAt(src, i, prefix);
        DistinctBefore(old(members), Walk(src[..i], prefix), WalkEntry(src[i], prefix), Walk(src[i + 1..], prefix));
        EntriesConcat(Walk(src[..i], prefix), WalkEntry(src[i], prefix), sha);
        ok := EntryIntoZip(src[i], prefix, sha);
        if !ok {
          return;
        }
        i := i + 1;
      }
      assert src[..i] == src;
      return true;
    }

    method EntryIntoZip(e: Entry, prefix: string, sha: Bytes -> string) returns (ok: bool)
      modifies this
      ensures ok ==> members == old(members) + WalkEntry(e, prefix)
      ensures ok ==> entries == old(entries) + EntriesFor(WalkEntry(e, prefix), sha)
      ensures DistinctNames(old(members) + WalkEntry(e, prefix)) ==> ok
      decreases e, 1
    {
      ok := true;
      if e.name == ".tmp" || (|e.name| >= 4 && e.name[|e.name| - 4..] == ".tmp") {
        return;
      }
      var arcName := prefix + "/" + e.name;
      match e.node {
        case Dir(inner) =>
          ok := WalkIntoZip(inner, arcName, sha);
        case File(bytes) =>
          ok := StreamFileIntoZip(arcName, bytes, sha);
          if !ok {
            NamedMember(old(members), Member(arcName, bytes));
          }
        case Special =>
      }
    }

    method SnapshotsIntoZip(s: Source, sha: Bytes -> string)
      requires members == [] && entries == []
      modifies this
      ensures members == Snapshots(s) && entries == EntriesFor(Snapshots(s), sha)
    {
      var ok := StreamFileIntoZip("auth.db", s.auth, sha);
      ok := StreamFileIntoZip("chat.db", s.chat, sha);
      ok := StreamFileIntoZip("settings.db", s.settings, sha);
    }

    /** A root directory that does not exist is passed over. */
    method RootIntoZip(root: Option<seq<Entry>>, prefix: string, sha: Bytes -> string) returns (ok: bool)
      modifies this
      ensures ok ==> members == old(members) + WalkRoot(root, prefix)
      ensures ok ==> entries == old(entries) + EntriesFor(WalkRoot(root, prefix), sha)
      ensures DistinctNames(old(members) + WalkRoot(root, prefix)) ==> ok
    {
      ok := true;
      if root.Some? {
        ok := WalkIntoZip(root.value, prefix, sha);
      }
    }

    method ManifestIntoZip(version: string, gitHash: string, createdAt: string, c: Codec) returns (ok: bool)
      modifies this
      ensures var m := Member(ManifestName, c.write(Manifest(version, gitHash, createdAt, entries)));
              && (ok ==> members == old(members) + [m])
              && (DistinctNames(old(members) + [m]) ==> ok)
      ensures entries == old(entries)
    {
      var manifest := Manifest(version, gitHash, createdAt, entries);
      ok := StartFile(ManifestName);
      if !ok {
        NamedMember(old(members), Member(ManifestName, c.write(manifest)));
        return;
      }
      WriteAll(c.write(manifest));
      assert [] + c.write(manifest) == c.write(manifest);
      assert members == old(members) + [Member(ManifestName, c.write(manifest))];
    }

    method BuildZip(s: Source, version: string, gitHash: string, createdAt: string, c: Codec) returns (ok: bool)
      requires members == [] && entries == []
      modifies this
      ensures ok ==> members == ZipFor(s, version, gitHash, createdAt, c)
      ensures DistinctNames(ZipFor(s, version, gitHash, createdAt, c)) ==> ok
    {
      PartsDistinct(s, ZipFor(s, version, gitHash, createdAt, c)[|Archived(s)|]);
      SnapshotsIntoZip(s, c.sha);
      ok := RootIntoZip(s.uploads, "uploads", c.sha);
      if ok {
        ok := RootIntoZip(s.avatars, "avatars", c.sha);
      }
      if ok {
        EntriesConcat(Snapshots(s), WalkRoot(s.uploads, "uploads"), c.sha);
        EntriesConcat(Snapshots(s) + WalkRoot(s.uploads, "uploads"), WalkRoot(s.avatars, "avatars"), c.sha);
        ok := ManifestIntoZip(version, gitHash, createdAt, c);
      }
    }
  }

  lemma PartsDistinct(s: Source, last: Member)
    ensures DistinctNames(Archived(s) + [last]) ==> DistinctNames(Archived(s))
    ensures DistinctNames(Archived(s)) ==> DistinctNames(Snapshots(s) + WalkRoot(s.uploads, "uploads"))
  {
    DistinctPrefix(Archived(s), [last]);
    DistinctPrefix(Snapshots(s) + WalkRoot(s.uploads, "uploads"), WalkRoot(s.avatars, "avatars"));
  }

  lemma NothingWalked(prefix: string, sha: Bytes -> string)
    ensures Walk([], prefix) == [] && EntriesFor([], sha) == []
  {
  }

  lemma EntriesConcat(a: seq<Member>, b: seq<Member>, sha: Bytes -> string)
    ensures EntriesFor(a + b, sha) == EntriesFor(a, sha) + EntriesFor(b, sha)
  {
  }

  lemma DistinctBefore(before: seq<Member>, a: seq<Member>, b: seq<Member>, d: seq<Member>)
    ensures DistinctNames(before + (a + b + d)) ==> DistinctNames(before + a + b)
  {
    assert before + (a + b + d) == before + a + b + d;
    DistinctPrefix(before + a + b, d);
  }

  lemma DistinctPrefix(a: seq<Member>, b: seq<Member>)
    ensures DistinctNames(a + b) ==> DistinctNames(a)
  {
    assert forall i :: 0 <= i < |a| ==> (a + b)[i] == a[i];
  }

  lemma NamedMember(ms: seq<Member>, m: Member)
    requires Named(ms, m.name)
    ensures !DistinctNames(ms + [m])
  {
    var k :| 0 <= k < |ms| && ms[k].name == m.name;
    assert (ms + [m])[k].name == (ms + [m])[|ms|].name;
  }

  // ----- verifying -----

  /** Decimal digits, most significant first. */
  predicate Digits(s: string) {
    forall k :: 0 <= k < |s| ==> '0' <= s[k] <= '9'
  }

  function DigitsValue(s: string): nat
    requires Digits(s)
  {
    if s == "" then 0 else 10 * DigitsValue(s[..|s| - 1]) + (s[|s| - 1] as int - '0' as int)
  }

  /** An optional plus sign and at least one digit, within 32 bits. */
  function ParseU32(s: string): Option<nat> {
    var digits := if s != "" && s[0] == '+' then s[1..] else s;
    if digits != "" && Digits(digits) && DigitsValue(digits) < 0x1_0000_0000 then Some(DigitsValue(digits)) else None
  }

  /** Up to the first dot, and what follows it. */
  function BeforeDot(s: string): (h: string)
    ensures |h| <= |s|
  {
    if s == "" || s[0] == '.' then "" else [s[0]] + BeforeDot(s[1..])
  }

  function SemverMajorMinor(v: string): Option<(nat, nat)> {
    var major := BeforeDot(v);
    if |major| == |v| then None
    else
      var minor := BeforeDot(v[|major| + 1..]);
      if ParseU32(major).None? || ParseU32(minor).None? then None
      else Some((ParseU32(major).value, ParseU32(minor).value))
  }

  /** A name listed twice means its last entry. */
  function ByName(zip: seq<Member>, name: string): Option<Bytes> {
    if zip == [] then None
    else if zip[|zip| - 1].name == name then Some(zip[|zip| - 1].bytes)
    else ByName(zip[..|zip| - 1], name)
  }

  function CheckEntry(zip: seq<Member>, e: ManifestEntry, sha: Bytes -> string): Option<Error> {
    match ByName(zip, e.path)
    case None => Some(MissingFile(e.path))
    case Some(bytes) =>
      if |bytes| != e.size then Some(SizeMismatch(e.path))
      else if sha(bytes) != e.sha256 then Some(HashMismatch(e.path))
      else None
  }

  /** The first entry that does not match. */
  function CheckAll(zip: seq<Member>, files: seq<ManifestEntry>, sha: Bytes -> string): Option<Error> {
    if files == [] then None
    else if CheckEntry(zip, files[0], sha).Some? then CheckEntry(zip, files[0], sha)
    else CheckAll(zip, files[1..], sha)
  }

  function Verified(zip: seq<Member>, running: string, c: Codec): Result<Manifest, Error> {
    match ByName(zip, ManifestName)
    case None => Err(MissingManifest)
    case Some(bytes) =>
      match c.parse(bytes)
      case None => Err(BadManifest)
      case Some(m) =>
        var archived, ours := SemverMajorMinor(m.version), SemverMajorMinor(running);
        if archived.None? || ours.None? || archived != ours then Err(WrongVersion)
        else match CheckAll(zip, m.files, c.sha)
          case Some(e) => Err(e)
          case None => Ok(m)
  }

  method VerifyArchive(zip: seq<Member>, running: string, c: Codec) returns (r: Result<Manifest, Error>)
    ensures r == Verified(zip, running, c)
  {
    var file := ByName(zip, ManifestName);
    if file.None? {
      return Err(MissingManifest);
    }
    var parsed := c.parse(file.value);
    if parsed.None? {
      return Err(BadManifest);
    }
    var manifest := parsed.value;
    var archiveMm, runningMm := SemverMajorMinor(manifest.version), SemverMajorMinor(running);
    if archiveMm.None? || runningMm.None? || archiveMm != runningMm {
      return Err(WrongVersion);
    }
    var i := 0;
    assert manifest.files[0..] == manifest.files;
    while i < |manifest.files|
      invariant 0 <= i <= |manifest.files|
      invariant CheckAll(zip, manifest.files, c.sha) == CheckAll(zip, manifest.files[i..], c.sha)
    {
      var entry := manifest.files[i];
      var found := ByName(zip, entry.path);
      if found.None? {
        return Err(MissingFile(entry.path));
      }
      var total, absorbed := HashMember(found.value);
      if total != entry.size {
        return Err(SizeMismatch(entry.path));
      }
      if c.sha(absorbed) != entry.sha256 {
        return Err(HashMismatch(entry.path));
      }
      assert manifest.files[i..][1..] == manifest.files[i + 1..];
      i := i + 1;
    }
    return Ok(manifest);
  }

  /** Reads a member in chunks, as far as the hasher is concerned all of it in order. */
  method HashMember(bytes: Bytes) returns (total: nat, absorbed: Bytes)
    ensures total == |bytes| && absorbed == bytes
  {
    total, absorbed := 0, [];
    while total < |bytes|
      invariant total <= |bytes| && absorbed == bytes[..total]
    {
      var n :| 1 <= n <= 64 * 1024 && total + n <= |bytes|;
      absorbed := absorbed + bytes[total..total + n];
      total := total + n;
    }
    assert bytes[..total] == bytes;
  }

  /** Verification accepts exactly when every listed file is there with the listed size and hash. */
  lemma {:induction false} CheckAllExact(zip: seq<Member>, files: seq<ManifestEntry>, sha: Bytes -> string)
    ensures CheckAll(zip, files, sha) == None <==>
            forall k :: 0 <= k < |files| ==>
              var found := ByName(zip, files[k].path);
              found.Some? && |found.value| == files[k].size && sha(found.value) == files[k].sha256
  {
    if files != [] {
      CheckAllExact(zip, files[1..], sha);
      assert forall k :: 1 <= k < |files| ==> files[k] == files[1..][k - 1];
      if CheckAll(zip, files, sha) == None {
        assert CheckEntry(zip, files[0], sha) == None;
      } else if CheckEntry(zip, files[0], sha) == None {
        var k :| 0 <= k < |files[1..]| && CheckEntry(zip, files[1..][k], sha) != None;
        assert files[k + 1] == files[1..][k];
      }
    }
  }

  lemma {:induction false} CheckAllSame(zip: seq<Member>, zip': seq<Member>, files: seq<ManifestEntry>, sha: Bytes -> string)
    requires forall k :: 0 <= k < |files| ==> ByName(zip, files[k].path) == ByName(zip', files[k].path)
    ensures CheckAll(zip, files, sha) == CheckAll(zip', files, sha)
  {
    if files != [] {
      CheckAllSame(zip, zip', files[1..], sha);
    }
  }

  /**
   Verification looks at the manifest and the members it lists and at nothing else: two archives
   that agree on those get the same answer, whatever else they hold.
   */
  lemma VerifiesOnlyListedMembers(zip: seq<Member>, zip': seq<Member>, running: string, c: Codec, m: Manifest)
    requires ByName(zip, ManifestName).Some? && c.parse(ByName(zip, ManifestName).value) == Some(m)
    requires ByName(zip', ManifestName) == ByName(zip, ManifestName)
    requires forall k :: 0 <= k < |m.files| ==> ByName(zip, m.files[k].path) == ByName(zip', m.files[k].path)
    ensures Verified(zip, running, c) == Verified(zip', running, c)
  {
    CheckAllSame(zip, zip', m.files, c.sha);
  }

  // ----- extracting -----

  /** The staging directory: its files, and the directories made in it. */
  datatype Stage = Stage(files: map<string, Bytes>, dirs: set<string>)

  const EmptyStage := Stage(map[], {""})

  predicate Blocked(st: Stage, name: string) {
    exists a :: a in Ancestors(name) && a in st.files
  }

  function ExtractMember(st: Stage, m: Member): Result<Stage, Error> {
    if !SafeName(m.name) then Err(UnsafePath(m.name))
    else if Blocked(st, m.name) then Err(NotADirectory(m.name))
    else if m.name != "" && m.name[|m.name| - 1] == '/' then Ok(Stage(st.files, st.dirs + Ancestors(m.name)))
    else if m.name in st.dirs then Err(NotADirectory(m.name))
    else Ok(Stage(st.files[m.name := m.bytes], st.dirs + Ancestors(m.name)))
  }

  function ExtractAll(st: Stage, zip: seq<Member>): Result<Stage, Error>
    decreases zip
  {
    if zip == [] then Ok(st)
    else match ExtractMember(st, zip[0])
      case Err(e) => Err(e)
      case Ok(st') => ExtractAll(st', zip[1..])
  }

  /** manifest.json is dropped at the end. */
  function Extracted(zip: seq<Member>): Result<map<string, Bytes>, Error> {
    match ExtractAll(EmptyStage, zip)
    case Err(e) => Err(e)
    case Ok(st) => Ok(st.files - {ManifestName})
  }

  class StagingDir {
    var files: map<string, Bytes>
    var dirs: set<string>

    constructor ()
      ensures files == map[] && dirs == {""}
    {
      files, dirs := map[], {""};
    }

    method StageExtract(zip: seq<Member>) returns (r: Result<map<string, Bytes>, Error>)
      modifies this
      ensures r == Extracted(zip)
      ensures r.Ok? ==> files == r.value
    {
      files, dirs := map[], {""};
      var i := 0;
      assert zip[0..] == zip;
      while i < |zip|
        invariant 0 <= i <= |zip|
        invariant ExtractAll(EmptyStage, zip) == ExtractAll(Stage(files, dirs), zip[i..])
      {
        var name := zip[i].name;
        assert zip[i..][1..] == zip[i + 1..];
        if (name != "" && Separator(name[0])) || HasDotDot(name) {
          return Err(UnsafePath(name));
        }
        if Blocked(Stage(files, dirs), name) {
          return Err(NotADirectory(name));
        }
        if name != "" && name[|name| - 1] == '/' {
          dirs := dirs + Ancestors(name);
        } else {
          if name in dirs {
            return Err(NotADirectory(name));
          }
          dirs := dirs + Ancestors(name);
          files := files[name := zip[i].bytes];
        }
        i := i + 1;
      }
      files := files - {ManifestName};
      return Ok(files);
    }
  }

  // ----- what is extracted -----

  function FilesOf(ms: seq<Member>): map<string, Bytes> {
    if ms == [] then map[] else map[ms[0].name := ms[0].bytes] + FilesOf(ms[1..])
  }

  /** No name leads through another one, nor through a file already there. */
  ghost predicate Extractable(st: Stage, ms: seq<Member>) {
    && (forall m :: m in ms ==> m.name != "" && m.name[|m.name| - 1] != '/' && m.name !in st.dirs)
    && (forall m, a :: m in ms && a in Ancestors(m.name) ==> a !in st.files)
    && (forall m, n :: m in ms && n in ms ==> m.name !in Ancestors(n.name))
  }

  lemma ExtractsOne(st: Stage, ms: seq<Member>) returns (st': Stage)
    requires ms != [] && Extractable(st, ms) && SafeName(ms[0].name)
    ensures ExtractMember(st, ms[0]) == Ok(st') && Extractable(st', ms[1..])
    ensures st'.files == st.files[ms[0].name := ms[0].bytes]
  {
    var m := ms[0];
    assert m in ms && forall n :: n in ms[1..] ==> n in ms;
    st' := Stage(st.files[m.name := m.bytes], st.dirs + Ancestors(m.name));
  }

  lemma UpdateFirst(files: map<string, Bytes>, name: string, bytes: Bytes, more: map<string, Bytes>)
    ensures files[name := bytes] + more == files + (map[name := bytes] + more)
  {
  }

  lemma {:induction false} ExtractsAll(st: Stage, ms: seq<Member>)
    requires Extractable(st, ms) && forall m :: m in ms ==> SafeName(m.name)
    ensures ExtractAll(st, ms).Ok? && ExtractAll(st, ms).value.files == st.files + FilesOf(ms)
    decreases ms
  {
    if ms != [] {
      assert ms[0] in ms && forall n :: n in ms[1..] ==> n in ms;
      var st' := ExtractsOne(st, ms);
      ExtractsAll(st', ms[1..]);
      UpdateFirst(st.files, ms[0].name, ms[0].bytes, FilesOf(ms[1..]));
    }
  }

  lemma {:induction false} UnsafeStopsExtraction(st: Stage, ms: seq<Member>, m: Member)
    requires m in ms && !SafeName(m.name)
    ensures ExtractAll(st, ms).Err?
    decreases ms
  {
    if m != ms[0] && ExtractMember(st, ms[0]).Ok? {
      UnsafeStopsExtraction(ExtractMember(st, ms[0]).value, ms[1..], m);
    }
  }

  /** With distinct names, a member's bytes are found under its name and nothing else is. */
  lemma {:induction false} FilesOfDistinct(ms: seq<Member>, name: string)
    requires DistinctNames(ms)
    ensures forall m :: m in ms && m.name == name ==> name in FilesOf(ms) && FilesOf(ms)[name] == m.bytes
    ensures name in FilesOf(ms) ==> Member(name, FilesOf(ms)[name]) in ms
  {
    if ms != [] {
      FilesOfDistinct(ms[1..], name);
      assert forall k :: 1 <= k < |ms| ==> ms[k] == ms[1..][k - 1];
      forall m | m in ms && m.name == name
        ensures name in FilesOf(ms) && FilesOf(ms)[name] == m.bytes
      {
        if m != ms[0] {
          assert m in ms[1..];
        }
      }
    }
  }

  lemma {:induction false} ByNameDistinct(ms: seq<Member>, m: Member)
    requires DistinctNames(ms) && m in ms
    ensures ByName(ms, m.name) == Some(m.bytes)
  {
    if m != ms[|ms| - 1] {
      var k :| 0 <= k < |ms| && ms[k] == m;
      assert ms[..|ms| - 1][k] == m;
      ByNameDistinct(ms[..|ms| - 1], m);
    }
  }

  // ----- the round trip -----

  /** The source as one directory: what the data directory holds that a backup is about. */
  function DataDir(s: Source): seq<Entry> {
    [Entry("auth.db", File(s.auth)), Entry("chat.db", File(s.chat)), Entry("settings.db", File(s.settings))] +
    RootEntry(s.uploads, "uploads") + RootEntry(s.avatars, "avatars")
  }

  function RootEntry(root: Option<seq<Entry>>, name: string): seq<Entry> {
    match root
    case None => []
    case Some(entries) => [Entry(name, Dir(entries))]
  }

  predicate RootNamed(root: Option<seq<Entry>>) {
    root.Some? ==> WellNamed(root.value)
  }

  predicate SourceNamed(s: Source) {
    RootNamed(s.uploads) && RootNamed(s.avatars)
  }

  predicate SourceNoBackslash(s: Source) {
    (s.uploads.Some? ==> NoBackslash(s.uploads.value)) && (s.avatars.Some? ==> NoBackslash(s.avatars.value))
  }

  lemma WalkOneFile(name: string, bytes: Bytes)
    requires !Skipped(name)
    ensures Walk([Entry(name, File(bytes))], "") == Slashed([Member(name, bytes)])
  {
    var e := Entry(name, File(bytes));
    assert [e][1..] == [] && Walk([e][1..], "") == [];
  }

  lemma WalkOneRoot(root: Option<seq<Entry>>, name: string)
    requires !Skipped(name)
    ensures Walk(RootEntry(root, name), "") == Slashed(WalkRoot(root, name))
  {
    if root.Some? {
      var e := Entry(name, Dir(root.value));
      WalkSlashed(root.value, name);
      assert [e][1..] == [] && Walk([e][1..], "") == [];
    }
  }

  lemma WalkSnapshots(s: Source)
    ensures Walk(DataDir(s)[..3], "") == Slashed(Snapshots(s))
  {
    var a, b, d := [Entry("auth.db", File(s.auth))], [Entry("chat.db", File(s.chat))], [Entry("settings.db", File(s.settings))];
    WalkOneFile("auth.db", s.auth);
    WalkOneFile("chat.db", s.chat);
    WalkOneFile("settings.db", s.settings);
    assert DataDir(s)[..3] == a + b + d;
    WalkConcat(a + b, d, "");
    WalkConcat(a, b, "");
  }

  /** The archive is the data directory walked from its root. */
  lemma ArchivedIsWalk(s: Source)
    ensures WalkedFrom(DataDir(s), Archived(s))
  {
    var up, av := RootEntry(s.uploads, "uploads"), RootEntry(s.avatars, "avatars");
    WalkSnapshots(s);
    WalkOneRoot(s.uploads, "uploads");
    WalkOneRoot(s.avatars, "avatars");
    assert DataDir(s) == DataDir(s)[..3] + up + av;
    WalkConcat(DataDir(s)[..3] + up, av, "");
    WalkConcat(DataDir(s)[..3], up, "");
    SlashedConcat(Snapshots(s), WalkRoot(s.uploads, "uploads"));
    SlashedConcat(Snapshots(s) + WalkRoot(s.uploads, "uploads"), WalkRoot(s.avatars, "avatars"));
  }

  lemma {:induction false} NamedConcat(a: seq<Entry>, b: seq<Entry>)
    requires WellNamed(a) && WellNamed(b)
    requires forall e, f :: e in a && f in b ==> e.name != f.name
    ensures WellNamed(a + b)
    decreases a
  {
    if a == [] {
      assert a + b == b;
    } else {
      assert (a + b)[1..] == a[1..] + b;
      assert a[0] in a && forall e :: e in a[1..] ==> e in a;
      NamedConcat(a[1..], b);
      forall k | 1 <= k < |a + b|
        ensures (a + b)[k].name != (a + b)[0].name
      {
        if k >= |a| {
          assert b[k - |a|] in b;
        }
      }
    }
  }

  lemma OneNamed(e: Entry)
    requires EntryNamed(e)
    ensures WellNamed([e])
  {
    assert [e][1..] == [] && WellNamed([e][1..]);
  }

  lemma SnapshotNamed(name: string, bytes: Bytes)
    requires Plain(name) && name != ".."
    ensures WellNamed([Entry(name, File(bytes))])
  {
    OneNamed(Entry(name, File(bytes)));
  }

  lemma SnapshotsNamed(s: Source)
    ensures WellNamed(DataDir(s)[..3])
  {
    hide WellNamed;
    SnapshotNamed("auth.db", s.auth);
    SnapshotNamed("chat.db", s.chat);
    SnapshotNamed("settings.db", s.settings);
    var a, b, d := Entry("auth.db", File(s.auth)), Entry("chat.db", File(s.chat)), Entry("settings.db", File(s.settings));
    NamedConcat([a], [b]);
    NamedConcat([a] + [b], [d]);
    assert DataDir(s)[..3] == [a] + [b] + [d];
  }

  lemma RootAppended(entries: seq<Entry>, root: Option<seq<Entry>>, name: string)
    requires WellNamed(entries) && RootNamed(root) && Plain(name) && name != ".."
    requires forall e :: e in entries ==> e.name != name
    ensures WellNamed(entries + RootEntry(root, name))
  {
    RootEntryNamed(root, name);
    NamedConcat(entries, RootEntry(root, name));
  }

  lemma RootsNotYet(s: Source)
    ensures forall e :: e in DataDir(s)[..3] ==> e.name != "uploads"
    ensures forall e :: e in DataDir(s)[..3] + RootEntry(s.uploads, "uploads") ==> e.name != "avatars"
  {
  }

  lemma DataDirNamed(s: Source)
    requires SourceNamed(s)
    ensures WellNamed(DataDir(s))
  {
    var up := RootEntry(s.uploads, "uploads");
    SnapshotsNamed(s);
    RootsNotYet(s);
    hide WellNamed, RootEntry;
    RootAppended(DataDir(s)[..3], s.uploads, "uploads");
    RootAppended(DataDir(s)[..3] + up, s.avatars, "avatars");
    assert DataDir(s) == DataDir(s)[..3] + up + RootEntry(s.avatars, "avatars");
  }

  lemma RootEntryNamed(root: Option<seq<Entry>>, name: string)
    requires RootNamed(root) && Plain(name) && name != ".."
    ensures WellNamed(RootEntry(root, name))
  {
    if root.Some? {
      OneNamed(Entry(name, Dir(root.value)));
    }
  }

  /** At the top there is no manifest, and no name that starts with a separator. */
  predicate TopName(name: string) {
    name == "auth.db" || name == "chat.db" || name == "settings.db" || name == "uploads" || name == "avatars"
  }

  lemma TopNames(s: Source, k: nat)
    requires k < |DataDir(s)|
    ensures TopName(DataDir(s)[k].name)
  {
  }

  lemma TopNameApart(name: string)
    requires TopName(name)
    ensures name != ManifestName && name != "" && !Separator(name[0])
  {
    assert name[0] in "acsu";
  }

  lemma TopLevelName(s: Source, path: string)
    requires SourceNamed(s) && Resolve(DataDir(s), path).Some?
    ensures Head(path) != ManifestName && path != "" && !Separator(path[0])
  {
    hide DataDir, TopName, Resolve, SourceNamed;
    ResolvedHeads(DataDir(s), path);
    var k :| 0 <= k < |DataDir(s)| && DataDir(s)[k].name == Head(path);
    TopNames(s, k);
    TopNameApart(Head(path));
    assert path[0] == Head(path)[0];
  }

  /** The archive holds exactly the files of the source. */
  lemma ArchivedExact(s: Source, m: Member)
    requires SourceNamed(s)
    ensures m in Archived(s) <==> Resolve(DataDir(s), m.name) == Some(m.bytes)
  {
    ArchivedIsWalk(s);
    DataDirNamed(s);
    WalkedExact(DataDir(s), Archived(s), m);
  }

  lemma ZipDistinct(s: Source, last: Member)
    requires SourceNamed(s) && last.name == ManifestName
    ensures DistinctNames(Archived(s) + [last])
  {
    ArchivedIsWalk(s);
    DataDirNamed(s);
    WalkedDistinct(DataDir(s), Archived(s));
    forall m, n | m in Archived(s) && n in [last]
      ensures m.name != n.name
    {
      ArchivedExact(s, m);
      TopLevelName(s, m.name);
      HeadOfPlain(ManifestName);
    }
    DistinctConcat(Archived(s), [last]);
  }

  lemma ArchivedName(s: Source, m: Member)
    requires SourceNamed(s) && m in Archived(s)
    ensures m.name != "" && m.name[|m.name| - 1] != '/' && !Separator(m.name[0])
  {
    ArchivedExact(s, m);
    DataDirNamed(s);
    ResolvedName(DataDir(s), m.name);
    TopLevelName(s, m.name);
  }

  lemma ManifestOffTheWay(s: Source, path: string)
    requires SourceNamed(s) && Resolve(DataDir(s), path).Some?
    ensures ManifestName !in Ancestors(path)
  {
    if ManifestName in Ancestors(path) {
      var rel := AncestorIsPrefix(path, ManifestName);
      HeadOfUnder(ManifestName, rel);
      TopLevelName(s, path);
    }
  }

  lemma NoNameOnTheWay(s: Source, last: Member, m: Member, n: Member)
    requires SourceNamed(s) && last.name == ManifestName
    requires m in Archived(s) + [last] && n in Archived(s) + [last]
    ensures m.name !in Ancestors(n.name)
  {
    if n == last {
      NoAncestors(ManifestName);
    } else {
      ArchivedExact(s, n);
      if m == last {
        ManifestOffTheWay(s, n.name);
      } else {
        ArchivedExact(s, m);
        DataDirNamed(s);
        NoFileOnTheWay(DataDir(s), m.name, n.name);
      }
    }
  }

  lemma NamesExtractable(s: Source, last: Member)
    requires SourceNamed(s) && last.name == ManifestName
    ensures Extractable(EmptyStage, Archived(s) + [last])
  {
    var ms := Archived(s) + [last];
    forall m | m in ms
      ensures m.name != "" && m.name[|m.name| - 1] != '/' && m.name !in EmptyStage.dirs
    {
      if m in Archived(s) {
        ArchivedName(s, m);
      }
    }
    forall m, n | m in ms && n in ms
      ensures m.name !in Ancestors(n.name)
    {
      NoNameOnTheWay(s, last, m, n);
    }
  }

  /** Which sources can be restored: no file is archived under a name that extraction refuses. */
  predicate AllSafe(s: Source) {
    forall m :: m in Archived(s) ==> !HasDotDot(m.name)
  }

  lemma {:induction false} NoBackslashConcat(a: seq<Entry>, b: seq<Entry>)
    requires NoBackslash(a) && NoBackslash(b)
    ensures NoBackslash(a + b)
    decreases a
  {
    if a == [] {
      assert a + b == b;
    } else {
      assert (a + b)[1..] == a[1..] + b;
      NoBackslashConcat(a[1..], b);
    }
  }

  lemma OneNoBackslash(e: Entry)
    requires EntryNoBackslash(e)
    ensures NoBackslash([e])
  {
    assert [e][1..] == [] && NoBackslash([e][1..]);
  }

  lemma SnapshotNoBackslash(name: string, bytes: Bytes)
    requires '\\' !in name
    ensures NoBackslash([Entry(name, File(bytes))])
  {
    OneNoBackslash(Entry(name, File(bytes)));
  }

  lemma SnapshotsNoBackslash(s: Source)
    ensures NoBackslash(DataDir(s)[..3])
  {
    hide NoBackslash;
    SnapshotNoBackslash("auth.db", s.auth);
    SnapshotNoBackslash("chat.db", s.chat);
    SnapshotNoBackslash("settings.db", s.settings);
    var a, b, d := Entry("auth.db", File(s.auth)), Entry("chat.db", File(s.chat)), Entry("settings.db", File(s.settings));
    NoBackslashConcat([a], [b]);
    NoBackslashConcat([a] + [b], [d]);
    assert DataDir(s)[..3] == [a] + [b] + [d];
  }

  lemma DataDirNoBackslash(s: Source)
    requires SourceNoBackslash(s)
    ensures NoBackslash(DataDir(s))
  {
    var up := RootEntry(s.uploads, "uploads");
    SnapshotsNoBackslash(s);
    RootNoBackslash(s.uploads, "uploads");
    RootNoBackslash(s.avatars, "avatars");
    hide NoBackslash, RootEntry;
    NoBackslashConcat(DataDir(s)[..3], up);
    NoBackslashConcat(DataDir(s)[..3] + up, RootEntry(s.avatars, "avatars"));
    assert DataDir(s) == DataDir(s)[..3] + up + RootEntry(s.avatars, "avatars");
  }

  lemma RootNoBackslash(root: Option<seq<Entry>>, name: string)
    requires root.Some? ==> NoBackslash(root.value)
    requires '\\' !in name
    ensures NoBackslash(RootEntry(root, name))
  {
    if root.Some? {
      OneNoBackslash(Entry(name, Dir(root.value)));
    }
  }

  lemma BackslashFreeIsSafe(s: Source)
    requires SourceNamed(s) && SourceNoBackslash(s)
    ensures AllSafe(s)
  {
    DataDirNamed(s);
    DataDirNoBackslash(s);
    forall m | m in Archived(s)
      ensures !HasDotDot(m.name)
    {
      ArchivedExact(s, m);
      PlainNamesHaveNoDotDot(DataDir(s), m.name);
    }
  }

  function Get(files: map<string, Bytes>, path: string): Option<Bytes> {
    if path in files then Some(files[path]) else None
  }

  /** The build never fails for want of distinct names. */
  lemma BuildSucceeds(s: Source, version: string, gitHash: string, createdAt: string, c: Codec)
    requires SourceNamed(s)
    ensures DistinctNames(ZipFor(s, version, gitHash, createdAt, c))
  {
    var m := ManifestFor(s, version, gitHash, createdAt, c);
    ZipDistinct(s, Member(ManifestName, c.write(m)));
  }

  lemma ListedFound(s: Source, zip: seq<Member>, k: nat)
    requires DistinctNames(zip) && |zip| == |Archived(s)| + 1 && zip[..|Archived(s)|] == Archived(s) && k < |Archived(s)|
    ensures ByName(zip, Archived(s)[k].name) == Some(Archived(s)[k].bytes)
  {
    assert zip[k] == zip[..|Archived(s)|][k];
    ByNameDistinct(zip, zip[k]);
  }

  /** Everything the manifest lists is there as listed. */
  lemma ListedCheck(s: Source, zip: seq<Member>, sha: Bytes -> string)
    requires DistinctNames(zip) && |zip| == |Archived(s)| + 1 && zip[..|Archived(s)|] == Archived(s)
    ensures CheckAll(zip, EntriesFor(Archived(s), sha), sha) == None
  {
    var files := EntriesFor(Archived(s), sha);
    forall k | 0 <= k < |files|
      ensures ByName(zip, files[k].path) == Some(Archived(s)[k].bytes)
    {
      ListedFound(s, zip, k);
    }
    CheckAllExact(zip, files, sha);
    hide Archived, CheckAll, ByName;
  }

  /** An archive passes the verification of exactly the servers with the same readable major.minor. */
  lemma BackupVerifies(s: Source, version: string, gitHash: string, createdAt: string, running: string, c: Codec)
    requires SourceNamed(s) && Faithful(c)
    ensures var r := Verified(ZipFor(s, version, gitHash, createdAt, c), running, c);
            if SemverMajorMinor(version).Some? && SemverMajorMinor(version) == SemverMajorMinor(running)
            then r == Ok(ManifestFor(s, version, gitHash, createdAt, c))
            else r == Err(WrongVersion)
  {
    hide Archived, EntriesFor, CheckAll, ByName, DistinctNames, SourceNamed, SemverMajorMinor;
    var zip := ZipFor(s, version, gitHash, createdAt, c);
    var manifest := ManifestFor(s, version, gitHash, createdAt, c);
    BuildSucceeds(s, version, gitHash, createdAt, c);
    ByNameDistinct(zip, Member(ManifestName, c.write(manifest)));
    assert c.parse(c.write(manifest)) == Some(manifest);
    ListedCheck(s, zip, c.sha);
  }

  lemma SafeExtraction(s: Source, last: Member, path: string)
    requires SourceNamed(s) && last.name == ManifestName && AllSafe(s)
    ensures var r := Extracted(Archived(s) + [last]);
            r.Ok? && Get(r.value, path) == Resolve(DataDir(s), path)
  {
    ZipDistinct(s, last);
    NamesExtractable(s, last);
    SafeZip(s, last);
    ExtractsAll(EmptyStage, Archived(s) + [last]);
    assert map[] + FilesOf(Archived(s) + [last]) == FilesOf(Archived(s) + [last]);
    ExtractedPath(s, last, path);
  }

  lemma UnsafeExtraction(s: Source, last: Member)
    requires !AllSafe(s)
    ensures Extracted(Archived(s) + [last]).Err?
  {
    var m :| m in Archived(s) && HasDotDot(m.name);
    UnsafeStopsExtraction(EmptyStage, Archived(s) + [last], m);
  }

  /**
   Extracting a backup gives back exactly the files it was made of: looking any path up in the
   extracted tree and in the data directory gives the same answer. It fails exactly when some
   archived name holds a ".." between slashes or backslashes.
   */
  lemma BackupRoundTrip(s: Source, version: string, gitHash: string, createdAt: string, c: Codec, path: string)
    requires SourceNamed(s)
    ensures var r := Extracted(ZipFor(s, version, gitHash, createdAt, c));
            && (r.Ok? <==> AllSafe(s))
            && (r.Ok? ==> Get(r.value, path) == Resolve(DataDir(s), path))
  {
    var last := Member(ManifestName, c.write(ManifestFor(s, version, gitHash, createdAt, c)));
    if AllSafe(s) {
      SafeExtraction(s, last, path);
    } else {
      UnsafeExtraction(s, last);
    }
  }

  lemma ManifestSafe()
    ensures SafeName(ManifestName)
  {
    DotDotWithoutSeparator("", ManifestName);
    assert "" + ManifestName == ManifestName;
  }

  lemma SafeZip(s: Source, last: Member)
    requires SourceNamed(s) && AllSafe(s) && last.name == ManifestName
    ensures forall m :: m in Archived(s) + [last] ==> SafeName(m.name)
  {
    ManifestSafe();
    forall m | m in Archived(s)
      ensures SafeName(m.name)
    {
      ArchivedName(s, m);
    }
  }

  lemma ExtractedIsFile(s: Source, last: Member, path: string)
    requires SourceNamed(s) && last.name == ManifestName && DistinctNames(Archived(s) + [last])
    requires path != ManifestName && path in FilesOf(Archived(s) + [last])
    ensures Resolve(DataDir(s), path) == Some(FilesOf(Archived(s) + [last])[path])
  {
    var bytes := FilesOf(Archived(s) + [last])[path];
    FilesOfDistinct(Archived(s) + [last], path);
    assert Member(path, bytes) != last;
    ArchivedExact(s, Member(path, bytes));
  }

  lemma ManifestIsNoFile(s: Source)
    requires SourceNamed(s)
    ensures Resolve(DataDir(s), ManifestName) == None
  {
    HeadOfPlain(ManifestName);
    if Resolve(DataDir(s), ManifestName).Some? {
      TopLevelName(s, ManifestName);
    }
  }

  lemma FileIsExtracted(s: Source, last: Member, path: string)
    requires SourceNamed(s) && last.name == ManifestName && DistinctNames(Archived(s) + [last])
    requires Resolve(DataDir(s), path).Some?
    ensures path != ManifestName && path in FilesOf(Archived(s) + [last])
  {
    var m := Member(path, Resolve(DataDir(s), path).value);
    ArchivedExact(s, m);
    assert m in Archived(s) + [last];
    FilesOfDistinct(Archived(s) + [last], path);
    ManifestIsNoFile(s);
  }

  lemma ExtractedPath(s: Source, last: Member, path: string)
    requires SourceNamed(s) && last.name == ManifestName && DistinctNames(Archived(s) + [last])
    ensures Get(FilesOf(Archived(s) + [last]) - {ManifestName}, path) == Resolve(DataDir(s), path)
  {
    if path in FilesOf(Archived(s) + [last]) && path != ManifestName {
      ExtractedIsFile(s, last, path);
    }
    if Resolve(DataDir(s), path).Some? {
      FileIsExtracted(s, last, path);
    }
  }

  /** For trees without backslashes in their names the round trip always succeeds. */
  lemma BackslashFreeRoundTrip(s: Source, version: string, gitHash: string, createdAt: string, c: Codec, path: string)
    requires SourceNamed(s) && SourceNoBackslash(s)
    ensures var r := Extracted(ZipFor(s, version, gitHash, createdAt, c));
            r.Ok? && Get(r.value, path) == Resolve(DataDir(s), path)
  {
    BackslashFreeIsSafe(s);
    BackupRoundTrip(s, version, gitHash, createdAt, c, path);
  }

  /** An upload whose name is two dots, a backslash and more is archived, and then refused by the extraction. */
  lemma BackslashNameCannotBeRestored(rest: string, version: string, gitHash: string, createdAt: string, c: Codec)
    requires '/' !in rest && !Skipped("..\\" + rest)
    ensures var s := Source([], [], [], Some([Entry("..\\" + rest, File([]))]), None);
            SourceNamed(s) && Extracted(ZipFor(s, version, gitHash, createdAt, c)).Err?
  {
    var e := Entry("..\\" + rest, File([]));
    var s := Source([], [], [], Some([e]), None);
    OneNamed(e);
    var m := Member(Under("uploads", e.name), []);
    assert [e][1..] == [] && Walk([e], "uploads") == [m];
    assert m in WalkRoot(s.uploads, "uploads");
    assert m in Archived(s);
    DotDotConcat("", "uploads", e.name);
    DotDotStart(rest);
    BackupRoundTrip(s, version, gitHash, createdAt, c, "");
  }

  lemma DotDotStart(rest: string)
    ensures HasDotDot("..\\" + rest)
  {
    var p := "..\\" + rest;
    assert p[1..] == ".\\" + rest && p[1..][1..] == "\\" + rest;
    assert [] + ['.'] == "." && ['.'] + ['.'] == "..";
    assert DotDotFrom("..", p[1..][1..]);
    assert DotDotFrom(".", p[1..]);
  }
}
