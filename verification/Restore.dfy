/**
 Applying a staged backup at the next startup (server/src/backup.rs, staged by server/src/routes/admin.rs).
 */
module Restore {
  import opened Wrappers
  import opened Paths
  import opened Tree
  import opened Archive

  /** The data directory and its siblings. */
  datatype Place = Live | Staged | Replaced(stamp: nat)

  type Files = map<string, Bytes>

  type Disk = map<Place, Files>

  const MarkerName := ".restore-pending"

  /** Which file-system calls go through. A call that does not may have failed, or the machine stopped before it. */
  datatype Calls = Calls(clear: bool, first: bool, second: bool)

  predicate Pending(d: Disk) {
    Live in d && MarkerName in d[Live]
  }

  /** A directory takes the name of no other one that holds something. */
  predicate CanRename(d: Disk, source: Place, target: Place) {
    source in d && (target in d ==> d[target] == map[])
  }

  function Renamed(d: Disk, source: Place, target: Place): Disk
    requires source in d
  {
    (d - {source})[target := d[source]]
  }

  /** The disk after one startup, and whether the server goes on. */
  function Startup(d: Disk, stamp: nat, calls: Calls): (Disk, bool) {
    if !Pending(d) then
      (d, true)
    else if Staged !in d then
      if calls.clear then (d[Live := d[Live] - {MarkerName}], true) else (d, false)
    else if !calls.first || !CanRename(d, Live, Replaced(stamp)) then
      (d, false)
    else
      var moved := Renamed(d, Live, Replaced(stamp));
      if !calls.second || !CanRename(moved, Staged, Live) then (moved, false) else (Renamed(moved, Staged, Live), true)
  }

  class DataRoot {
    var disk: Disk

    constructor (d: Disk)
      ensures disk == d
    {
      disk := d;
    }

    method Rename(source: Place, target: Place, works: bool) returns (ok: bool)
      modifies this
      ensures ok == (works && CanRename(old(disk), source, target))
      ensures disk == if ok then Renamed(old(disk), source, target) else old(disk)
    {
      if !works || source !in disk || (target in disk && disk[target] != map[]) {
        return false;
      }
      var files := disk[source];
      disk := disk - {source};
      disk := disk[target := files];
      return true;
    }

    method ApplyPendingRestore(stamp: nat, calls: Calls) returns (ok: bool)
      modifies this
      ensures (disk, ok) == Startup(old(disk), stamp, calls)
    {
      if Live !in disk || MarkerName !in disk[Live] {
        return true;
      }
      if Staged !in disk {
        if calls.clear {
          disk := disk[Live := disk[Live] - {MarkerName}];
        }
        return calls.clear;
      }
      ok := Rename(Live, Replaced(stamp), calls.first);
      if ok {
        ok := Rename(Staged, Live, calls.second);
      }
    }
  }

  // ----- one startup -----

  /** Where the directory `p` is after the startup. */
  function Whereabouts(d: Disk, stamp: nat, calls: Calls, p: Place): Place {
    var after := Startup(d, stamp, calls).0;
    if p == Live && after != d && Staged in d then Replaced(stamp)
    else if p == Staged && Startup(d, stamp, calls).1 && Pending(d) && Staged in d then Live
    else p
  }

  /**
   Wherever a startup stops, every directory that held something is still there, complete: only a
   marker without a staged directory is taken out. No two of them share a name.
   */
  lemma NothingIsLost(d: Disk, stamp: nat, calls: Calls, p: Place)
    requires p in d && d[p] != map[]
    ensures var after := Startup(d, stamp, calls).0;
            var now := Whereabouts(d, stamp, calls, p);
            && now in after
            && (after[now] == d[p] || (p == Live && Staged !in d && after[now] == d[p] - {MarkerName}))
    ensures forall q :: q in d && q != p && d[q] != map[] ==> Whereabouts(d, stamp, calls, q) != Whereabouts(d, stamp, calls, p)
  {
    var after := Startup(d, stamp, calls).0;
    if Pending(d) && Staged in d && calls.first && CanRename(d, Live, Replaced(stamp)) {
      assert Live !in Renamed(d, Live, Replaced(stamp));
      assert after != d;
    }
  }

  /** The swap happens exactly when it was asked for and nothing stops it; then both trees are in their places. */
  lemma SwapExactly(d: Disk, stamp: nat, calls: Calls)
    requires Pending(d)
    ensures var r := Startup(d, stamp, calls);
            && (Staged in d && r.1 <==>
                Staged in d && calls.first && calls.second && (Replaced(stamp) in d ==> d[Replaced(stamp)] == map[]))
            && (Staged in d && r.1 ==>
                && r.0 == (d - {Staged})[Live := d[Staged]][Replaced(stamp) := d[Live]]
                && Staged !in r.0)
  {
    if Staged in d && calls.first && CanRename(d, Live, Replaced(stamp)) {
      var moved := Renamed(d, Live, Replaced(stamp));
      assert Live !in moved && Staged in moved;
      if calls.second {
        assert Renamed(moved, Staged, Live) == (d - {Staged})[Live := d[Staged]][Replaced(stamp) := d[Live]];
      }
    }
  }

  /** After a swap the next startup is quiet exactly when the staged tree brought no marker along; otherwise it takes the marker out. */
  lemma SecondStartup(d: Disk, stamp: nat, calls: Calls, stamp': nat, calls': Calls)
    requires Pending(d) && Staged in d && Startup(d, stamp, calls).1
    ensures var after := Startup(d, stamp, calls).0;
            var again := Startup(after, stamp', calls');
            && (again == (after, true) <==> MarkerName !in d[Staged])
            && (calls'.clear ==> again == (after[Live := d[Staged] - {MarkerName}], true))
  {
    SwapExactly(d, stamp, calls);
    var after := Startup(d, stamp, calls).0;
    if MarkerName !in d[Staged] {
      assert d[Staged] - {MarkerName} == d[Staged];
      assert after[Live := d[Staged]] == after;
    } else {
      assert MarkerName !in after[Live := d[Staged] - {MarkerName}][Live];
    }
  }

  /** A startup that stops between the two renames: no data directory, and the marker is out of sight. */
  predicate Halfway(d: Disk) {
    Live !in d && Staged in d
  }

  /** Exactly when the second rename is the one that does not go through. */
  lemma HalfwayExactly(d: Disk, stamp: nat, calls: Calls)
    requires Live in d
    ensures var r := Startup(d, stamp, calls);
            && (Halfway(r.0) <==>
                && Pending(d) && Staged in d && calls.first && !calls.second
                && (Replaced(stamp) in d ==> d[Replaced(stamp)] == map[]))
            && (Halfway(r.0) ==> !r.1)
  {
    if Pending(d) && Staged in d && calls.first && CanRename(d, Live, Replaced(stamp)) {
      assert Live !in Renamed(d, Live, Replaced(stamp));
    }
  }

  /** ...and then the next startup goes on without a word and without a data directory. */
  lemma HalfwayGoesUnnoticed(d: Disk, stamp: nat, calls: Calls, stamp': nat, calls': Calls)
    requires Live in d && Halfway(Startup(d, stamp, calls).0)
    ensures Startup(Startup(d, stamp, calls).0, stamp', calls') == (Startup(d, stamp, calls).0, true)
  {
  }

  // ----- staging and starting, over whole runs -----

  /** The directories, and the archive the last extraction went through completely, if it did. */
  datatype World = World(disk: Disk, archive: Option<seq<Member>>)

  datatype Step =
    | Extract(zip: seq<Member>)                            // an extraction that runs to its end
    | Interrupt(left: Option<Files>)                       // one that stops early, and what it left behind
    | Mark                                                 // the marker is written once the extraction is through
    | Start(stamp: nat, calls: Calls)
    | Serve(files: Files)                                  // the running server changes its data, not the marker

  predicate Enabled(w: World, s: Step) {
    match s
    case Extract(zip) => Live in w.disk && Extracted(zip).Ok?
    case Interrupt(_) => Live in w.disk
    case Mark => Live in w.disk && Staged in w.disk && w.archive.Some?
    case Start(_, _) => true
    case Serve(files) => Live in w.disk && (MarkerName in files <==> MarkerName in w.disk[Live])
  }

  function Next(w: World, s: Step): World
    requires Enabled(w, s)
  {
    match s
    case Extract(zip) => World(w.disk[Staged := Extracted(zip).value], Some(zip))
    case Interrupt(left) => World(if left.Some? then w.disk[Staged := left.value] else w.disk - {Staged}, None)
    case Mark => w.(disk := w.disk[Live := w.disk[Live][MarkerName := []]])
    case Start(stamp, calls) => w.(disk := Startup(w.disk, stamp, calls).0)
    case Serve(files) => w.(disk := w.disk[Live := files])
  }

  ghost predicate Runs(w: World, steps: seq<Step>, w': World)
    decreases steps
  {
    if steps == [] then w == w' else Enabled(w, steps[0]) && Runs(Next(w, steps[0]), steps[1..], w')
  }

  /** What the staged directory is said to hold is what it holds. */
  predicate Sound(w: World) {
    w.archive.Some? && Staged in w.disk ==>
      Extracted(w.archive.value).Ok? && w.disk[Staged] == Extracted(w.archive.value).value
  }

  /** What the next startup puts in place is the whole extraction of an archive. */
  predicate Ready(w: World) {
    Sound(w) && (Pending(w.disk) && Staged in w.disk ==> w.archive.Some?)
  }

  /** An extraction that stops early and leaves a partial tree while a marker is waiting. */
  predicate Spoils(w: World, s: Step) {
    s.Interrupt? && s.left.Some? && Pending(w.disk)
  }

  /** Only that spoils what the next startup takes. */
  lemma ReadyExactly(w: World, s: Step)
    requires Enabled(w, s) && Ready(w)
    ensures Ready(Next(w, s)) <==> !Spoils(w, s)
  {
    if s.Start? && Pending(w.disk) && Staged in w.disk {
      var moved := Renamed(w.disk, Live, Replaced(s.stamp));
      assert Live !in moved;
    }
  }

  ghost predicate Careful(w: World, steps: seq<Step>)
    decreases steps
  {
    steps == [] || (Enabled(w, steps[0]) && !Spoils(w, steps[0]) && Careful(Next(w, steps[0]), steps[1..]))
  }

  /** In every run that never stages again over a waiting marker, what a startup takes is whole. */
  lemma {:induction false} CarefulRunsStayReady(w: World, steps: seq<Step>, w': World)
    requires Ready(w) && Runs(w, steps, w') && Careful(w, steps)
    ensures Ready(w')
    decreases steps
  {
    if steps != [] {
      ReadyExactly(w, steps[0]);
      CarefulRunsStayReady(Next(w, steps[0]), steps[1..], w');
    }
  }

  /** Staging again while a restore is waiting, and failing, puts a partial tree in place at the next startup, whatever it holds. */
  lemma SpoiledStartup(w: World, left: Files, stamp: nat)
    requires Pending(w.disk) && Replaced(stamp) !in w.disk
    ensures var spoiled := Next(w, Interrupt(Some(left)));
            var after := Next(spoiled, Start(stamp, Calls(true, true, true)));
            !Ready(spoiled) && Live in after.disk && after.disk[Live] == left
  {
    var spoiled := Next(w, Interrupt(Some(left)));
    SwapExactly(spoiled.disk, stamp, Calls(true, true, true));
  }

  // ----- from a backup to a restored server -----

  lemma NoDotAtTop(s: Source, k: nat)
    requires k < |DataDir(s)|
    ensures DataDir(s)[k].name != "" && DataDir(s)[k].name[0] != '.'
  {
  }

  lemma MarkerHead()
    ensures Head(MarkerName) != "" && Head(MarkerName)[0] == '.'
  {
    assert MarkerName[0] == '.';
  }

  lemma NoMarkerInBackups(s: Source)
    requires SourceNamed(s)
    ensures Resolve(DataDir(s), MarkerName) == None
  {
    if Resolve(DataDir(s), MarkerName).Some? {
      ResolvedHeads(DataDir(s), MarkerName);
      var k :| 0 <= k < |DataDir(s)| && DataDir(s)[k].name == Head(MarkerName);
      MarkerHead();
      NoDotAtTop(s, k);
    }
  }

  /** Staged, marked and started, without anything in the way. */
  lemma RestoredDisk(w: World, zip: seq<Member>, stamp: nat, stamp': nat, calls: Calls)
    requires Live in w.disk && Replaced(stamp) !in w.disk && Extracted(zip).Ok? && MarkerName !in Extracted(zip).value
    ensures var after := Next(Next(Next(w, Extract(zip)), Mark), Start(stamp, Calls(true, true, true)));
            && Live in after.disk && after.disk[Live] == Extracted(zip).value
            && Replaced(stamp) in after.disk && after.disk[Replaced(stamp)] - {MarkerName} == w.disk[Live] - {MarkerName}
            && Next(after, Start(stamp', calls)) == after
  {
    var marked := Next(Next(w, Extract(zip)), Mark);
    SwapExactly(marked.disk, stamp, Calls(true, true, true));
    assert (w.disk[Live][MarkerName := []]) - {MarkerName} == w.disk[Live] - {MarkerName};
  }

  /**
   A backup that extracts, staged, marked and started: every path of the new data directory reads
   as it did when the backup was made, the replaced directory reads as it did before the restart,
   and the next startup leaves both alone.
   */
  lemma BackupRestored(s: Source, version: string, gitHash: string, createdAt: string, c: Codec, w: World, stamp: nat, path: string,
                       stamp': nat, calls: Calls)
    requires SourceNamed(s) && AllSafe(s)
    requires Live in w.disk && Replaced(stamp) !in w.disk
    ensures var zip := ZipFor(s, version, gitHash, createdAt, c);
            && Extracted(zip).Ok?
            && var marked := Next(Next(w, Extract(zip)), Mark);
               var after := Next(marked, Start(stamp, Calls(true, true, true)));
               && Live in after.disk && Get(after.disk[Live], path) == Resolve(DataDir(s), path)
               && Replaced(stamp) in after.disk && after.disk[Replaced(stamp)] - {MarkerName} == w.disk[Live] - {MarkerName}
               && Next(after, Start(stamp', calls)) == after
  {
    var zip := ZipFor(s, version, gitHash, createdAt, c);
    BackupRoundTrip(s, version, gitHash, createdAt, c, path);
    BackupRoundTrip(s, version, gitHash, createdAt, c, MarkerName);
    NoMarkerInBackups(s);
    RestoredDisk(w, zip, stamp, stamp', calls);
  }
}
