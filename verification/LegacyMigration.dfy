/** The migration of an old installation's files in frontend/src-tauri/src/runtime_paths.rs, on a disk where every
    operation may fail or be the last one before a crash. */
module LegacyMigration {
  import opened Wrappers

  type Bytes = seq<bv8>

  /** The names from a root directory down. */
  type Path = seq<string>

  datatype Node = File(content: Bytes) | Dir(entries: seq<Entry>) | Special
  datatype Entry = Entry(name: string, node: Node)

  /** The application data directory, which is the path []. */
  datatype Disk = Disk(files: map<Path, Bytes>, dirs: set<Path>)

  datatype Report = Report(copied: nat, verified: nat, conflicts: nat, markerCreated: bool)

  const MARKER: Path := [".legacy-layout-v1.json"]
  const TEMP_SUFFIX: string := ".encorehub-migration"
  const BLOCK: nat := 8192

  predicate Exists(disk: Disk, p: Path) {
    p in disk.files || p in disk.dirs
  }

  // ---------- Temporary names ----------

  function TemporaryPath(p: Path): Path
    requires |p| > 0
  {
    p[..|p| - 1] + [p[|p| - 1] + TEMP_SUFFIX]
  }

  predicate IsTemporary(p: Path) {
    && |p| > 0
    && var name := p[|p| - 1];
       |name| >= |TEMP_SUFFIX| && name[|name| - |TEMP_SUFFIX|..] == TEMP_SUFFIX
  }

  /** The path for which a temporary one stands. */
  function TargetOf(p: Path): Path
    requires IsTemporary(p)
  {
    var name := p[|p| - 1];
    p[..|p| - 1] + [name[..|name| - |TEMP_SUFFIX|]]
  }

  lemma TemporaryIsInverse(p: Path)
    requires |p| > 0
    ensures IsTemporary(TemporaryPath(p)) && TargetOf(TemporaryPath(p)) == p
  {
  }

  lemma TargetIsInverse(p: Path)
    requires IsTemporary(p)
    ensures |TargetOf(p)| > 0 && TemporaryPath(TargetOf(p)) == p
  {
    var name := p[|p| - 1];
    assert name[..|name| - |TEMP_SUFFIX|] + TEMP_SUFFIX == name;
  }

  // ---------- The legacy tree ----------

  function Find(entries: seq<Entry>, name: string): (found: Option<Node>)
    ensures found.Some? ==> exists i :: 0 <= i < |entries| && entries[i] == Entry(name, found.value)
  {
    if |entries| == 0 then None
    else if entries[0].name == name then Some(entries[0].node)
    else Find(entries[1..], name)
  }

  function NodeAt(node: Node, p: Path): Option<Node>
    decreases |p|
  {
    if |p| == 0 then Some(node)
    else if !node.Dir? then None
    else
      match Find(node.entries, p[0])
      case None => None
      case Some(child) => NodeAt(child, p[1..])
  }

  /** Entry `k` is the first with this name. */
  ghost predicate ListedAt(entries: seq<Entry>, k: nat, name: string, child: Node) {
    k < |entries| && entries[k] == Entry(name, child) && forall j | 0 <= j < k :: entries[j].name != name
  }

  ghost predicate Lists(node: Node, name: string, child: Node) {
    node.Dir? && exists k: nat :: ListedAt(node.entries, k, name, child)
  }

  /** The nodes on the way from `node` along the path. */
  ghost predicate LeadsAlong(node: Node, p: Path, way: seq<Node>) {
    |way| == |p| + 1 && way[0] == node && forall i | 0 <= i < |p| :: Lists(way[i], p[i], way[i + 1])
  }

  lemma {:induction false} ListedIsFound(entries: seq<Entry>, k: nat, name: string, child: Node)
    requires ListedAt(entries, k, name, child)
    ensures Find(entries, name) == Some(child)
  {
    if k > 0 {
      ListedIsFound(entries[1..], k - 1, name, child);
    }
  }

  lemma {:induction false} FoundIsListed(entries: seq<Entry>, name: string) returns (k: nat)
    requires Find(entries, name).Some?
    ensures ListedAt(entries, k, name, Find(entries, name).value)
  {
    k := 0;
    if entries[0].name != name {
      var at := FoundIsListed(entries[1..], name);
      k := at + 1;
      assert forall j | 0 < j < |entries| :: entries[j] == entries[1..][j - 1];
    }
  }

  /** What is at a path is what the directories on the way lead to. */
  lemma {:induction false} NodeAtIsReached(node: Node, p: Path, way: seq<Node>)
    requires LeadsAlong(node, p, way)
    ensures NodeAt(node, p) == Some(way[|p|])
    decreases |p|
  {
    hide Lists;
    if |p| > 0 {
      StepIsListed(node, p[0], way[1]);
      NodeAtIsReached(way[1], p[1..], way[1..]);
    }
  }

  lemma StepIsListed(node: Node, name: string, child: Node)
    requires Lists(node, name, child)
    ensures node.Dir? && Find(node.entries, name) == Some(child)
  {
    var k: nat :| ListedAt(node.entries, k, name, child);
    ListedIsFound(node.entries, k, name, child);
  }

  lemma {:induction false} NodeAtHasWay(node: Node, p: Path) returns (way: seq<Node>)
    requires NodeAt(node, p).Some?
    ensures LeadsAlong(node, p, way) && way[|p|] == NodeAt(node, p).value
    decreases |p|
  {
    hide ListedAt;
    if |p| == 0 {
      way := [node];
    } else {
      var child := Find(node.entries, p[0]).value;
      var _ := FoundIsListed(node.entries, p[0]);
      var rest := NodeAtHasWay(child, p[1..]);
      way := [node] + rest;
    }
  }

  ghost predicate DistinctNames(entries: seq<Entry>) {
    forall i, j | 0 <= i < j < |entries| :: entries[i].name != entries[j].name
  }

  /** A directory lists a name once, and no name ends like a temporary one. */
  ghost predicate IsTree(legacy: Node) {
    forall p :: NodeAt(legacy, p).Some? ==>
      !IsTemporary(p) && (NodeAt(legacy, p).value.Dir? ==> DistinctNames(NodeAt(legacy, p).value.entries))
  }

  predicate IsMigrated(p: Path) {
    |p| > 0 && (p[0] == "data" || p[0] == "log")
  }

  /** A file that the migration has to bring over. */
  predicate IsSource(legacy: Node, p: Path) {
    IsMigrated(p) && |p| >= 2 && NodeAt(legacy, p).Some? && NodeAt(legacy, p).value.File?
  }

  predicate IsSourceDir(legacy: Node, p: Path) {
    |p| == 0 || (IsMigrated(p) && NodeAt(legacy, p).Some? && NodeAt(legacy, p).value.Dir?)
  }

  lemma {:induction false} NodeAtJoin(node: Node, p: Path, q: Path)
    ensures NodeAt(node, p + q) == match NodeAt(node, p) case None => None case Some(n) => NodeAt(n, q)
    decreases |p|
  {
    if |p| == 0 {
      assert p + q == q;
    } else {
      assert (p + q)[1..] == p[1..] + q && (p + q)[0] == p[0];
      if node.Dir? && Find(node.entries, p[0]).Some? {
        NodeAtJoin(Find(node.entries, p[0]).value, p[1..], q);
      }
    }
  }

  lemma FindDistinct(entries: seq<Entry>, i: nat)
    requires DistinctNames(entries) && i < |entries|
    ensures Find(entries, entries[i].name) == Some(entries[i].node)
  {
    if i > 0 {
      FindDistinct(entries[1..], i - 1);
    }
  }

  lemma ChildAt(legacy: Node, p: Path, i: nat)
    requires IsTree(legacy) && NodeAt(legacy, p).Some? && NodeAt(legacy, p).value.Dir?
    requires i < |NodeAt(legacy, p).value.entries|
    ensures var child := NodeAt(legacy, p).value.entries[i]; NodeAt(legacy, p + [child.name]) == Some(child.node)
  {
    var entries := NodeAt(legacy, p).value.entries;
    FindDistinct(entries, i);
    NodeAtJoin(legacy, p, [entries[i].name]);
    assert NodeAt(Dir(entries), [entries[i].name]) == NodeAt(entries[i].node, [entries[i].name][1..]);
  }

  lemma ParentsAreDirs(legacy: Node, p: Path, n: nat)
    requires IsSourceDir(legacy, p) && n <= |p|
    ensures IsSourceDir(legacy, p[..n])
  {
    if 0 < n {
      NodeAtJoin(legacy, p[..n], p[n..]);
      assert p[..n] + p[n..] == p;
    }
  }

  function CountFiles(node: Node): nat {
    match node
    case File(_) => 1
    case Special => 0
    case Dir(entries) => CountEntries(entries)
  }

  function CountEntries(entries: seq<Entry>): nat {
    if |entries| == 0 then 0 else CountFiles(entries[|entries| - 1].node) + CountEntries(entries[..|entries| - 1])
  }

  // ---------- What a run may do ----------

  predicate IsTarget(legacy: Node, p: Path) {
    p == MARKER || IsSource(legacy, p)
  }

  /** The right content for a new file; what the marker says depends on the run. */
  predicate IsRight(legacy: Node, p: Path, content: Bytes) {
    p == MARKER || (IsSource(legacy, p) && NodeAt(legacy, p) == Some(File(content)))
  }

  /** No file is lost or changed, and every new file and directory is one of the legacy tree or the marker;
      temporary files apart. */
  ghost predicate Progress(legacy: Node, s: Disk, t: Disk) {
    && (forall p | p in s.files && !IsTemporary(p) :: p in t.files && t.files[p] == s.files[p])
    && (forall p | p in t.files && !IsTemporary(p) && p !in s.files :: p !in s.dirs && IsRight(legacy, p, t.files[p]))
    && s.dirs <= t.dirs
    && forall p | p in t.dirs && p !in s.dirs :: IsSourceDir(legacy, p)
  }

  /** Temporary files stand for files that are still to come. */
  ghost predicate TempsPending(legacy: Node, s: Disk) {
    forall p | p in s.files && IsTemporary(p) :: IsTarget(legacy, TargetOf(p)) && !Exists(s, TargetOf(p))
  }

  /** Everything below `root` has arrived. */
  ghost predicate Arrived(legacy: Node, s: Disk, root: Path) {
    forall p | IsSource(legacy, p) && root <= p :: Exists(s, p)
  }

  lemma ProgressComposes(legacy: Node, s: Disk, t: Disk, u: Disk)
    requires Progress(legacy, s, t) && Progress(legacy, t, u)
    ensures Progress(legacy, s, u)
  {
    forall p | p in u.files && !IsTemporary(p) && p !in s.files ensures p !in s.dirs && IsRight(legacy, p, u.files[p]) {
      if p in t.files {
        assert t.files[p] == u.files[p];
      }
    }
  }

  lemma ArrivedStays(legacy: Node, s: Disk, t: Disk, root: Path)
    requires IsTree(legacy) && Progress(legacy, s, t) && Arrived(legacy, s, root)
    ensures Arrived(legacy, t, root)
  {
    forall p | IsSource(legacy, p) && root <= p ensures Exists(t, p) {
      assert Exists(s, p) && !IsTemporary(p);
    }
  }

  /** Two directories of files that agree on every path but one. */
  ghost predicate SameBut(a: map<Path, Bytes>, b: map<Path, Bytes>, p: Path) {
    forall q | q != p :: (q in a <==> q in b) && (q in a ==> a[q] == b[q])
  }

  /** Removing or writing the temporary file of a target that is still to come. */
  lemma TempSteps(legacy: Node, s: Disk, t: Disk, target: Path)
    requires IsTarget(legacy, target) && !Exists(s, target) && TempsPending(legacy, s)
    requires IsTree(legacy) && t.dirs == s.dirs && SameBut(s.files, t.files, TemporaryPath(target)) && !IsTemporary(target)
    ensures Progress(legacy, s, t) && TempsPending(legacy, t) && !Exists(t, target)
  {
    hide IsTemporary, TargetOf, TemporaryPath, IsRight;
    TemporaryIsInverse(target);
    MarkerIsNotTemporary();
    forall p | p in t.files && IsTemporary(p) ensures IsTarget(legacy, TargetOf(p)) && !Exists(t, TargetOf(p)) {
      TargetIsInverse(p);
    }
  }

  /** Renaming it to its target. */
  lemma RenameStep(legacy: Node, s: Disk, t: Disk, target: Path)
    requires IsTarget(legacy, target) && !Exists(s, target) && TempsPending(legacy, s) && t.dirs == s.dirs
    requires var temp := TemporaryPath(target);
             temp in s.files && IsRight(legacy, target, s.files[temp]) && t.files == (s.files - {temp})[target := s.files[temp]]
    requires !IsTemporary(target)
    ensures Progress(legacy, s, t) && TempsPending(legacy, t)
  {
    var temp := TemporaryPath(target);
    TemporaryIsInverse(target);
    forall p | p in t.files && IsTemporary(p) ensures IsTarget(legacy, TargetOf(p)) && !Exists(t, TargetOf(p)) {
      TargetIsInverse(p);
      assert p in s.files;
    }
  }

  lemma DirStep(legacy: Node, s: Disk, t: Disk)
    requires TempsPending(legacy, s) && t.files == s.files && s.dirs <= t.dirs
    requires forall p | p in t.dirs && p !in s.dirs :: IsSourceDir(legacy, p)
    ensures Progress(legacy, s, t) && TempsPending(legacy, t)
  {
  }

  /** What every run keeps: temporary files are pending, and the marker means that everything has arrived. */
  ghost predicate Sound(legacy: Node, s: Disk) {
    TempsPending(legacy, s) && (Exists(s, MARKER) ==> AllArrived(legacy, s))
  }

  ghost predicate AllArrived(legacy: Node, s: Disk) {
    forall p | IsSource(legacy, p) :: Exists(s, p)
  }

  function Handled(r: Report): nat {
    r.copied + r.verified + r.conflicts
  }

  class Migration {
    const legacy: Node
    const markerBody: Report -> Bytes
    var disk: Disk
    var report: Report

    constructor (legacy: Node, markerBody: Report -> Bytes, disk: Disk)
      ensures this.legacy == legacy && this.markerBody == markerBody && this.disk == disk
      ensures report == Report(0, 0, 0, false)
    {
      this.legacy, this.markerBody, this.disk, report := legacy, markerBody, disk, Report(0, 0, 0, false);
    }

    // The operations of the file system. One that reports failure may have had its effect or a part of it: a crash is
    // a failure after which nothing runs.

    method CreateDirAll(p: Path) returns (ok: bool)
      modifies this`disk
      ensures disk.files == old(disk).files && old(disk).dirs <= disk.dirs
      ensures forall q | q in disk.dirs && q !in old(disk).dirs :: q <= p
      ensures ok ==> p in disk.dirs
    {
      var n: nat := *;
      ok := *;
      if n > |p| || ok {
        n := |p|;
      }
      assert p[..|p|] == p;
      disk := disk.(dirs := disk.dirs + set i | 0 <= i <= n :: p[..i]);
    }

    method RemoveFile(p: Path) returns (ok: bool)
      modifies this`disk
      ensures disk.dirs == old(disk).dirs && SameBut(old(disk).files, disk.files, p)
      ensures ok ==> p !in disk.files
    {
      var done: bool := *;
      ok := *;
      if done || ok {
        disk := disk.(files := disk.files - {p});
      }
    }

    /** Writes a file; one that reports success and is not `faithful` may still have written something else. */
    method WriteFile(p: Path, content: Bytes, faithful: bool) returns (ok: bool)
      modifies this`disk
      ensures disk.dirs == old(disk).dirs && SameBut(old(disk).files, disk.files, p)
      ensures ok ==> p in disk.files && (faithful ==> disk.files[p] == content)
    {
      var done: bool, written: Bytes := *, *;
      ok := *;
      if ok && faithful {
        written := content;
      }
      if done || ok {
        disk := disk.(files := disk.files[p := written]);
      }
    }

    method Rename(p: Path, q: Path) returns (ok: bool)
      requires p in disk.files
      modifies this`disk
      ensures disk == old(disk) || disk == old(disk).(files := (old(disk).files - {p})[q := old(disk).files[p]])
      ensures ok ==> disk == old(disk).(files := (old(disk).files - {p})[q := old(disk).files[p]])
    {
      var done: bool := *;
      ok := *;
      if done || ok {
        disk := disk.(files := (disk.files - {p})[q := disk.files[p]]);
      }
    }

    /** Copies one file under a temporary name, compares, and renames; a file that is there stays. */
    method CopyFileVerified(content: Bytes, destination: Path) returns (ok: bool, ghost uneven: bool)
      requires IsTree(legacy) && IsSource(legacy, destination) && NodeAt(legacy, destination) == Some(File(content))
      requires TempsPending(legacy, disk)
      modifies this`disk, this`report
      ensures Progress(legacy, old(disk), disk) && TempsPending(legacy, disk)
      ensures report.markerCreated == old(report).markerCreated
      ensures ok ==> Exists(disk, destination) && Handled(report) == Handled(old(report)) + 1
      ensures MARKER in disk.files ==> MARKER in old(disk).files
      ensures Exists(old(disk), destination) ==> disk == old(disk)
      ensures ok && destination in old(disk).files ==>
        if report.verified == old(report).verified + 1 then old(disk).files[destination] == content
        else report.conflicts == old(report).conflicts + 1 && (old(disk).files[destination] != content || uneven)
      ensures ok && Exists(old(disk), destination) ==> report.copied == old(report).copied
      ensures ok && !Exists(old(disk), destination) ==>
        destination in disk.files && disk.files[destination] == content && report.copied == old(report).copied + 1
    {
      uneven := false;
      if Exists(disk, destination) {
        var readable := *;
        if !readable {
          return false, uneven;
        }
        if destination in disk.files {
          var equal;
          equal, uneven := FilesEqual(content, disk.files[destination]);
          if equal {
            report := report.(verified := report.verified + 1);
          } else {
            report := report.(conflicts := report.conflicts + 1);
          }
        } else {
          report := report.(conflicts := report.conflicts + 1);
        }
        return true, uneven;
      }
      var temp := TemporaryPath(destination);
      ghost var s0 := disk;
      ok := RemoveFile(temp);
      TempSteps(legacy, s0, disk, destination);
      if !ok {
        return false, uneven;
      }
      ghost var s1 := disk;
      ok := WriteFile(temp, content, false);
      TempSteps(legacy, s1, disk, destination);
      ProgressComposes(legacy, s0, s1, disk);
      if !ok {
        return false, uneven;
      }
      var readable := *;
      if !readable {
        return false, uneven;
      }
      ghost var s2 := disk;
      var equal;
      equal, uneven := FilesEqual(content, disk.files[temp]);
      if !equal {
        ok := RemoveFile(temp);
        TempSteps(legacy, s2, disk, destination);
        ProgressComposes(legacy, s0, s2, disk);
        return false, uneven;
      }
      ok := Rename(temp, destination);
      if disk != s2 {
        RenameStep(legacy, s2, disk, destination);
        ProgressComposes(legacy, s0, s2, disk);
      }
      if ok {
        report := report.(copied := report.copied + 1);
      }
    }

    /** One entry of a directory: a tree, a file, or something that stops the run. */
    method CopyEntry(source: Node, destination: Path, i: nat) returns (ok: bool)
      requires IsTree(legacy) && IsMigrated(destination) && NodeAt(legacy, destination) == Some(source) && source.Dir?
      requires i < |source.entries| && TempsPending(legacy, disk)
      modifies this`disk, this`report
      ensures Progress(legacy, old(disk), disk) && TempsPending(legacy, disk)
      ensures report.markerCreated == old(report).markerCreated && (MARKER in disk.files ==> MARKER in old(disk).files)
      ensures ok ==> Arrived(legacy, disk, destination + [source.entries[i].name])
                     && Handled(report) == Handled(old(report)) + CountFiles(source.entries[i].node)
      decreases source, 0
    {
      hide Arrived, Progress;
      var entry := source.entries[i];
      var target := destination + [entry.name];
      ChildAt(legacy, destination, i);
      match entry.node {
        case Dir(_) => ok := CopyTreeVerified(entry.node, target);
        case File(content) =>
          ghost var uneven;
          ok, uneven := CopyFileVerified(content, target);
          if ok {
            FileArrives(legacy, disk, target);
          }
        case Special =>
          NoProgress(legacy, disk);
          ok := false;
      }
    }

    method CopyTreeVerified(source: Node, destination: Path) returns (ok: bool)
      requires IsTree(legacy) && IsMigrated(destination) && NodeAt(legacy, destination) == Some(source) && source.Dir?
      requires TempsPending(legacy, disk)
      modifies this`disk, this`report
      ensures Progress(legacy, old(disk), disk) && TempsPending(legacy, disk)
      ensures report.markerCreated == old(report).markerCreated && (MARKER in disk.files ==> MARKER in old(disk).files)
      ensures ok ==> Arrived(legacy, disk, destination) && Handled(report) == Handled(old(report)) + CountFiles(source)
      decreases source, 1
    {
      hide Arrived, Progress, TempsPending, IsTree, NodeAt, IsMigrated;
      ghost var s0 := disk;
      ok := CreateDirAll(destination);
      PrefixStep(legacy, s0, disk, destination);
      if !ok {
        return false;
      }
      var entries := source.entries;
      for i := 0 to |entries|
        invariant Progress(legacy, s0, disk) && TempsPending(legacy, disk)
        invariant report.markerCreated == old(report).markerCreated && (MARKER in disk.files ==> MARKER in s0.files)
        invariant Handled(report) == Handled(old(report)) + CountEntries(entries[..i])
        invariant forall j | 0 <= j < i :: Arrived(legacy, disk, destination + [entries[j].name])
      {
        ghost var s1 := disk;
        ok := CopyEntry(source, destination, i);
        ProgressComposes(legacy, s0, s1, disk);
        if !ok {
          return false;
        }
        forall j | 0 <= j < i ensures Arrived(legacy, disk, destination + [entries[j].name]) {
          ArrivedStays(legacy, s1, disk, destination + [entries[j].name]);
        }
        assert entries[..i + 1][..i] == entries[..i];
      }
      assert entries[..|entries|] == entries;
      ChildrenArrive(legacy, disk, destination);
      ok := true;
    }

    /** One of the two directories, if the old installation has it. */
    method MigrateDirectory(name: string) returns (ok: bool)
      requires IsTree(legacy) && TempsPending(legacy, disk) && IsMigrated([name])
      modifies this`disk, this`report
      ensures Progress(legacy, old(disk), disk) && TempsPending(legacy, disk)
      ensures report.markerCreated == old(report).markerCreated && (MARKER in disk.files ==> MARKER in old(disk).files)
      ensures ok ==> Arrived(legacy, disk, [name]) && Handled(report) == Handled(old(report)) + CountIn(legacy, name)
    {
      ok := true;
      match NodeAt(legacy, [name]) {
        case Some(Dir(entries)) => ok := CopyTreeVerified(Dir(entries), [name]);
        case _ => NothingBelow(legacy, disk, name);
      }
    }

    /** Leaves the marker, by way of a temporary file, when everything has arrived. */
    method WriteMarker() returns (ok: bool)
      requires TempsPending(legacy, disk) && AllArrived(legacy, disk) && !Exists(disk, MARKER) && IsTree(legacy)
      modifies this`disk
      ensures Progress(legacy, old(disk), disk) && Sound(legacy, disk)
      ensures ok ==> MARKER in disk.files && disk.files[MARKER] == markerBody(report)
    {
      ghost var s0 := disk;
      var temp := TemporaryPath(MARKER);
      MarkerIsNotTemporary();
      ok := RemoveFile(temp);
      TempSteps(legacy, s0, disk, MARKER);
      if !ok {
        return;
      }
      ghost var s1 := disk;
      ok := WriteFile(temp, markerBody(report), true);
      TempSteps(legacy, s1, disk, MARKER);
      ProgressComposes(legacy, s0, s1, disk);
      if !ok {
        return;
      }
      ghost var s2 := disk;
      ok := Rename(temp, MARKER);
      if disk != s2 {
        RenameStep(legacy, s2, disk, MARKER);
        ProgressComposes(legacy, s0, s2, disk);
      }
      AllArrivedStays(legacy, s0, disk);
    }

    /** One run; no result when it fails or is cut off. */
    method MigrateLegacyRuntime(sameRoot: bool) returns (result: Option<Report>)
      requires IsTree(legacy) && Sound(legacy, disk)
      modifies this`disk, this`report
      ensures Progress(legacy, old(disk), disk) && Sound(legacy, disk)
      ensures sameRoot || Exists(old(disk), MARKER) ==> disk == old(disk) && result == Some(Report(0, 0, 0, false))
      ensures result.Some? && !sameRoot ==> MARKER in disk.files || MARKER in disk.dirs
      ensures result.Some? && !sameRoot && !Exists(old(disk), MARKER) ==>
        result.value.markerCreated && Handled(result.value) == CountIn(legacy, "data") + CountIn(legacy, "log")
    {
      hide Progress, TempsPending, Arrived, IsTree, AllArrived;
      if Exists(disk, MARKER) || sameRoot {
        NoProgress(legacy, disk);
        return Some(Report(0, 0, 0, false));
      }
      report := Report(0, 0, 0, false);
      ghost var s0 := disk;
      var ok := CreateDirAll([]);
      RootStep(legacy, s0, disk);
      NoMarkerYet(legacy, s0, disk);
      if !ok {
        return None;
      }
      ghost var s1 := disk;
      ok := MigrateDirectory("data");
      ProgressComposes(legacy, s0, s1, disk);
      NoMarkerYet(legacy, s0, disk);
      if !ok {
        return None;
      }
      ghost var s2 := disk;
      ok := MigrateDirectory("log");
      ProgressComposes(legacy, s0, s2, disk);
      NoMarkerYet(legacy, s0, disk);
      if !ok {
        return None;
      }
      ArrivedStays(legacy, s2, disk, ["data"]);
      BothArrived(legacy, disk);
      ghost var s3 := disk;
      ok := WriteMarker();
      ProgressComposes(legacy, s0, s3, disk);
      if !ok {
        return None;
      }
      report := report.(markerCreated := true);
      return Some(report);
    }
  }

  function CountIn(legacy: Node, name: string): nat {
    match NodeAt(legacy, [name])
    case Some(Dir(entries)) => CountFiles(Dir(entries))
    case _ => 0
  }

  lemma FileArrives(legacy: Node, s: Disk, p: Path)
    requires NodeAt(legacy, p).Some? && NodeAt(legacy, p).value.File? && Exists(s, p)
    ensures Arrived(legacy, s, p)
  {
    forall q | IsSource(legacy, q) && p <= q ensures q == p {
      NodeAtJoin(legacy, p, q[|p|..]);
      assert p + q[|p|..] == q;
    }
  }

  lemma ChildrenArrive(legacy: Node, s: Disk, p: Path)
    requires NodeAt(legacy, p).Some? && NodeAt(legacy, p).value.Dir?
    requires forall j | 0 <= j < |NodeAt(legacy, p).value.entries| :: Arrived(legacy, s, p + [NodeAt(legacy, p).value.entries[j].name])
    ensures Arrived(legacy, s, p)
  {
    var entries := NodeAt(legacy, p).value.entries;
    forall q | IsSource(legacy, q) && p <= q ensures Exists(s, q) {
      var rest := q[|p|..];
      NodeAtJoin(legacy, p, rest);
      assert p + rest == q;
      assert rest != [];
      var j :| 0 <= j < |entries| && entries[j].name == rest[0];
      assert Arrived(legacy, s, p + [entries[j].name]);
      assert p + [entries[j].name] <= q;
    }
  }

  lemma NothingBelow(legacy: Node, s: Disk, name: string)
    requires NodeAt(legacy, [name]).None? || !NodeAt(legacy, [name]).value.Dir?
    ensures Arrived(legacy, s, [name])
  {
    forall q ensures !(IsSource(legacy, q) && [name] <= q) {
      if [name] <= q {
        assert [name] + q[1..] == q;
        NodeAtJoin(legacy, [name], q[1..]);
      }
    }
  }

  lemma PrefixStep(legacy: Node, s: Disk, t: Disk, destination: Path)
    requires TempsPending(legacy, s) && t.files == s.files && s.dirs <= t.dirs && IsSourceDir(legacy, destination)
    requires forall p | p in t.dirs && p !in s.dirs :: p <= destination
    ensures Progress(legacy, s, t) && TempsPending(legacy, t)
  {
    forall p | p in t.dirs && p !in s.dirs ensures IsSourceDir(legacy, p) {
      ParentsAreDirs(legacy, destination, |p|);
      assert destination[..|p|] == p;
    }
    DirStep(legacy, s, t);
  }

  lemma NoProgress(legacy: Node, s: Disk)
    ensures Progress(legacy, s, s)
  {
  }

  lemma RootStep(legacy: Node, s: Disk, t: Disk)
    requires TempsPending(legacy, s) && t.files == s.files && s.dirs <= t.dirs
    requires forall p | p in t.dirs && p !in s.dirs :: p <= []
    ensures Progress(legacy, s, t) && TempsPending(legacy, t)
  {
  }

  /** No directory of the tree has the marker's name in its place. */
  lemma NoMarkerYet(legacy: Node, s: Disk, t: Disk)
    requires Progress(legacy, s, t) && !Exists(s, MARKER) && MARKER !in t.files
    ensures !Exists(t, MARKER)
  {
  }

  lemma BothArrived(legacy: Node, s: Disk)
    requires Arrived(legacy, s, ["data"]) && Arrived(legacy, s, ["log"])
    ensures AllArrived(legacy, s)
  {
    forall p | IsSource(legacy, p) ensures Exists(s, p) {
      assert [p[0]] <= p;
    }
  }

  lemma AllArrivedStays(legacy: Node, s: Disk, t: Disk)
    requires IsTree(legacy) && Progress(legacy, s, t) && AllArrived(legacy, s)
    ensures AllArrived(legacy, t)
  {
    forall p | IsSource(legacy, p) ensures Exists(t, p) {
      assert Exists(s, p) && !IsTemporary(p);
    }
  }

  lemma MarkerIsNotTemporary()
    ensures !IsTemporary(MARKER)
  {
    assert MARKER[0][|MARKER[0]| - |TEMP_SUFFIX|..][0] == 'e';
  }

  // ---------- Every history of runs ----------

  /** What one run does, as `MigrateLegacyRuntime` promises it. */
  ghost predicate Run(legacy: Node, s: Disk, t: Disk) {
    Progress(legacy, s, t) && (Sound(legacy, s) ==> Sound(legacy, t))
  }

  /** Runs one after the other, each cut off anywhere or not. */
  ghost predicate IsHistory(legacy: Node, states: seq<Disk>) {
    |states| > 0 && forall i | 0 < i < |states| :: Run(legacy, states[i - 1], states[i])
  }

  /** Before the first run there is no marker and no temporary file. */
  ghost predicate IsFresh(s: Disk) {
    !Exists(s, MARKER) && forall p | p in s.files :: !IsTemporary(p)
  }

  lemma {:induction false} HistoryKeeps(legacy: Node, states: seq<Disk>)
    requires IsHistory(legacy, states) && IsFresh(states[0])
    ensures Progress(legacy, states[0], states[|states| - 1]) && Sound(legacy, states[|states| - 1])
  {
    hide Progress, Sound;
    var n := |states| - 1;
    if n == 0 {
      NoProgress(legacy, states[0]);
      FreshIsSound(legacy, states[0]);
    } else {
      HistoryKeeps(legacy, states[..n]);
      assert Run(legacy, states[n - 1], states[n]);
      ProgressComposes(legacy, states[0], states[n - 1], states[n]);
    }
  }

  lemma FreshIsSound(legacy: Node, s: Disk)
    requires IsFresh(s)
    ensures Sound(legacy, s)
  {
  }

  /** When the marker is there, the files are those of before and, where there was nothing, those of the old
      installation; no temporary file is left. */
  lemma CompletedMigration(legacy: Node, states: seq<Disk>, p: Path)
    requires IsTree(legacy) && IsHistory(legacy, states) && IsFresh(states[0]) && p != MARKER
    requires MARKER in states[|states| - 1].files || MARKER in states[|states| - 1].dirs
    ensures var s, t := states[0], states[|states| - 1];
            && (p in t.files <==> p in s.files || (IsSource(legacy, p) && p !in s.dirs))
            && (p in s.files ==> t.files[p] == s.files[p])
            && (p in t.files && p !in s.files ==> NodeAt(legacy, p) == Some(File(t.files[p])))
            && (p in t.files ==> !IsTemporary(p))
  {
    var s, t := states[0], states[|states| - 1];
    HistoryKeeps(legacy, states);
    if IsSource(legacy, p) {
      assert Exists(t, p) && !IsTemporary(p);
    }
  }

  /** However often it was cut off, a migration that has completed left the same files: an interrupted one ends like
      one in a single run. */
  lemma InterruptedMigrationsConverge(legacy: Node, first: seq<Disk>, second: seq<Disk>)
    requires IsTree(legacy) && IsHistory(legacy, first) && IsHistory(legacy, second) && first[0] == second[0] && IsFresh(first[0])
    requires MARKER in first[|first| - 1].files || MARKER in first[|first| - 1].dirs
    requires MARKER in second[|second| - 1].files || MARKER in second[|second| - 1].dirs
    ensures first[|first| - 1].files - {MARKER} == second[|second| - 1].files - {MARKER}
  {
    var a, b := first[|first| - 1].files - {MARKER}, second[|second| - 1].files - {MARKER};
    forall p ensures (p in a <==> p in b) && (p in a ==> a[p] == b[p]) {
      if p != MARKER {
        CompletedMigration(legacy, first, p);
        CompletedMigration(legacy, second, p);
      }
    }
  }

  function Least(a: nat, b: nat): nat {
    if a < b then a else b
  }

  /** One read into a block: nothing only at the end of the file, but perhaps less than would fit. */
  method Read(remaining: nat) returns (n: nat)
    ensures n <= 8192 && n <= remaining && (n == 0 <==> remaining == 0)
  {
    var most := Least(BLOCK, remaining);
    var got: int := *;
    n := if 0 < got <= most then got else most;
  }

  /** Two files compared block by block. "Equal" is always true; "different" may be wrong when one read came short of
      the other, which `uneven` tells. */
  method FilesEqual(left: Bytes, right: Bytes) returns (equal: bool, ghost uneven: bool)
    ensures equal ==> left == right
    ensures !equal ==> left != right || uneven
  {
    uneven := false;
    if |left| != |right| {
      return false, uneven;
    }
    var at := 0;
    while true
      invariant 0 <= at <= |left| && left[..at] == right[..at] && !uneven
      decreases |left| - at
    {
      var leftLen := Read(|left| - at);
      var rightLen := Read(|right| - at);
      uneven := leftLen != rightLen;
      if leftLen != rightLen || left[at..at + leftLen] != right[at..at + rightLen] {
        return false, uneven;
      }
      if leftLen == 0 {
        assert left[..at] == left && right[..at] == right;
        return true, uneven;
      }
      assert left[..at + leftLen] == left[..at] + left[at..at + leftLen];
      assert right[..at + leftLen] == right[..at] + right[at..at + leftLen];
      at := at + leftLen;
    }
  }
}
