/**
 * The flat, parent-linked file-directory table (`FileDirectory[]`) and the
 * lookups the data-management, knowledge-base-management and build-task
 * screens run over it: finding a directory or a file, reconstructing a
 * directory's path, the three-level creation guard and the depth-bounded
 * display tree.
 *
 * The path recursion follows `parentId` links with no cycle guard; it is
 * defined here on tables where every found parent sits exactly one level
 * above its child and levels lie in 0..3, which makes the level a
 * termination measure.
 */
module DirectoryTable {
  import opened Common
  import opened Records

  /** The id of the root row; top-level directories name it as their parent. */
  const RootId: string := "dir-root"

  /** The deepest level a directory may sit at. */
  const MaxDirLevel: int := 3

  // ---------------------------------------------------------------------------
  // Lookups
  // ---------------------------------------------------------------------------

  /** `directories.find(d => d.id === id)`. */
  function FindDir(ds: seq<FileDirectory>, id: string): (r: Option<FileDirectory>)
    ensures r.None? <==> forall i :: 0 <= i < |ds| ==> ds[i].id != id
    ensures r.Some? ==> r.value in ds && r.value.id == id
    ensures r.Some? ==> exists i :: 0 <= i < |ds| && ds[i] == r.value &&
                                    forall j :: 0 <= j < i ==> ds[j].id != id
  {
    if ds == [] then None
    else if ds[0].id == id then Some(ds[0])
    else
      var r := FindDir(ds[1..], id);
      assert r.Some? ==> exists i :: 0 <= i < |ds[1..]| && ds[1..][i] == r.value &&
                                      forall j :: 0 <= j < i ==> ds[1..][j].id != id;
      assert r.Some? ==> exists i :: 1 <= i < |ds| && ds[i] == r.value &&
                                      forall j :: 1 <= j < i ==> ds[j].id != id;
      r
  }

  /** `getFilesInDirectory`: the directory's files, or none for an unknown id. */
  function FilesInDirectory(ds: seq<FileDirectory>, id: string): (r: seq<FileItem>)
    ensures (forall i :: 0 <= i < |ds| ==> ds[i].id != id) ==> r == []
    ensures FindDir(ds, id).Some? ==> r == FindDir(ds, id).value.files
  {
    match FindDir(ds, id)
    case Some(d) => d.files
    case None => []
  }

  /** `files.find(f => f.id === id)`. */
  function FindFileIn(fs: seq<FileItem>, id: string): (r: Option<FileItem>)
    ensures r.None? <==> forall k :: 0 <= k < |fs| ==> fs[k].id != id
    ensures r.Some? ==> r.value in fs && r.value.id == id
    ensures r.Some? ==> exists k :: 0 <= k < |fs| && fs[k] == r.value && forall j :: 0 <= j < k ==> fs[j].id != id
  {
    if fs == [] then None
    else if fs[0].id == id then Some(fs[0])
    else
      var r := FindFileIn(fs[1..], id);
      assert r.Some? ==> exists k :: 1 <= k < |fs| && fs[k] == r.value && forall j :: 1 <= j < k ==> fs[j].id != id by {
        if r.Some? {
          var k :| 0 <= k < |fs[1..]| && fs[1..][k] == r.value && forall j :: 0 <= j < k ==> fs[1..][j].id != id;
          assert fs[k + 1] == fs[1..][k];
          forall j | 1 <= j < k + 1 ensures fs[j].id != id { assert fs[j] == fs[1..][j - 1]; }
        }
      }
      r
  }

  /** No directory of the table holds a file with the id. */
  predicate NoFileWithId(ds: seq<FileDirectory>, id: string)
  {
    forall i, k :: 0 <= i < |ds| && 0 <= k < |ds[i].files| ==> ds[i].files[k].id != id
  }

  /** The file at position `k` of row `i` is the first with the id when the
      table is scanned row by row and each row's files in order. */
  predicate FirstFileAt(ds: seq<FileDirectory>, id: string, i: int, k: int)
  {
    0 <= i < |ds| && 0 <= k < |ds[i].files| && ds[i].files[k].id == id &&
    NoFileWithId(ds[..i], id) && forall j :: 0 <= j < k ==> ds[i].files[j].id != id
  }

  /** A first hit in the rows after the first row stays a first hit once a
      row without the id is put in front. */
  lemma FirstFileAtBehind(ds: seq<FileDirectory>, id: string, i: nat, k: nat)
    requires ds != [] && forall m :: 0 <= m < |ds[0].files| ==> ds[0].files[m].id != id
    requires FirstFileAt(ds[1..], id, i, k)
    ensures FirstFileAt(ds, id, i + 1, k) && ds[i + 1].files[k] == ds[1..][i].files[k]
  {
    assert ds[i + 1] == ds[1..][i];
    var front, behind := ds[..i + 1], ds[1..][..i];
    forall a, m | 0 <= a < i + 1 && 0 <= m < |front[a].files|
      ensures front[a].files[m].id != id
    {
      if a > 0 {
        assert front[a] == behind[a - 1];
      }
    }
  }

  /** `getFileInfo`: the first file with the id, scanning the directories in
      table order and each directory's files in order. */
  function FileInfo(ds: seq<FileDirectory>, id: string): (r: Option<FileItem>)
    ensures r.None? <==> NoFileWithId(ds, id)
    ensures r.Some? ==> r.value.id == id && exists i :: 0 <= i < |ds| && r.value in ds[i].files
    ensures r.Some? ==> exists i, k :: FirstFileAt(ds, id, i, k) && ds[i].files[k] == r.value
  {
    if ds == [] then None
    else match FindFileIn(ds[0].files, id)
      case Some(f) =>
        assert exists k :: FirstFileAt(ds, id, 0, k) && ds[0].files[k] == f by {
          var k :| 0 <= k < |ds[0].files| && ds[0].files[k] == f && forall j :: 0 <= j < k ==> ds[0].files[j].id != id;
          assert FirstFileAt(ds, id, 0, k);
        }
        Some(f)
      case None =>
        var r := FileInfo(ds[1..], id);
        assert NoFileWithId(ds[1..], id) ==> NoFileWithId(ds, id) by {
          if NoFileWithId(ds[1..], id) {
            forall i, k | 0 <= i < |ds| && 0 <= k < |ds[i].files|
              ensures ds[i].files[k].id != id
            {
              if i > 0 { assert ds[i] == ds[1..][i - 1]; }
            }
          }
        }
        assert r.Some? ==> exists i :: 0 <= i < |ds| && r.value in ds[i].files by {
          if r.Some? {
            var i :| 0 <= i < |ds[1..]| && r.value in ds[1..][i].files;
            assert ds[1..][i] == ds[i + 1];
          }
        }
        assert r.Some? ==> exists i, k :: FirstFileAt(ds, id, i, k) && ds[i].files[k] == r.value by {
          if r.Some? {
            var i, k :| FirstFileAt(ds[1..], id, i, k) && ds[1..][i].files[k] == r.value;
            FirstFileAtBehind(ds, id, i, k);
          }
        }
        r
  }

  /** `getFileInfo` as the source writes it: a loop over the directories that
      returns the first hit of `find` over each directory's files. */
  method FindFileInfo(ds: seq<FileDirectory>, id: string) returns (r: Option<FileItem>)
    ensures r == FileInfo(ds, id)
  {
    var i := 0;
    while i < |ds|
      invariant 0 <= i <= |ds|
      invariant FileInfo(ds, id) == FileInfo(ds[i..], id)
    {
      var file := FindFileIn(ds[i].files, id);
      if file.Some? {
        return file;
      }
      assert ds[i..][1..] == ds[i + 1..];
      i := i + 1;
    }
    return None;
  }

  // ---------------------------------------------------------------------------
  // Well-formed tables
  // ---------------------------------------------------------------------------

  /** The parent row `getDirectoryPath` follows from `d`: the first row carrying
      `d.parentId`; none for the root row or a dangling parent. */
  function ParentOf(ds: seq<FileDirectory>, d: FileDirectory): Option<FileDirectory>
  {
    match d.parentId
    case None => None
    case Some(p) => FindDir(ds, p)
  }

  /** Levels lie in 0..3 and every row's found parent sits one level above it. */
  ghost predicate WellFormedTable(ds: seq<FileDirectory>)
  {
    forall i :: 0 <= i < |ds| ==>
      0 <= ds[i].level <= MaxDirLevel &&
      (ParentOf(ds, ds[i]).Some? ==> ParentOf(ds, ds[i]).value.level == ds[i].level - 1)
  }

  lemma ParentIsOneLevelUp(ds: seq<FileDirectory>, d: FileDirectory)
    requires WellFormedTable(ds) && d in ds
    ensures 0 <= d.level <= MaxDirLevel
    ensures ParentOf(ds, d).Some? ==>
              ParentOf(ds, d).value in ds && ParentOf(ds, d).value.level == d.level - 1
  {
    var i :| 0 <= i < |ds| && ds[i] == d;
  }

  // ---------------------------------------------------------------------------
  // getDirectoryPath
  // ---------------------------------------------------------------------------

  /** `getDirectoryPath` from a row that was found: `root/<name>` under the
      root, the bare name when the parent is missing, otherwise the parent's
      path, `/` and the name. */
  function PathFrom(ds: seq<FileDirectory>, d: FileDirectory): string
    requires WellFormedTable(ds) && d in ds
    decreases d.level
  {
    ParentIsOneLevelUp(ds, d);
    if d.parentId == Some(RootId) then "root/" + d.name
    else match ParentOf(ds, d)
      case None => d.name
      case Some(p) => PathFrom(ds, p) + "/" + d.name
  }

  /** `getDirectoryPath` in the data-management screen, and its copy
      `getFileDirectoryPath` in knowledge-base management: `root` for an
      unknown id. */
  function DirectoryPath(ds: seq<FileDirectory>, id: string): string
    requires WellFormedTable(ds)
  {
    match FindDir(ds, id)
    case None => "root"
    case Some(d) => PathFrom(ds, d)
  }

  /** `getDirectoryPath` in the build-task screen: `未知目录` for an unknown id. */
  function TaskDirectoryPath(ds: seq<FileDirectory>, id: string): string
    requires WellFormedTable(ds)
  {
    match FindDir(ds, id)
    case None => "未知目录"
    case Some(d) => PathFrom(ds, d)
  }

  /** `getFileDirectoryPathById`: `未知目录` for an unknown id, otherwise
      `getFileDirectoryPath`. */
  function DirectoryPathById(ds: seq<FileDirectory>, id: string): string
    requires WellFormedTable(ds)
  {
    if FindDir(ds, id).None? then "未知目录" else DirectoryPath(ds, id)
  }

  /** The three path functions agree on every known id, and differ only in
      the text they give an unknown one. */
  lemma PathCopiesAgree(ds: seq<FileDirectory>, id: string)
    requires WellFormedTable(ds)
    ensures (exists i :: 0 <= i < |ds| && ds[i].id == id) ==>
              DirectoryPath(ds, id) == DirectoryPathById(ds, id) == TaskDirectoryPath(ds, id)
    ensures (forall i :: 0 <= i < |ds| ==> ds[i].id != id) ==>
              DirectoryPath(ds, id) == "root" &&
              DirectoryPathById(ds, id) == "未知目录" == TaskDirectoryPath(ds, id)
  {
  }

  /** The names of a chain of rows joined with `/`. */
  function JoinNames(chain: seq<FileDirectory>): string
  {
    if chain == [] then ""
    else if |chain| == 1 then chain[0].name
    else JoinNames(chain[..|chain| - 1]) + "/" + chain[|chain| - 1].name
  }

  /** The chain `getDirectoryPath` walks, from the topmost row it reaches down
      to `d`: it stops at a row whose parent is the root id or is missing. */
  function Ancestry(ds: seq<FileDirectory>, d: FileDirectory): (r: seq<FileDirectory>)
    requires WellFormedTable(ds) && d in ds
    ensures r != [] && r[|r| - 1] == d
    decreases d.level
  {
    ParentIsOneLevelUp(ds, d);
    if d.parentId == Some(RootId) then [d]
    else match ParentOf(ds, d)
      case None => [d]
      case Some(p) => Ancestry(ds, p) + [d]
  }

  /** The chain reaches a top-level row, one whose parent is the root id. */
  predicate ReachesRoot(ds: seq<FileDirectory>, d: FileDirectory)
    requires WellFormedTable(ds) && d in ds
  {
    Ancestry(ds, d)[0].parentId == Some(RootId)
  }

  /** Along the chain each row is in the table and is the parent of the next
      row, and levels rise by one per step down to `d`. */
  lemma {:induction false} AncestryIsLinked(ds: seq<FileDirectory>, d: FileDirectory)
    requires WellFormedTable(ds) && d in ds
    ensures forall k :: 0 <= k < |Ancestry(ds, d)| - 1 ==>
              Ancestry(ds, d)[k + 1].parentId == Some(Ancestry(ds, d)[k].id)
    ensures forall k :: 0 <= k < |Ancestry(ds, d)| ==>
              Ancestry(ds, d)[k] in ds && Ancestry(ds, d)[k].level == d.level - (|Ancestry(ds, d)| - 1 - k)
    decreases d.level
  {
    ParentIsOneLevelUp(ds, d);
    if d.parentId != Some(RootId) && ParentOf(ds, d).Some? {
      var p := ParentOf(ds, d).value;
      AncestryIsLinked(ds, p);
      var a := Ancestry(ds, p);
      assert p.level == d.level - 1;
      assert d.parentId == Some(p.id);
      var b := Ancestry(ds, d);
      assert b == a + [d];
      assert a[|a| - 1] == p;
      forall k | 0 <= k < |b| - 1
        ensures b[k + 1].parentId == Some(b[k].id)
      {
        if k < |a| - 1 {
          assert b[k] == a[k] && b[k + 1] == a[k + 1];
        } else {
          assert b[k] == p && b[k + 1] == d;
        }
      }
      forall k | 0 <= k < |b|
        ensures b[k] in ds && b[k].level == d.level - (|b| - 1 - k)
      {
        if k < |a| {
          assert b[k] == a[k];
        }
      }
    }
  }

  lemma JoinNamesSnoc(a: seq<FileDirectory>, d: FileDirectory)
    requires a != []
    ensures JoinNames(a + [d]) == JoinNames(a) + "/" + d.name
  {
    assert (a + [d])[..|a + [d]| - 1] == a;
  }

  /** The path of a directory is its chain's names, top to bottom, joined
      with `/` and prefixed with `root/` exactly when the chain reaches a
      top-level directory. */
  lemma {:induction false} PathIsJoinedAncestry(ds: seq<FileDirectory>, d: FileDirectory)
    requires WellFormedTable(ds) && d in ds
    ensures PathFrom(ds, d) == (if ReachesRoot(ds, d) then "root/" else "") + JoinNames(Ancestry(ds, d))
    decreases d.level
  {
    ParentIsOneLevelUp(ds, d);
    if d.parentId != Some(RootId) && ParentOf(ds, d).Some? {
      var p := ParentOf(ds, d).value;
      PathIsJoinedAncestry(ds, p);
      PathJoinStep(ds, d, p);
    }
  }

  lemma PathJoinStep(ds: seq<FileDirectory>, d: FileDirectory, p: FileDirectory)
    requires WellFormedTable(ds) && d in ds && p in ds
    requires d.parentId != Some(RootId) && ParentOf(ds, d) == Some(p)
    requires PathFrom(ds, p) == (if ReachesRoot(ds, p) then "root/" else "") + JoinNames(Ancestry(ds, p))
    ensures PathFrom(ds, d) == (if ReachesRoot(ds, d) then "root/" else "") + JoinNames(Ancestry(ds, d))
  {
    var a := Ancestry(ds, p);
    var pre := if ReachesRoot(ds, p) then "root/" else "";
    AncestryStep(ds, d, p);
    PathFromStep(ds, d, p);
    JoinNamesSnoc(a, d);
    PrefixedJoin(pre, JoinNames(a), d.name);
  }

  lemma AncestryStep(ds: seq<FileDirectory>, d: FileDirectory, p: FileDirectory)
    requires WellFormedTable(ds) && d in ds && p in ds
    requires d.parentId != Some(RootId) && ParentOf(ds, d) == Some(p)
    ensures Ancestry(ds, d) == Ancestry(ds, p) + [d]
    ensures ReachesRoot(ds, d) == ReachesRoot(ds, p)
  {
    assert Ancestry(ds, d)[0] == Ancestry(ds, p)[0];
  }

  lemma PathFromStep(ds: seq<FileDirectory>, d: FileDirectory, p: FileDirectory)
    requires WellFormedTable(ds) && d in ds && p in ds
    requires d.parentId != Some(RootId) && ParentOf(ds, d) == Some(p)
    ensures PathFrom(ds, d) == PathFrom(ds, p) + "/" + d.name
  {
  }

  lemma PrefixedJoin(x: string, y: string, z: string)
    ensures x + y + "/" + z == x + (y + "/" + z)
  {
  }

  /** In a table whose root row is at level 0, a path that reaches the root
      names at most three directories below it. */
  lemma RootedChainHasAtMostThreeLevels(ds: seq<FileDirectory>, d: FileDirectory)
    requires WellFormedTable(ds) && d in ds
    requires FindDir(ds, RootId).Some? && FindDir(ds, RootId).value.level == 0
    requires ReachesRoot(ds, d)
    ensures |Ancestry(ds, d)| <= 3
  {
    AncestryIsLinked(ds, d);
    var a := Ancestry(ds, d);
    ParentIsOneLevelUp(ds, a[0]);
    ParentIsOneLevelUp(ds, d);
  }

  // ---------------------------------------------------------------------------
  // Creating a directory
  // ---------------------------------------------------------------------------

  /** `canCreateSubDirectory`: an unknown parent is accepted; a known one
      only below the third level. */
  function CanCreateSubDirectory(ds: seq<FileDirectory>, parentId: string): (r: bool)
    ensures (forall i :: 0 <= i < |ds| ==> ds[i].id != parentId) ==> r
    ensures FindDir(ds, parentId).Some? ==> (r <==> FindDir(ds, parentId).value.level < MaxDirLevel)
  {
    match FindDir(ds, parentId)
    case None => true
    case Some(p) => p.level < MaxDirLevel
  }

  /** The row `handleCreateDirectory` appends: id `dir-<stamp>`, one level
      below the parent it finds (level 1 when none is found), with no files. */
  function NewDirectoryRow(ds: seq<FileDirectory>, parentId: string, name: string, stamp: string): FileDirectory
  {
    var level := match FindDir(ds, parentId) case Some(p) => p.level case None => 0;
    FileDirectory("dir-" + stamp, name, Some(parentId), level + 1, [])
  }

  /** What the guard lets through never lands deeper than the third level. */
  lemma CreatedRowWithinThreeLevels(ds: seq<FileDirectory>, parentId: string, name: string, stamp: string)
    requires WellFormedTable(ds)
    requires CanCreateSubDirectory(ds, parentId)
    ensures 1 <= NewDirectoryRow(ds, parentId, name, stamp).level <= MaxDirLevel
    ensures FindDir(ds, parentId).None? ==> NewDirectoryRow(ds, parentId, name, stamp).level == 1
  {
    if FindDir(ds, parentId).Some? {
      ParentIsOneLevelUp(ds, FindDir(ds, parentId).value);
    }
  }

  lemma {:induction false} FindDirAppend(ds: seq<FileDirectory>, row: FileDirectory, id: string)
    ensures FindDir(ds + [row], id) ==
            if FindDir(ds, id).Some? then FindDir(ds, id) else if row.id == id then Some(row) else None
  {
    if ds != [] {
      assert (ds + [row])[1..] == ds[1..] + [row];
      FindDirAppend(ds[1..], row, id);
    }
  }

  /** Appending the row the guard admits keeps the table well formed, given
      that its time-stamped id is new: no row carries it, names it as a
      parent, or is asked to be its parent. */
  lemma CreatePreservesWellFormed(ds: seq<FileDirectory>, parentId: string, name: string, stamp: string)
    requires WellFormedTable(ds)
    requires CanCreateSubDirectory(ds, parentId)
    requires forall i :: 0 <= i < |ds| ==> ds[i].id != "dir-" + stamp
    requires forall i :: 0 <= i < |ds| ==> ds[i].parentId != Some("dir-" + stamp)
    requires parentId != "dir-" + stamp
    ensures WellFormedTable(ds + [NewDirectoryRow(ds, parentId, name, stamp)])
  {
    var row := NewDirectoryRow(ds, parentId, name, stamp);
    var ds' := ds + [row];
    CreatedRowWithinThreeLevels(ds, parentId, name, stamp);
    forall i | 0 <= i < |ds'|
      ensures 0 <= ds'[i].level <= MaxDirLevel
      ensures ParentOf(ds', ds'[i]).Some? ==> ParentOf(ds', ds'[i]).value.level == ds'[i].level - 1
    {
      if i < |ds| {
        assert ds'[i] == ds[i];
        if ds[i].parentId.Some? {
          FindDirAppend(ds, row, ds[i].parentId.value);
        }
      } else {
        FindDirAppend(ds, row, parentId);
      }
    }
  }

  // ---------------------------------------------------------------------------
  // buildDirectoryTree
  // ---------------------------------------------------------------------------

  /** One entry of the directory display tree. */
  datatype DirEntry = DirEntry(key: string, title: string, children: seq<DirEntry>)

  /** The rows whose `parentId` is `parentId`, in table order. */
  function ChildRows(ds: seq<FileDirectory>, parentId: string): (r: seq<FileDirectory>)
    ensures forall k :: 0 <= k < |r| ==> r[k].parentId == Some(parentId)
    ensures IsSubsequence(r, ds)
  {
    Filter(ds, (d: FileDirectory) => d.parentId == Some(parentId))
  }

  /** `buildChildren(parentId, level)`: nothing once `level` exceeds three. */
  function BuildChildren(ds: seq<FileDirectory>, parentId: string, level: int): seq<DirEntry>
    decreases if level > MaxDirLevel then 0 else MaxDirLevel + 1 - level, 1
  {
    if level > MaxDirLevel then [] else EntriesFor(ds, ChildRows(ds, parentId), level)
  }

  /** The entries for rows at `level`, each with its children one level down. */
  function EntriesFor(ds: seq<FileDirectory>, rows: seq<FileDirectory>, level: int): (r: seq<DirEntry>)
    requires level <= MaxDirLevel
    ensures |r| == |rows|
    ensures forall k :: 0 <= k < |rows| ==> r[k].key == rows[k].id && r[k].title == rows[k].name
    ensures forall k :: 0 <= k < |rows| ==> r[k].children == BuildChildren(ds, rows[k].id, level + 1)
    ensures level == MaxDirLevel ==> forall k :: 0 <= k < |rows| ==> r[k].children == []
    decreases MaxDirLevel + 1 - level, 0, |rows|
  {
    if rows == [] then []
    else
      var rest := EntriesFor(ds, rows[1..], level);
      var r := [DirEntry(rows[0].id, rows[0].name, BuildChildren(ds, rows[0].id, level + 1))] + rest;
      assert forall k :: 1 <= k < |rows| ==> r[k] == rest[k - 1] && rows[k] == rows[1..][k - 1];
      r
  }

  /** `buildDirectoryTree`: a single `root` entry keyed `dir-root` whose
      children are the top-level directories, each built with `buildChildren`
      from level 2. */
  function BuildDirectoryTree(ds: seq<FileDirectory>): seq<DirEntry>
  {
    [DirEntry(RootId, "root", EntriesFor(ds, ChildRows(ds, RootId), 1))]
  }

  /** The number of entry levels in a display tree. */
  function Height(es: seq<DirEntry>): nat
  {
    if es == [] then 0
    else
      var below := 1 + Height(es[0].children);
      var rest := Height(es[1..]);
      if below >= rest then below else rest
  }

  lemma {:induction false} EntriesHeight(ds: seq<FileDirectory>, rows: seq<FileDirectory>, level: int)
    requires 1 <= level <= MaxDirLevel
    ensures Height(EntriesFor(ds, rows, level)) <= MaxDirLevel + 1 - level
    decreases MaxDirLevel + 1 - level, |rows|
  {
    if rows != [] {
      var e := EntriesFor(ds, rows, level);
      assert e[1..] == EntriesFor(ds, rows[1..], level);
      EntriesHeight(ds, rows[1..], level);
      if level < MaxDirLevel {
        EntriesHeight(ds, ChildRows(ds, rows[0].id), level + 1);
      }
    }
  }

  /** The display tree is one root entry titled `root`, keyed `dir-root`,
      whose children are exactly the rows whose parent is `dir-root`, in table
      order; it is never more than four entries deep, so no displayed
      directory sits more than three levels below root. */
  lemma DirectoryTreeShape(ds: seq<FileDirectory>)
    ensures var t := BuildDirectoryTree(ds);
            |t| == 1 && t[0].key == RootId && t[0].title == "root"
    ensures var top := ChildRows(ds, RootId);
            var cs := BuildDirectoryTree(ds)[0].children;
            |cs| == |top| && forall k :: 0 <= k < |cs| ==> cs[k].key == top[k].id
    ensures forall d :: d in ds && d.parentId == Some(RootId) ==> d in ChildRows(ds, RootId)
    ensures Height(BuildDirectoryTree(ds)) <= MaxDirLevel + 1
  {
    var t := BuildDirectoryTree(ds);
    EntriesHeight(ds, ChildRows(ds, RootId), 1);
    assert t[1..] == [];
  }
}
