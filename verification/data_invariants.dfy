/**
 * Invariants the screens rely on in the console's data: the directory table
 * is well formed, every file sits in the row that lists it, connector ids mark
 * exactly the synchronised files, ids are unique, build tasks refer to files
 * and nodes that exist, preset file counts are right, and connector
 * directories are linked level by level. Each comes with a witness form that
 * a concrete table can be checked against.
 */
module DataInvariants {
  import opened Common
  import opened Records
  import opened KbForest
  import opened DirectoryTable
  import opened BuildTasks

  // ---------------------------------------------------------------------------
  // Invariants and their witnesses
  // ---------------------------------------------------------------------------

  function RowIds(ds: seq<FileDirectory>): (r: seq<string>)
    ensures |r| == |ds| && forall i :: 0 <= i < |ds| ==> r[i] == ds[i].id
  {
    if ds == [] then [] else [ds[0].id] + RowIds(ds[1..])
  }

  /** The ids of every file of the table, row by row. */
  function AllFileIds(ds: seq<FileDirectory>): seq<string>
  {
    if ds == [] then [] else FileIds(ds[0].files) + AllFileIds(ds[1..])
  }

  /** With unique row ids, `FindDir` finds each row by its own id. */
  lemma {:induction false} FindDirFindsUniqueRow(ds: seq<FileDirectory>, i: int)
    requires Distinct(RowIds(ds)) && 0 <= i < |ds|
    ensures FindDir(ds, ds[i].id) == Some(ds[i])
  {
    if i > 0 {
      var ids := RowIds(ds);
      assert ids[0] != ids[i];
      assert RowIds(ds[1..]) == ids[1..];
      FindDirFindsUniqueRow(ds[1..], i - 1);
      assert ds[1..][i - 1] == ds[i];
    }
  }

  /** `parent[i]` names the row of row `i`'s parent, which sits one level up;
      every level lies in 0..3. */
  predicate ParentWitness(ds: seq<FileDirectory>, parent: seq<int>)
  {
    |parent| == |ds| &&
    forall i :: 0 <= i < |ds| ==>
      0 <= ds[i].level <= MaxDirLevel &&
      (ds[i].parentId.Some? ==>
        0 <= parent[i] < |ds| && ds[parent[i]].id == ds[i].parentId.value &&
        ds[parent[i]].level == ds[i].level - 1)
  }

  /** A table with unique ids and a parent witness is well formed. */
  lemma WitnessedTableIsWellFormed(ds: seq<FileDirectory>, parent: seq<int>)
    requires Distinct(RowIds(ds)) && ParentWitness(ds, parent)
    ensures WellFormedTable(ds)
  {
    forall i | 0 <= i < |ds|
      ensures 0 <= ds[i].level <= MaxDirLevel &&
              (ParentOf(ds, ds[i]).Some? ==> ParentOf(ds, ds[i]).value.level == ds[i].level - 1)
    {
      if ds[i].parentId.Some? {
        FindDirFindsUniqueRow(ds, parent[i]);
      }
    }
  }

  /** A file listed by any row is found by `FileInfo`. */
  lemma ListedFileResolves(ds: seq<FileDirectory>, i: int, k: int)
    requires 0 <= i < |ds| && 0 <= k < |ds[i].files|
    ensures FileInfo(ds, ds[i].files[k].id).Some?
    ensures FileInfo(ds, ds[i].files[k].id).value.id == ds[i].files[k].id
  {
    assert !NoFileWithId(ds, ds[i].files[k].id);
  }

  /** The id of the `j`-th child of the `i`-th tree is listed by the forest. */
  lemma ChildIdListed(ns: seq<KbNode>, i: int, j: int)
    requires 0 <= i < |ns| && 0 <= j < |ns[i].children|
    ensures ns[i].id in IdList(ns)
    ensures ns[i].children[j].id in IdList(ns)
  {
    TreeIdsListed(ns, i);
    TreeIdsListed(ns[i].children, j);
    assert IdList([ns[i]]) == [ns[i].id] + IdList(ns[i].children) + IdList([]);
  }

  /** Every id of the `i`-th tree of a forest is an id of the forest. */
  lemma {:induction false} TreeIdsListed(ns: seq<KbNode>, i: int)
    requires 0 <= i < |ns|
    ensures forall x :: x in IdList([ns[i]]) ==> x in IdList(ns)
  {
    IdListCons(ns);
    if i > 0 {
      TreeIdsListed(ns[1..], i - 1);
      assert ns[1..][i - 1] == ns[i];
    }
  }

  /** Every file names, as its directory, the row that lists it. */
  predicate FilesFiledUnderTheirRow(ds: seq<FileDirectory>)
  {
    forall i, k :: 0 <= i < |ds| && 0 <= k < |ds[i].files| ==> ds[i].files[k].directoryId == ds[i].id
  }

  /** A connector id is present exactly on the files a connector delivered. */
  predicate ConnectorIdMarksConnectorFiles(ds: seq<FileDirectory>)
  {
    forall i, k :: 0 <= i < |ds| && 0 <= k < |ds[i].files| ==>
      (ds[i].files[k].connectorId.Some? <==> ds[i].files[k].source == FromConnector)
  }

  /** Every file id of every task resolves in the table, and every task's
      target node exists in the forest. */
  predicate TaskReferencesResolve(tasks: seq<BuildTask>, ds: seq<FileDirectory>, kbs: seq<KbNode>)
  {
    forall i :: 0 <= i < |tasks| ==>
      Lookup(kbs, tasks[i].knowledgeBaseDirectoryId).Some? &&
      forall k :: 0 <= k < |tasks[i].fileSource| ==> FileInfo(ds, tasks[i].fileSource[k]).Some?
  }

  /** A task list resolves when each target id is listed in the forest and
      each listed file id is found in the table. */
  lemma ListedReferencesResolve(tasks: seq<BuildTask>, ds: seq<FileDirectory>, kbs: seq<KbNode>)
    requires forall i :: 0 <= i < |tasks| ==> tasks[i].knowledgeBaseDirectoryId in IdList(kbs)
    requires forall i, k :: 0 <= i < |tasks| && 0 <= k < |tasks[i].fileSource| ==>
               FileInfo(ds, tasks[i].fileSource[k]).Some?
    ensures TaskReferencesResolve(tasks, ds, kbs)
  {
  }

  /** A node's preset file count, when it has one, is its number of file children. */
  predicate CountMatches(n: KbNode)
  {
    n.fileCount.Some? ==> n.fileCount.value == |Filter(n.children, IsFileNode)|
  }

  /** Every node of the forest has a matching count. */
  predicate PresetCountsMatch(ns: seq<KbNode>)
  {
    forall n :: n in ns ==> CountMatches(n) && PresetCountsMatch(n.children)
  }

  /** A directory holding only files, whose preset count is its number of
      children, keeps the counts. */
  lemma DirectoryOfFilesKeepsCounts(d: KbNode)
    requires d.fileCount == Some(|d.children|)
    requires forall k :: 0 <= k < |d.children| ==>
               d.children[k].kind == File && d.children[k].fileCount.None? && d.children[k].children == []
    ensures CountMatches(d) && PresetCountsMatch(d.children)
  {
    FilterKeepsEverything(d.children, IsFileNode);
  }

  /** A forest keeps the counts when each of its trees does at its root and below. */
  lemma ForestKeepsCounts(ns: seq<KbNode>)
    requires forall i :: 0 <= i < |ns| ==> CountMatches(ns[i]) && PresetCountsMatch(ns[i].children)
    ensures PresetCountsMatch(ns)
  {
  }

  /** Adding a tree that keeps the counts in front of a forest that keeps
      them gives a forest that keeps them. */
  lemma ConsKeepsCounts(n: KbNode, rest: seq<KbNode>)
    requires CountMatches(n) && PresetCountsMatch(n.children) && PresetCountsMatch(rest)
    ensures PresetCountsMatch([n] + rest)
  {
  }

  /** Three trees that keep the counts form a forest that keeps them. */
  lemma ThreeTreesKeepCounts(a: KbNode, b: KbNode, c: KbNode)
    requires CountMatches(a) && PresetCountsMatch(a.children)
    requires CountMatches(b) && PresetCountsMatch(b.children)
    requires CountMatches(c) && PresetCountsMatch(c.children)
    ensures PresetCountsMatch([a, b, c])
  {
    ConsKeepsCounts(c, []);
    ConsKeepsCounts(b, [c]);
    ConsKeepsCounts(a, [b, c]);
    assert [a] + [b, c] == [a, b, c];
  }

  /** Each node listed by `Flatten` of a forest whose counts match has a matching count. */
  lemma {:induction false} PresetCountsReachEveryNode(ns: seq<KbNode>)
    requires PresetCountsMatch(ns)
    ensures forall k :: 0 <= k < |Flatten(ns)| ==> CountMatches(Flatten(ns)[k])
  {
    if ns != [] {
      PresetCountsReachEveryNode(ns[0].children);
      PresetCountsReachEveryNode(ns[1..]);
      var a := Flatten(ns[0].children);
      var b := Flatten(ns[1..]);
      assert Flatten(ns) == [ns[0]] + a + b;
      forall k | 0 <= k < |Flatten(ns)|
        ensures CountMatches(Flatten(ns)[k])
      {
        if k == 0 {
        } else if k <= |a| {
          assert Flatten(ns)[k] == a[k - 1];
        } else {
          assert Flatten(ns)[k] == b[k - 1 - |a|];
        }
      }
    }
  }

  /** `parent[i]` names the first-level directory above every second-level
      directory `i` of the connector. */
  predicate ConnectorWitness(c: ConnectorSourceDirectory, parent: seq<int>)
  {
    |parent| == |c.directories| &&
    forall i :: 0 <= i < |c.directories| && c.directories[i].level == 2 ==>
      c.directories[i].parentId.Some? && 0 <= parent[i] < |c.directories| &&
      c.directories[parent[i]].id == c.directories[i].parentId.value &&
      c.directories[parent[i]].level == 1
  }

  /** Every second-level directory of a connector hangs below a first-level
      directory of the same connector. */
  predicate ConnectorLevelsLinked(c: ConnectorSourceDirectory)
  {
    forall i :: 0 <= i < |c.directories| && c.directories[i].level == 2 ==>
      c.directories[i].parentId.Some? &&
      exists j :: 0 <= j < |c.directories| && c.directories[j].id == c.directories[i].parentId.value &&
                  c.directories[j].level == 1
  }

  lemma WitnessedConnectorIsLinked(c: ConnectorSourceDirectory, parent: seq<int>)
    requires ConnectorWitness(c, parent)
    ensures ConnectorLevelsLinked(c)
  {
    forall i | 0 <= i < |c.directories| && c.directories[i].level == 2
      ensures c.directories[i].parentId.Some? &&
              exists j :: 0 <= j < |c.directories| && c.directories[j].id == c.directories[i].parentId.value &&
                          c.directories[j].level == 1
    {
      var j := parent[i];
      assert c.directories[j].id == c.directories[i].parentId.value && c.directories[j].level == 1;
    }
  }

}
