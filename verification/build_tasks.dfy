/**
 * The knowledge-build task screen (src/components/CenterPanel/KnowledgeBuildTasks.tsx):
 * the name lookup of a task's target node in the knowledge-base forest, the
 * grouping of a task's source files by directory (`buildFileTree`), and the
 * task list with its pause/resume toggle and delete.
 */
module BuildTasks {
  import opened Common
  import opened Records
  import opened KbForest
  import opened DirectoryTable

  // ---------------------------------------------------------------------------
  // getKnowledgeBaseDirectoryName
  // ---------------------------------------------------------------------------

  /** The inner `findNode` of `getKnowledgeBaseDirectoryName`: a hit on a node
      of the list, or on one of its direct children, returns that node's
      name; a hit further down is returned only when the name is non-empty
      (the search tests the recursive result for truthiness). */
  function NameSearch(nodes: seq<KbNode>, id: string): Option<string>
    decreases 2 * |IdList(nodes)|
  {
    if nodes == [] then None
    else if nodes[0].id == id then Some(nodes[0].name)
    else
      match ChildSearch(nodes[0].children, id)
      case Some(s) => Some(s)
      case None => NameSearch(nodes[1..], id)
  }

  /** The loop over one node's children inside `findNode`. */
  function ChildSearch(cs: seq<KbNode>, id: string): Option<string>
    decreases 2 * |IdList(cs)| + 1
  {
    if cs == [] then None
    else if cs[0].id == id then Some(cs[0].name)
    else
      IdListCons(cs);
      var found := NameSearch([cs[0]], id);
      if found.Some? && found.value != "" then found else ChildSearch(cs[1..], id)
  }

  /** `getKnowledgeBaseDirectoryName`: an empty or missing name reads `未知目录`. */
  function KbDirectoryName(kbs: seq<KbNode>, id: string): string
  {
    match NameSearch(kbs, id)
    case Some(s) => if s != "" then s else "未知目录"
    case None => "未知目录"
  }

  /** Every node of the forest has a non-empty name. */
  predicate AllNamed(ns: seq<KbNode>)
  {
    ns == [] || (ns[0].name != "" && AllNamed(ns[0].children) && AllNamed(ns[1..]))
  }

  lemma {:induction false} NameSearchIsNameOf(nodes: seq<KbNode>, id: string)
    requires AllNamed(nodes)
    ensures NameSearch(nodes, id) == NameOf(nodes, id)
    decreases 2 * |IdList(nodes)|
  {
    if nodes != [] && nodes[0].id != id {
      ChildSearchIsNameOf(nodes[0].children, id);
      NameSearchIsNameOf(nodes[1..], id);
    }
  }

  lemma {:induction false} ChildSearchIsNameOf(cs: seq<KbNode>, id: string)
    requires AllNamed(cs)
    ensures ChildSearch(cs, id) == NameOf(cs, id)
    decreases 2 * |IdList(cs)| + 1
  {
    if cs != [] && cs[0].id != id {
      IdListCons(cs);
      var c := cs[0];
      assert [c][0] == c && [c][1..] == [];
      assert AllNamed([c]);
      NameSearchIsNameOf([c], id);
      ChildSearchIsNameOf(cs[1..], id);
      assert Lookup([c], id) == Lookup(c.children, id);
      if Lookup(c.children, id).Some? {
        var n := Lookup(c.children, id).value;
        LookupIsNamed(c.children, id);
        assert n.name != "";
      }
    }
  }

  lemma {:induction false} LookupIsNamed(ns: seq<KbNode>, id: string)
    requires AllNamed(ns)
    ensures Lookup(ns, id).Some? ==> Lookup(ns, id).value.name != ""
  {
    if ns != [] && ns[0].id != id {
      LookupIsNamed(ns[0].children, id);
      LookupIsNamed(ns[1..], id);
    }
  }

  /** In a forest whose nodes are all named, the column shows the name of the
      node `findNode` would return, and `未知目录` exactly when no node has
      the id. */
  lemma KbDirectoryNameIsLookupName(kbs: seq<KbNode>, id: string)
    requires AllNamed(kbs)
    ensures id in IdList(kbs) ==> KbDirectoryName(kbs, id) == Lookup(kbs, id).value.name
    ensures id !in IdList(kbs) ==> KbDirectoryName(kbs, id) == "未知目录"
  {
    NameSearchIsNameOf(kbs, id);
    LookupIsNamed(kbs, id);
  }

  // ---------------------------------------------------------------------------
  // buildFileTree
  // ---------------------------------------------------------------------------

  /** The ids of a list of files. */
  function FileIds(fs: seq<FileItem>): (r: seq<string>)
    ensures |r| == |fs| && forall k :: 0 <= k < |fs| ==> r[k] == fs[k].id
  {
    if fs == [] then [] else [fs[0].id] + FileIds(fs[1..])
  }

  /** The entries of `fileMap` after the first `forEach`: each id that
      resolves, once, in order of first insertion (setting a key again keeps
      its place, and `getFileInfo` gives the same file again). */
  function FileEntries(ds: seq<FileDirectory>, ids: seq<string>): seq<FileItem>
  {
    if ids == [] then []
    else
      var prev := FileEntries(ds, ids[..|ids| - 1]);
      var id := ids[|ids| - 1];
      match FileInfo(ds, id)
      case None => prev
      case Some(f) => if id in FileIds(prev) then prev else prev + [f]
  }

  /** The ids among `ids` that `getFileInfo` resolves. */
  ghost function ResolvableIds(ds: seq<FileDirectory>, ids: seq<string>): set<string>
  {
    set id | id in ids && FileInfo(ds, id).Some?
  }

  lemma {:induction false} FileIdsAppend(a: seq<FileItem>, b: seq<FileItem>)
    ensures FileIds(a + b) == FileIds(a) + FileIds(b)
  {
    if a == [] {
      assert a + b == b;
    } else {
      assert (a + b)[1..] == a[1..] + b;
      FileIdsAppend(a[1..], b);
    }
  }

  /** Each file of `fs` is the one `getFileInfo` gives for one of `ids`, and
      no id is held twice. */
  predicate ResolvedOnce(ds: seq<FileDirectory>, fs: seq<FileItem>, ids: seq<string>)
  {
    Distinct(FileIds(fs)) &&
    forall k :: 0 <= k < |fs| ==> fs[k].id in ids && FileInfo(ds, fs[k].id) == Some(fs[k])
  }

  /** Each entry of `fileMap` is the file `getFileInfo` gives for one of the
      listed ids, and no id is held twice. */
  lemma {:induction false} FileEntriesSound(ds: seq<FileDirectory>, ids: seq<string>)
    ensures ResolvedOnce(ds, FileEntries(ds, ids), ids)
  {
    if ids != [] {
      var init, id := ids[..|ids| - 1], ids[|ids| - 1];
      assert ids == init + [id];
      FileEntriesSound(ds, init);
      FileEntriesSnoc(ds, init, id);
      var prev := FileEntries(ds, init);
      ResolvedOnceLongerList(ds, prev, init, id);
      if FileInfo(ds, id).Some? && id !in FileIds(prev) {
        ResolvedOnceAppend(ds, prev, ids, FileInfo(ds, id).value);
      }
    }
  }

  lemma ResolvedOnceLongerList(ds: seq<FileDirectory>, fs: seq<FileItem>, init: seq<string>, id: string)
    requires ResolvedOnce(ds, fs, init)
    ensures ResolvedOnce(ds, fs, init + [id])
  {
  }

  lemma ResolvedOnceAppend(ds: seq<FileDirectory>, fs: seq<FileItem>, ids: seq<string>, f: FileItem)
    requires ResolvedOnce(ds, fs, ids)
    requires f.id in ids && FileInfo(ds, f.id) == Some(f) && f.id !in FileIds(fs)
    ensures ResolvedOnce(ds, fs + [f], ids)
  {
    FileIdsAppend(fs, [f]);
  }

  /** Every listed id that `getFileInfo` resolves is in `fileMap`. */
  lemma {:induction false} FileEntriesComplete(ds: seq<FileDirectory>, ids: seq<string>)
    ensures forall id :: id in ids && FileInfo(ds, id).Some? ==> id in FileIds(FileEntries(ds, ids))
  {
    if ids != [] {
      var init, last := ids[..|ids| - 1], ids[|ids| - 1];
      assert ids == init + [last];
      FileEntriesComplete(ds, init);
      var prev := FileEntries(ds, init);
      if FileInfo(ds, last).Some? && last !in FileIds(prev) {
        var f := FileInfo(ds, last).value;
        FileIdsAppend(prev, [f]);
      }
    }
  }

  /** The ids of `fs` all occur in `ids`, and their first occurrences there
      come in the order of `fs`. */
  predicate InFirstOccurrenceOrder(fs: seq<FileItem>, ids: seq<string>)
  {
    (forall k :: 0 <= k < |fs| ==> fs[k].id in ids) &&
    forall j, k :: 0 <= j < k < |fs| ==> IndexOf(ids, fs[j].id) < IndexOf(ids, fs[k].id)
  }

  /** `fileMap` keeps the order in which the ids first occur in the list. */
  lemma {:induction false} FileEntriesInOrder(ds: seq<FileDirectory>, ids: seq<string>)
    ensures InFirstOccurrenceOrder(FileEntries(ds, ids), ids)
  {
    if ids != [] {
      var init, id := ids[..|ids| - 1], ids[|ids| - 1];
      assert ids == init + [id];
      FileEntriesInOrder(ds, init);
      FileEntriesInOrderStep(ds, init, id);
    }
  }

  lemma FileEntriesInOrderStep(ds: seq<FileDirectory>, init: seq<string>, id: string)
    requires InFirstOccurrenceOrder(FileEntries(ds, init), init)
    ensures InFirstOccurrenceOrder(FileEntries(ds, init + [id]), init + [id])
  {
    FileEntriesSound(ds, init);
    FileEntriesSnoc(ds, init, id);
    var ids := init + [id];
    var prev := FileEntries(ds, init);
    OrderSurvivesLongerList(prev, init, id);
    if FileInfo(ds, id).Some? && id !in FileIds(prev) {
      var f := FileInfo(ds, id).value;
      assert id !in init by {
        if id in init {
          FileEntriesComplete(ds, init);
        }
      }
      IndexOfAfterPrefix(init, [id], id);
      forall k | 0 <= k < |prev|
        ensures prev[k].id in ids && IndexOf(ids, prev[k].id) < IndexOf(ids, f.id)
      {
        IndexOfInPrefix(init, [id], prev[k].id);
      }
      OrderAppendLast(prev, ids, f);
    }
  }

  /** Adding an id at the end of the list keeps the order of what was there. */
  lemma OrderSurvivesLongerList(fs: seq<FileItem>, init: seq<string>, id: string)
    requires InFirstOccurrenceOrder(fs, init)
    ensures InFirstOccurrenceOrder(fs, init + [id])
  {
    forall k | 0 <= k < |fs|
      ensures fs[k].id in init + [id] && IndexOf(init + [id], fs[k].id) == IndexOf(init, fs[k].id)
    {
      IndexOfInPrefix(init, [id], fs[k].id);
    }
  }

  /** A file whose id first occurs after every id of `fs` can follow them. */
  lemma OrderAppendLast(fs: seq<FileItem>, ids: seq<string>, f: FileItem)
    requires InFirstOccurrenceOrder(fs, ids) && f.id in ids
    requires forall k :: 0 <= k < |fs| ==> fs[k].id in ids && IndexOf(ids, fs[k].id) < IndexOf(ids, f.id)
    ensures InFirstOccurrenceOrder(fs + [f], ids)
  {
    var r := fs + [f];
    forall j, k | 0 <= j < k < |r|
      ensures IndexOf(ids, r[j].id) < IndexOf(ids, r[k].id)
    {
      assert r[j] == fs[j];
      if k < |fs| {
        assert r[k] == fs[k];
      }
    }
  }

  /** The number of leaves of the file tree: the distinct resolvable ids. */
  lemma FileEntriesCount(ds: seq<FileDirectory>, ids: seq<string>)
    ensures |FileEntries(ds, ids)| == |ResolvableIds(ds, ids)|
  {
    var r := FileEntries(ds, ids);
    FileEntriesSound(ds, ids);
    EntryIdsAreResolvable(ds, ids);
    DistinctCardinality(FileIds(r));
  }

  lemma EntryIdsAreResolvable(ds: seq<FileDirectory>, ids: seq<string>)
    ensures (set x | x in FileIds(FileEntries(ds, ids))) == ResolvableIds(ds, ids)
  {
    FileEntriesSound(ds, ids);
    FileEntriesComplete(ds, ids);
  }

  /** One entry of `dirMap`: a directory id and the files pushed under it. */
  datatype FileGroup = FileGroup(dirId: string, files: seq<FileItem>)

  function GroupIds(gs: seq<FileGroup>): (r: seq<string>)
    ensures |r| == |gs| && forall k :: 0 <= k < |gs| ==> r[k] == gs[k].dirId
  {
    if gs == [] then [] else [gs[0].dirId] + GroupIds(gs[1..])
  }

  /** One step of the second `forEach`: create the group on first sight of the
      directory, then push the file onto it. A `Map` holds each key once. */
  function AddToGroups(gs: seq<FileGroup>, f: FileItem): (r: seq<FileGroup>)
    ensures |r| == |gs| || |r| == |gs| + 1
    ensures forall k :: 0 <= k < |gs| ==> r[k].dirId == gs[k].dirId
    ensures |r| == |gs| + 1 ==> r[|gs|] == FileGroup(f.directoryId, [f])
  {
    if gs == [] then [FileGroup(f.directoryId, [f])]
    else if gs[0].dirId == f.directoryId then [gs[0].(files := gs[0].files + [f])] + gs[1..]
    else [gs[0]] + AddToGroups(gs[1..], f)
  }

  /** A group is added exactly when the directory has none yet. */
  lemma {:induction false} AddToGroupsIds(gs: seq<FileGroup>, f: FileItem)
    ensures GroupIds(AddToGroups(gs, f)) ==
            if f.directoryId in GroupIds(gs) then GroupIds(gs) else GroupIds(gs) + [f.directoryId]
  {
    if gs != [] {
      assert GroupIds(gs[1..]) == GroupIds(gs)[1..];
      if gs[0].dirId != f.directoryId {
        AddToGroupsIds(gs[1..], f);
        assert GroupIds(AddToGroups(gs, f)) == [gs[0].dirId] + GroupIds(AddToGroups(gs[1..], f));
      }
    }
  }

  /** The keys stay distinct, as in a `Map`. */
  lemma AddToGroupsKeepsKeysDistinct(gs: seq<FileGroup>, f: FileItem)
    requires Distinct(GroupIds(gs))
    ensures Distinct(GroupIds(AddToGroups(gs, f)))
  {
    AddToGroupsIds(gs, f);
  }

  /** The file is pushed onto its directory's group and no other. */
  lemma {:induction false} AddToGroupsPushesOnce(gs: seq<FileGroup>, f: FileItem)
    requires Distinct(GroupIds(gs))
    ensures forall k :: 0 <= k < |gs| ==>
              AddToGroups(gs, f)[k] ==
              (if gs[k].dirId == f.directoryId then gs[k].(files := gs[k].files + [f]) else gs[k])
  {
    if gs != [] {
      assert GroupIds(gs[1..]) == GroupIds(gs)[1..];
      var r := AddToGroups(gs, f);
      if gs[0].dirId == f.directoryId {
        forall k | 1 <= k < |gs|
          ensures gs[k].dirId != f.directoryId
        {
          assert GroupIds(gs)[k] != GroupIds(gs)[0];
        }
      } else {
        AddToGroupsPushesOnce(gs[1..], f);
        forall k | 1 <= k < |gs|
          ensures r[k] == AddToGroups(gs[1..], f)[k - 1]
        {
        }
      }
    }
  }

  /** `dirMap` after the second `forEach` over the files. */
  function GroupFiles(fs: seq<FileItem>): (r: seq<FileGroup>)
    ensures Distinct(GroupIds(r))
  {
    if fs == [] then []
    else
      var gs := GroupFiles(fs[..|fs| - 1]);
      AddToGroupsKeepsKeysDistinct(gs, fs[|fs| - 1]);
      AddToGroups(gs, fs[|fs| - 1])
  }

  /** The files of a list that lie in one directory, in order. */
  function FilesIn(fs: seq<FileItem>, dirId: string): seq<FileItem>
  {
    Filter(fs, (f: FileItem) => f.directoryId == dirId)
  }

  /** The directory ids of a list of files, each once, in order of first occurrence. */
  function FirstOccurrences(s: seq<string>): seq<string>
  {
    if s == [] then []
    else
      var prev := FirstOccurrences(s[..|s| - 1]);
      if s[|s| - 1] in prev then prev else prev + [s[|s| - 1]]
  }

  function DirectoryIds(fs: seq<FileItem>): (r: seq<string>)
    ensures |r| == |fs| && forall k :: 0 <= k < |fs| ==> r[k] == fs[k].directoryId
  {
    if fs == [] then [] else [fs[0].directoryId] + DirectoryIds(fs[1..])
  }

  lemma {:induction false} FirstOccurrencesMembers(s: seq<string>)
    ensures forall x :: x in FirstOccurrences(s) <==> x in s
  {
    if s != [] {
      FirstOccurrencesMembers(s[..|s| - 1]);
      assert s == s[..|s| - 1] + [s[|s| - 1]];
    }
  }

  /** `dirMap` has one group per directory of the files, in order of first
      occurrence. */
  lemma {:induction false} GroupIdsAreFirstOccurrences(fs: seq<FileItem>)
    ensures GroupIds(GroupFiles(fs)) == FirstOccurrences(DirectoryIds(fs))
  {
    if fs != [] {
      var init := fs[..|fs| - 1];
      GroupIdsAreFirstOccurrences(init);
      AddToGroupsIds(GroupFiles(init), fs[|fs| - 1]);
      assert DirectoryIds(fs)[..|fs| - 1] == DirectoryIds(init);
    }
  }

  lemma FilesInAbsent(fs: seq<FileItem>, dirId: string)
    requires dirId !in DirectoryIds(fs)
    ensures FilesIn(fs, dirId) == []
  {
  }

  /** The group a file opens holds, before it, no file of the list. */
  lemma NewGroupHasNoEarlierFiles(fs: seq<FileItem>, f: FileItem)
    requires f.directoryId !in GroupIds(GroupFiles(fs))
    ensures FilesIn(fs, f.directoryId) == []
  {
    GroupIdsAreFirstOccurrences(fs);
    FirstOccurrencesMembers(DirectoryIds(fs));
    FilesInAbsent(fs, f.directoryId);
  }

  lemma FilesInSnoc(fs: seq<FileItem>, f: FileItem, dirId: string)
    ensures FilesIn(fs + [f], dirId) == FilesIn(fs, dirId) + if f.directoryId == dirId then [f] else []
  {
    FilterAppend(fs, [f], (x: FileItem) => x.directoryId == dirId);
    assert [f][1..] == [];
  }

  /** One file added to `dirMap` keeps every group equal to its directory's files. */
  lemma GroupsHoldTheirFilesStep(init: seq<FileItem>, f: FileItem, k: nat)
    requires forall j :: 0 <= j < |GroupFiles(init)| ==>
               GroupFiles(init)[j].files == FilesIn(init, GroupFiles(init)[j].dirId)
    requires k < |AddToGroups(GroupFiles(init), f)|
    ensures AddToGroups(GroupFiles(init), f)[k].files ==
            FilesIn(init + [f], AddToGroups(GroupFiles(init), f)[k].dirId)
  {
    var gs := GroupFiles(init);
    var r := AddToGroups(gs, f);
    FilesInSnoc(init, f, r[k].dirId);
    if k < |gs| {
      AddToGroupsPushesOnce(gs, f);
    } else {
      AddToGroupsIds(gs, f);
      assert f.directoryId !in GroupIds(gs);
      NewGroupHasNoEarlierFiles(init, f);
    }
  }

  /** Each group of `dirMap` holds exactly its directory's files, in their
      original order. */
  lemma {:induction false} GroupsHoldTheirFiles(fs: seq<FileItem>)
    ensures forall k :: 0 <= k < |GroupFiles(fs)| ==>
              GroupFiles(fs)[k].files == FilesIn(fs, GroupFiles(fs)[k].dirId)
  {
    if fs != [] {
      var init, f := fs[..|fs| - 1], fs[|fs| - 1];
      assert fs == init + [f];
      GroupsHoldTheirFiles(init);
      GroupFilesSnoc(init, f);
      forall k | 0 <= k < |GroupFiles(fs)|
        ensures GroupFiles(fs)[k].files == FilesIn(fs, GroupFiles(fs)[k].dirId)
      {
        GroupsHoldTheirFilesStep(init, f, k);
      }
    }
  }

  /** All files of a list of groups, group by group. */
  function Leaves(gs: seq<FileGroup>): seq<FileItem>
  {
    if gs == [] then [] else gs[0].files + Leaves(gs[1..])
  }

  lemma {:induction false} AddToGroupsAddsOneLeaf(gs: seq<FileGroup>, f: FileItem)
    ensures multiset(Leaves(AddToGroups(gs, f))) == multiset(Leaves(gs)) + multiset{f}
  {
    if gs != [] {
      var r := AddToGroups(gs, f);
      assert r[1..] == if gs[0].dirId == f.directoryId then gs[1..] else AddToGroups(gs[1..], f);
      if gs[0].dirId != f.directoryId {
        AddToGroupsAddsOneLeaf(gs[1..], f);
      }
    }
  }

  /** Grouping loses and duplicates nothing: the leaves are the files. */
  lemma {:induction false} GroupFilesKeepsEveryFile(fs: seq<FileItem>)
    ensures multiset(Leaves(GroupFiles(fs))) == multiset(fs)
  {
    if fs != [] {
      var init, f := fs[..|fs| - 1], fs[|fs| - 1];
      assert fs == init + [f];
      GroupFilesKeepsEveryFile(init);
      AddToGroupsAddsOneLeaf(GroupFiles(init), f);
    }
  }

  /** A leaf of the file tree. */
  datatype FileLeaf = FileLeaf(title: string, key: string)

  /** A directory node of the file tree: its path as title, its id as key. */
  datatype FileTreeGroup = FileTreeGroup(title: string, key: string, children: seq<FileLeaf>)

  function LeavesOf(fs: seq<FileItem>): (r: seq<FileLeaf>)
    ensures |r| == |fs| && forall k :: 0 <= k < |fs| ==> r[k] == FileLeaf(fs[k].name, fs[k].id)
  {
    if fs == [] then [] else [FileLeaf(fs[0].name, fs[0].id)] + LeavesOf(fs[1..])
  }

  /** The final `Array.from(dirMap.entries()).map(...)`. */
  function RenderGroups(ds: seq<FileDirectory>, gs: seq<FileGroup>): (r: seq<FileTreeGroup>)
    requires WellFormedTable(ds)
    ensures |r| == |gs| && forall k :: 0 <= k < |gs| ==>
              r[k] == FileTreeGroup(TaskDirectoryPath(ds, gs[k].dirId), gs[k].dirId, LeavesOf(gs[k].files))
  {
    if gs == [] then []
    else [FileTreeGroup(TaskDirectoryPath(ds, gs[0].dirId), gs[0].dirId, LeavesOf(gs[0].files))]
         + RenderGroups(ds, gs[1..])
  }

  lemma FileEntriesSnoc(ds: seq<FileDirectory>, ids: seq<string>, id: string)
    ensures FileEntries(ds, ids + [id]) ==
            if FileInfo(ds, id).Some? && id !in FileIds(FileEntries(ds, ids))
            then FileEntries(ds, ids) + [FileInfo(ds, id).value] else FileEntries(ds, ids)
  {
    assert (ids + [id])[..|ids|] == ids;
  }

  lemma FileEntriesPrefix(ds: seq<FileDirectory>, ids: seq<string>, i: nat)
    requires i < |ids|
    ensures FileEntries(ds, ids[..i + 1]) ==
            if FileInfo(ds, ids[i]).Some? && ids[i] !in FileIds(FileEntries(ds, ids[..i]))
            then FileEntries(ds, ids[..i]) + [FileInfo(ds, ids[i]).value] else FileEntries(ds, ids[..i])
  {
    assert ids[..i + 1] == ids[..i] + [ids[i]];
    FileEntriesSnoc(ds, ids[..i], ids[i]);
  }

  lemma GroupFilesSnoc(fs: seq<FileItem>, f: FileItem)
    ensures GroupFiles(fs + [f]) == AddToGroups(GroupFiles(fs), f)
  {
    assert (fs + [f])[..|fs|] == fs;
  }

  lemma GroupFilesPrefix(fs: seq<FileItem>, j: nat)
    requires j < |fs|
    ensures GroupFiles(fs[..j + 1]) == AddToGroups(GroupFiles(fs[..j]), fs[j])
  {
    assert fs[..j + 1] == fs[..j] + [fs[j]];
    GroupFilesSnoc(fs[..j], fs[j]);
  }

  /** `buildFileTree` as the source writes it: one pass filling `fileMap`,
      one pass filling `dirMap`, then the rendering. */
  method BuildFileTree(ds: seq<FileDirectory>, fileIds: seq<string>) returns (tree: seq<FileTreeGroup>)
    requires WellFormedTable(ds)
    ensures tree == RenderGroups(ds, GroupFiles(FileEntries(ds, fileIds)))
  {
    var fileMap := CollectFiles(ds, fileIds);
    var dirMap := GroupByDirectory(fileMap);
    tree := RenderGroups(ds, dirMap);
  }

  /** The first `forEach`: each id that resolves to a file and is not yet in
      `fileMap` is added to it. */
  method CollectFiles(ds: seq<FileDirectory>, fileIds: seq<string>) returns (fileMap: seq<FileItem>)
    ensures fileMap == FileEntries(ds, fileIds)
  {
    fileMap := [];
    var i := 0;
    while i < |fileIds|
      invariant 0 <= i <= |fileIds|
      invariant fileMap == FileEntries(ds, fileIds[..i])
    {
      var id := fileIds[i];
      FileEntriesPrefix(ds, fileIds, i);
      var file := FindFileInfo(ds, id);
      if file.Some? && id !in FileIds(fileMap) {
        fileMap := fileMap + [file.value];
      }
      i := i + 1;
    }
    assert fileIds[..|fileIds|] == fileIds;
  }

  /** The second `forEach`: each file is pushed onto its directory's group. */
  method GroupByDirectory(fileMap: seq<FileItem>) returns (dirMap: seq<FileGroup>)
    ensures dirMap == GroupFiles(fileMap)
  {
    dirMap := [];
    var j := 0;
    while j < |fileMap|
      invariant 0 <= j <= |fileMap|
      invariant dirMap == GroupFiles(fileMap[..j])
    {
      GroupFilesPrefix(fileMap, j);
      dirMap := AddToGroups(dirMap, fileMap[j]);
      j := j + 1;
    }
    assert fileMap[..|fileMap|] == fileMap;
  }

  /** What the file-source dialog shows for a task's file list: one node per
      directory of the resolvable files, in order of first occurrence, keyed
      by the directory id; under it exactly that directory's files, each
      once; and as many leaves in all as there are distinct resolvable ids. */
  lemma FileTreeMeaning(ds: seq<FileDirectory>, fileIds: seq<string>)
    requires WellFormedTable(ds)
    ensures var fs := FileEntries(ds, fileIds);
            var tree := RenderGroups(ds, GroupFiles(fs));
            |tree| == |FirstOccurrences(DirectoryIds(fs))| &&
            (forall k :: 0 <= k < |tree| ==> tree[k].key == FirstOccurrences(DirectoryIds(fs))[k])
    ensures var fs := FileEntries(ds, fileIds);
            forall k :: 0 <= k < |GroupFiles(fs)| ==>
              GroupFiles(fs)[k].files == FilesIn(fs, GroupFiles(fs)[k].dirId)
    ensures |Leaves(GroupFiles(FileEntries(ds, fileIds)))| == |ResolvableIds(ds, fileIds)|
  {
    var fs := FileEntries(ds, fileIds);
    GroupIdsAreFirstOccurrences(fs);
    GroupsHoldTheirFiles(fs);
    LeafCount(ds, fileIds);
  }

  lemma LeafCount(ds: seq<FileDirectory>, fileIds: seq<string>)
    requires WellFormedTable(ds)
    ensures |Leaves(GroupFiles(FileEntries(ds, fileIds)))| == |ResolvableIds(ds, fileIds)|
  {
    var fs := FileEntries(ds, fileIds);
    GroupFilesKeepsEveryFile(fs);
    FileEntriesCount(ds, fileIds);
    assert |multiset(Leaves(GroupFiles(fs)))| == |multiset(fs)|;
  }

  // ---------------------------------------------------------------------------
  // The task list
  // ---------------------------------------------------------------------------

  /** The status `handlePauseResume` gives a task: running pauses, anything
      else (paused, and also success or failed) runs. */
  function Toggled(s: TaskStatus): (r: TaskStatus)
    ensures r == TaskPaused <==> s == TaskRunning
    ensures r != TaskPaused ==> r == TaskRunning
  {
    if s == TaskRunning then TaskPaused else TaskRunning
  }

  /** The task list after `handlePauseResume` on a task with id `id`. */
  function PauseResume(ts: seq<BuildTask>, id: string): (r: seq<BuildTask>)
    ensures |r| == |ts|
    ensures forall k :: 0 <= k < |ts| ==>
              r[k] == if ts[k].id == id then ts[k].(status := Toggled(ts[k].status)) else ts[k]
  {
    if ts == [] then []
    else [if ts[0].id == id then ts[0].(status := Toggled(ts[0].status)) else ts[0]]
         + PauseResume(ts[1..], id)
  }

  /** Toggling twice restores every running or paused task. */
  lemma PauseResumeTwiceRestores(ts: seq<BuildTask>, id: string)
    requires forall k :: 0 <= k < |ts| && ts[k].id == id ==> ts[k].status in {TaskRunning, TaskPaused}
    ensures PauseResume(PauseResume(ts, id), id) == ts
  {
    var r := PauseResume(PauseResume(ts, id), id);
    assert forall k :: 0 <= k < |ts| ==> r[k] == ts[k];
  }

  /** Toggling a finished task does not restore it: it starts running. */
  lemma PauseResumeRevivesFinishedTask(t: BuildTask)
    requires t.status == TaskSucceeded || t.status == TaskFailed
    ensures PauseResume([t], t.id) == [t.(status := TaskRunning)]
    ensures PauseResume(PauseResume([t], t.id), t.id) != [t]
  {
    var once := PauseResume([t], t.id);
    assert once[0].status == TaskRunning;
    var twice := PauseResume(once, t.id);
    assert twice[0].status == TaskPaused;
  }

  class TaskBoard {
    var tasks: seq<BuildTask>
    var selectedTask: Option<BuildTask>

    constructor(ts: seq<BuildTask>)
      ensures tasks == ts && selectedTask == None
    {
      tasks := ts;
      selectedTask := None;
    }

    /** The pause/start button of a row (shown only for running or paused
        tasks); the toast follows the status of the row that was clicked. */
    method PauseOrResume(task: BuildTask) returns (f: Feedback)
      requires task.status == TaskRunning || task.status == TaskPaused
      modifies this
      ensures tasks == PauseResume(old(tasks), task.id)
      ensures f == Success(if task.status == TaskRunning then "任务已暂停" else "任务已启动")
      ensures selectedTask == old(selectedTask)
    {
      var ts := tasks;
      var updated: seq<BuildTask> := [];
      var i := 0;
      while i < |ts|
        invariant 0 <= i <= |ts|
        invariant tasks == ts && selectedTask == old(selectedTask)
        invariant updated == PauseResume(ts[..i], task.id)
      {
        var t := ts[i];
        PauseResumePrefix(ts, i, task.id);
        updated := updated + [if t.id == task.id then t.(status := Toggled(t.status)) else t];
        i := i + 1;
      }
      assert ts[..|ts|] == ts;
      tasks := updated;
      f := Success(if task.status == TaskRunning then "任务已暂停" else "任务已启动");
    }

    /** The delete button of a row, or the file-source link: remembers the row. */
    method SelectTask(task: BuildTask)
      modifies this
      ensures selectedTask == Some(task) && tasks == old(tasks)
    {
      selectedTask := Some(task);
    }

    /** Closing the file-source or the delete dialog forgets the row. */
    method CloseDialog()
      modifies this
      ensures selectedTask == None && tasks == old(tasks)
    {
      selectedTask := None;
    }

    /** `handleDelete`: with no selection nothing happens; otherwise every task
        with the selected id is removed, the rest keep their order, and the
        selection is cleared. */
    method Delete() returns (f: Feedback)
      modifies this
      ensures old(selectedTask).None? ==> f == Silent && tasks == old(tasks) && selectedTask == None
      ensures old(selectedTask).Some? ==>
                var id := old(selectedTask).value.id;
                f == Success("任务已删除") && selectedTask == None &&
                tasks == Filter(old(tasks), (t: BuildTask) => t.id != id)
    {
      if selectedTask.None? {
        return Silent;
      }
      var id := selectedTask.value.id;
      tasks := Filter(tasks, (t: BuildTask) => t.id != id);
      selectedTask := None;
      return Success("任务已删除");
    }
  }

  lemma {:induction false} PauseResumeAppend(a: seq<BuildTask>, b: seq<BuildTask>, id: string)
    ensures PauseResume(a + b, id) == PauseResume(a, id) + PauseResume(b, id)
  {
    if a != [] {
      assert (a + b)[1..] == a[1..] + b;
      PauseResumeAppend(a[1..], b, id);
    } else {
      assert a + b == b;
    }
  }

  lemma PauseResumePrefix(ts: seq<BuildTask>, i: nat, id: string)
    requires i < |ts|
    ensures PauseResume(ts[..i + 1], id) ==
            PauseResume(ts[..i], id) + [if ts[i].id == id then ts[i].(status := Toggled(ts[i].status)) else ts[i]]
  {
    assert ts[..i + 1] == ts[..i] + [ts[i]];
    PauseResumeAppend(ts[..i], [ts[i]], id);
  }

  /** Deleting by id removes exactly the tasks with that id, keeping the
      others in their original order. */
  lemma DeleteRemovesOnlyThatTask(ts: seq<BuildTask>, id: string)
    ensures var r := Filter(ts, (t: BuildTask) => t.id != id);
            (forall t :: t in r <==> t in ts && t.id != id) && IsSubsequence(r, ts)
    ensures |Filter(ts, (t: BuildTask) => t.id != id)| + |Filter(ts, (t: BuildTask) => t.id == id)| == |ts|
  {
    FilterPartition(ts, (t: BuildTask) => t.id != id, (t: BuildTask) => t.id == id);
  }
}
