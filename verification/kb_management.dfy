/**
 * The knowledge-base management screen
 * (src/components/CenterPanel/KnowledgeBaseManagement.tsx): the node chosen in
 * the right-hand tree, the knowledge base that holds it, the agents that use
 * that knowledge base, the files listed for the node, and the "build
 * knowledge" dialog with its submission checks. The directory table, the
 * directory paths and the directory tree of the dialog are those of
 * `DirectoryTable`; the screen's own `findNode` is `KbForest.Lookup`.
 */
module KnowledgeBaseManagement {
  import opened Common
  import opened Records
  import opened KbForest
  import opened DirectoryTable

  /** The node the screen shows: an absent or empty id selects nothing. */
  function SelectedNode(kbs: seq<KbNode>, selectedNodeId: Option<string>): (r: Option<KbNode>)
    ensures r.Some? ==> selectedNodeId.Some? && r.value.id == selectedNodeId.value
    ensures r.None? <==> selectedNodeId.None? || selectedNodeId.value == "" ||
                         selectedNodeId.value !in IdList(kbs)
  {
    match selectedNodeId
    case None => None
    case Some(id) => if id == "" then None else Lookup(kbs, id)
  }

  /** `getKnowledgeBaseRoot`: the first top-level knowledge base that is, or
      holds, the node. */
  function KnowledgeBaseRoot(kbs: seq<KbNode>, id: string): Option<KbNode>
  {
    if kbs == [] then None
    else if kbs[0].id == id || Lookup([kbs[0]], id).Some? then Some(kbs[0])
    else KnowledgeBaseRoot(kbs[1..], id)
  }

  /** The root is the first top-level tree whose ids include the node's, and
      there is none exactly when no node of the forest has the id. */
  lemma {:induction false} KnowledgeBaseRootIsFirstHolder(kbs: seq<KbNode>, id: string)
    ensures KnowledgeBaseRoot(kbs, id).None? <==> id !in IdList(kbs)
    ensures KnowledgeBaseRoot(kbs, id).Some? ==>
              exists i :: 0 <= i < |kbs| && kbs[i] == KnowledgeBaseRoot(kbs, id).value &&
                id in IdList([kbs[i]]) &&
                forall j :: 0 <= j < i ==> id !in IdList([kbs[j]])
  {
    if kbs != [] {
      IdListCons(kbs);
      var one := [kbs[0]];
      assert one[0] == kbs[0] && one[1..] == [];
      assert kbs[0].id in IdList(one);
      KnowledgeBaseRootIsFirstHolder(kbs[1..], id);
      if KnowledgeBaseRoot(kbs, id) != Some(kbs[0]) && KnowledgeBaseRoot(kbs, id).Some? {
        var i :| 0 <= i < |kbs[1..]| && kbs[1..][i] == KnowledgeBaseRoot(kbs, id).value &&
                 id in IdList([kbs[1..][i]]) &&
                 forall j :: 0 <= j < i ==> id !in IdList([kbs[1..][j]]);
        assert kbs[i + 1] == kbs[1..][i];
        forall j | 0 <= j < i + 1
          ensures id !in IdList([kbs[j]])
        {
          if j > 0 {
            assert kbs[j] == kbs[1..][j - 1];
          }
        }
      }
    }
  }

  /** The root shown for the selection: none when nothing is selected. */
  function SelectedRoot(kbs: seq<KbNode>, selectedNodeId: Option<string>): Option<KbNode>
  {
    match selectedNodeId
    case None => None
    case Some(id) => if id == "" then None else KnowledgeBaseRoot(kbs, id)
  }

  /** `affectedAgents`: the agents that use the root knowledge base, in their
      original order; none without a root. */
  function AffectedAgents(agents: seq<Agent>, root: Option<KbNode>): (r: seq<Agent>)
    ensures forall a :: multiset(r)[a] ==
              if root.Some? && root.value.id in a.knowledgeBases then multiset(agents)[a] else 0
    ensures IsSubsequence(r, agents)
  {
    match root
    case None => []
    case Some(kb) =>
      FilterMultiplicity(agents, (a: Agent) => kb.id in a.knowledgeBases);
      Filter(agents, (a: Agent) => kb.id in a.knowledgeBases)
  }

  /** `getFilesInDirectory`: a file lists itself, a directory its own file
      children in order, a knowledge base or no node nothing. */
  function FilesOfNode(node: Option<KbNode>): (r: seq<KbNode>)
    ensures node.None? || node.value.kind == KnowledgeBase ==> r == []
    ensures node.Some? && node.value.kind == File ==> r == [node.value]
    ensures node.Some? && node.value.kind == Directory ==>
              IsSubsequence(r, node.value.children) &&
              forall c :: multiset(r)[c] == if c.kind == File then multiset(node.value.children)[c] else 0
  {
    match node
    case None => []
    case Some(n) =>
      if n.kind == File then [n]
      else if n.kind == Directory then
        FilterMultiplicity(n.children, IsFileNode);
        Filter(n.children, IsFileNode)
      else []
  }

  /** A directory's listed files and its sub-directories together account for
      all of its children. */
  lemma FilesOfDirectoryAndSubdirectories(d: KbNode)
    requires d.kind == Directory
    ensures |FilesOfNode(Some(d))| + |Filter(d.children, IsContainer)| == |d.children|
  {
    FilterPartition(d.children, IsFileNode, IsContainer);
  }

  /** The "selected files" list of the dialog: each chosen id that resolves to
      a file, in the order chosen; unknown ids are skipped. */
  function ChosenFiles(ds: seq<FileDirectory>, ids: seq<string>): (r: seq<FileItem>)
    ensures |r| <= |ids|
    ensures forall k :: 0 <= k < |r| ==> r[k].id in ids && FileInfo(ds, r[k].id) == Some(r[k])
    ensures forall id :: id in ids && FileInfo(ds, id).Some? ==> FileInfo(ds, id).value in r
    ensures (forall id :: id in ids ==> !NoFileWithId(ds, id)) ==> |r| == |ids|
  {
    if ids == [] then []
    else
      match FileInfo(ds, ids[0])
      case Some(f) => [f] + ChosenFiles(ds, ids[1..])
      case None => ChosenFiles(ds, ids[1..])
  }

  /** `files` lists, position by position, the file each of `ids` resolves to. */
  predicate FilesOfIds(ds: seq<FileDirectory>, files: seq<FileItem>, ids: seq<string>)
  {
    |files| == |ids| && forall k :: 0 <= k < |files| ==> Some(files[k]) == FileInfo(ds, ids[k])
  }

  lemma FilesOfIdsCons(ds: seq<FileDirectory>, f: FileItem, files: seq<FileItem>, id: string, ids: seq<string>)
    requires Some(f) == FileInfo(ds, id) && FilesOfIds(ds, files, ids)
    ensures FilesOfIds(ds, [f] + files, [id] + ids)
  {
    var fs, xs := [f] + files, [id] + ids;
    forall k | 0 <= k < |fs|
      ensures Some(fs[k]) == FileInfo(ds, xs[k])
    {
      if k > 0 {
        assert fs[k] == files[k - 1] && xs[k] == ids[k - 1];
      }
    }
  }

  /** The list holds one file per chosen id that resolves, in the order the
      ids were chosen: a repeated id lists its file again. */
  lemma {:induction false} ChosenFilesFollowResolvingIds(ds: seq<FileDirectory>, ids: seq<string>)
    ensures FilesOfIds(ds, ChosenFiles(ds, ids), ResolvingIds(ds, ids))
  {
    if ids != [] {
      ChosenFilesFollowResolvingIds(ds, ids[1..]);
      var x := ids[0];
      var rest, later := ChosenFiles(ds, ids[1..]), ResolvingIds(ds, ids[1..]);
      match FileInfo(ds, x)
      case Some(f) =>
        assert ChosenFiles(ds, ids) == [f] + rest;
        assert ResolvingIds(ds, ids) == [x] + later;
        FilesOfIdsCons(ds, f, rest, x, later);
      case None =>
        assert ChosenFiles(ds, ids) == rest;
        assert ResolvingIds(ds, ids) == later;
    }
  }

  /** The chosen ids that name a file of the table, in the order chosen. */
  function ResolvingIds(ds: seq<FileDirectory>, ids: seq<string>): seq<string>
  {
    Filter(ids, (id: string) => FileInfo(ds, id).Some?)
  }

  /** The outcome of `handleBuild`. */
  function BuildCheck(taskName: string, selected: seq<string>): (r: Feedback)
    ensures IsBlank(taskName) ==> r == Warning("请输入任务名称")
    ensures !IsBlank(taskName) && selected == [] ==> r == Warning("请至少选择一个文件")
    ensures r.Success? <==> !IsBlank(taskName) && selected != []
  {
    if IsBlank(taskName) then Warning("请输入任务名称")
    else if selected == [] then Warning("请至少选择一个文件")
    else Success("知识构建任务已创建")
  }

  /** The "build knowledge" dialog. */
  class BuildDialog {
    var visible: bool
    var taskName: string
    var selectedDirectoryId: string
    var selectedFiles: seq<string>
    var processingType: ProcessingType

    constructor()
      ensures !visible && taskName == "" && selectedDirectoryId == RootId && selectedFiles == []
      ensures processingType == Unstructured
    {
      visible := false;
      taskName := "";
      selectedDirectoryId := RootId;
      selectedFiles := [];
      processingType := Unstructured;
    }

    /** The files offered for the directory chosen in the dialog's tree. */
    function OfferedFiles(ds: seq<FileDirectory>): seq<FileItem>
      reads this
    {
      FilesInDirectory(ds, selectedDirectoryId)
    }

    /** The "build knowledge" button, offered for a node that is not a file. */
    method Open(node: KbNode)
      requires node.kind != File
      modifies this
      ensures visible && taskName == old(taskName) && selectedFiles == old(selectedFiles)
      ensures selectedDirectoryId == old(selectedDirectoryId) && processingType == old(processingType)
    {
      visible := true;
    }

    method EditTaskName(s: string)
      modifies this
      ensures taskName == s
      ensures visible == old(visible) && selectedFiles == old(selectedFiles)
      ensures selectedDirectoryId == old(selectedDirectoryId) && processingType == old(processingType)
    {
      taskName := s;
    }

    /** The dialog tree's `onSelect`: an empty selection keeps the directory. */
    method SelectDirectory(keys: seq<string>)
      modifies this
      ensures selectedDirectoryId == if keys == [] then old(selectedDirectoryId) else keys[0]
      ensures visible == old(visible) && taskName == old(taskName) && selectedFiles == old(selectedFiles)
      ensures processingType == old(processingType)
    {
      if |keys| > 0 {
        selectedDirectoryId := keys[0];
      }
    }

    /** The checkbox group's `onChange`: the ticked ids replace the selection. */
    method ChooseFiles(values: seq<string>)
      modifies this
      ensures selectedFiles == values
      ensures visible == old(visible) && taskName == old(taskName)
      ensures selectedDirectoryId == old(selectedDirectoryId) && processingType == old(processingType)
    {
      selectedFiles := values;
    }

    method ChooseProcessingType(t: ProcessingType)
      modifies this
      ensures processingType == t
      ensures visible == old(visible) && taskName == old(taskName) && selectedFiles == old(selectedFiles)
      ensures selectedDirectoryId == old(selectedDirectoryId)
    {
      processingType := t;
    }

    /** Cancelling closes the dialog and clears the selection and the name. */
    method Cancel()
      modifies this
      ensures !visible && selectedFiles == [] && taskName == ""
      ensures selectedDirectoryId == old(selectedDirectoryId) && processingType == old(processingType)
    {
      visible := false;
      selectedFiles := [];
      taskName := "";
    }

    /** `handleBuild`: the name is checked before the selection; only when both
        pass is the dialog closed and the selection and the name cleared. */
    method Build() returns (f: Feedback)
      modifies this
      ensures f == BuildCheck(old(taskName), old(selectedFiles))
      ensures f.Success? ==> !visible && selectedFiles == [] && taskName == ""
      ensures !f.Success? ==>
                visible == old(visible) && selectedFiles == old(selectedFiles) && taskName == old(taskName)
      ensures selectedDirectoryId == old(selectedDirectoryId) && processingType == old(processingType)
    {
      if IsBlank(taskName) {
        return Warning("请输入任务名称");
      }
      if |selectedFiles| == 0 {
        return Warning("请至少选择一个文件");
      }
      visible := false;
      selectedFiles := [];
      taskName := "";
      return Success("知识构建任务已创建");
    }
  }
}
