/**
 * The knowledge-base tree panel (src/components/RightPanel/KnowledgeBaseTree.tsx):
 * the node the context menu was opened on, the two name inputs, and the
 * rename / delete / add-directory handlers that hand an updated forest to
 * the owner. The forest is held here as the value the owner receives and
 * passes back; toasts are returned as `Feedback`.
 */
module KbTreePanel {
  import opened Common
  import opened Records
  import opened KbForest

  /** The most levels a directory may sit below its knowledge base. */
  const MaxLevel: nat := 3

  // ---------------------------------------------------------------------------
  // The level guard of handleAddDirectory
  // ---------------------------------------------------------------------------

  /** Where `handleAddDirectory` starts its level search: the top-level node
      with the selected id, or else the selected node itself. */
  function GuardStart(kbs: seq<KbNode>, current: KbNode): (r: KbNode)
    ensures r.id == current.id
  {
    match FirstWithId(kbs, current.id)
    case Some(k) => k
    case None => current
  }

  /** The level the guard compares with three, as written: the search starts
      at a node that already carries the id it looks for. */
  function AsWrittenGuardLevel(kbs: seq<KbNode>, current: KbNode): int
  {
    Level([GuardStart(kbs, current)], current.id, 0)
  }

  /** As written, the computed level is always 0, so the "at most three
      levels" warning can never be raised. */
  lemma AsWrittenGuardNeverFires(kbs: seq<KbNode>, current: KbNode)
    ensures AsWrittenGuardLevel(kbs, current) == 0
    ensures !(AsWrittenGuardLevel(kbs, current) >= MaxLevel)
  {
    var start := GuardStart(kbs, current);
    assert [start][0] == start;
  }

  /** A forest knowledge base > d1 > d2 > d3, the deepest the panel allows. */
  function DeepForest(): seq<KbNode>
  {
    var d3 := KbNode("d3", "三级", Directory, [], None, None, Some(0));
    var d2 := KbNode("d2", "二级", Directory, [d3], None, None, Some(0));
    var d1 := KbNode("d1", "一级", Directory, [d2], None, None, Some(0));
    [KbNode("kb", "知识库", KnowledgeBase, [d1], Some(Available), None, None)]
  }

  /** With the guard as written, adding under d3 is accepted and creates a
      directory four levels below its knowledge base. */
  lemma AsWrittenGuardAdmitsFourthLevel()
    ensures Lookup(DeepForest(), "d3").Some?
    ensures AsWrittenGuardLevel(DeepForest(), Lookup(DeepForest(), "d3").value) == 0
    ensures Level(AddDirectory(DeepForest(), "d3", "四级", "1"), NewDirectoryId("d3", "1"), 0) == 4
  {
    var kbs := DeepForest();
    var d3 := kbs[0].children[0].children[0].children[0];
    assert Level(kbs, "d3", 0) == 3;
    assert Lookup(kbs, "d3") == Some(d3);
    AsWrittenGuardNeverFires(kbs, d3);
    AddedDirectoryLevel(kbs, "d3", "四级", "1", 0);
  }

  /** The evidently intended guard: the level of the selected node within the
      whole forest, 0 for a knowledge base. */
  function GuardLevel(kbs: seq<KbNode>, current: KbNode): int
  {
    Level(kbs, current.id, 0)
  }

  /** With the intended guard, a directory that is created sits at most three
      levels below its knowledge base. */
  lemma GuardKeepsThreeLevels(kbs: seq<KbNode>, current: KbNode, name: string, stamp: string)
    requires GuardLevel(kbs, current) < MaxLevel
    requires NewDirectoryId(current.id, stamp) !in IdList(kbs)
    requires Lookup(kbs, current.id).Some? && Lookup(kbs, current.id).value.kind != File
    ensures 1 <= Level(AddDirectory(kbs, current.id, name, stamp), NewDirectoryId(current.id, stamp), 0) <= MaxLevel
  {
    AddedDirectoryLevel(kbs, current.id, name, stamp, 0);
    LevelIsDepthOfFirstOccurrence(kbs, current.id, 0);
    LevelAtLeastStart(kbs, current.id, 0);
  }

  // ---------------------------------------------------------------------------
  // The panel
  // ---------------------------------------------------------------------------

  class Panel {
    /** The forest shown, as last handed to the owner. */
    var knowledgeBases: seq<KbNode>
    /** The node whose context menu was used last. */
    var currentNode: Option<KbNode>
    var newName: string
    var newDirName: string

    constructor(kbs: seq<KbNode>)
      ensures knowledgeBases == kbs && currentNode == None && newName == "" && newDirName == ""
    {
      knowledgeBases := kbs;
      currentNode := None;
      newName := "";
      newDirName := "";
    }

    /** The "add directory" menu item. */
    method OpenAddDirectory(n: KbNode)
      requires AddDirectoryItem in MenuItems(n)
      modifies this
      ensures currentNode == Some(n)
      ensures knowledgeBases == old(knowledgeBases) && newName == old(newName) && newDirName == old(newDirName)
    {
      currentNode := Some(n);
    }

    /** The "rename" menu item: the input starts out holding the node's name. */
    method OpenRename(n: KbNode)
      requires RenameItem in MenuItems(n)
      modifies this
      ensures currentNode == Some(n) && newName == n.name
      ensures knowledgeBases == old(knowledgeBases) && newDirName == old(newDirName)
    {
      currentNode := Some(n);
      newName := n.name;
    }

    /** The "delete" menu item. */
    method OpenDelete(n: KbNode)
      requires DeleteItem in MenuItems(n)
      modifies this
      ensures currentNode == Some(n)
      ensures knowledgeBases == old(knowledgeBases) && newName == old(newName) && newDirName == old(newDirName)
    {
      currentNode := Some(n);
    }

    method EditNewName(s: string)
      modifies this
      ensures newName == s
      ensures knowledgeBases == old(knowledgeBases) && currentNode == old(currentNode) && newDirName == old(newDirName)
    {
      newName := s;
    }

    method EditNewDirName(s: string)
      modifies this
      ensures newDirName == s
      ensures knowledgeBases == old(knowledgeBases) && currentNode == old(currentNode) && newName == old(newName)
    {
      newDirName := s;
    }

    /** Cancelling the rename dialog forgets the node and clears the input. */
    method CancelRename()
      modifies this
      ensures currentNode == None && newName == ""
      ensures knowledgeBases == old(knowledgeBases) && newDirName == old(newDirName)
    {
      currentNode := None;
      newName := "";
    }

    /** Cancelling the delete dialog forgets the node. */
    method CancelDelete()
      modifies this
      ensures currentNode == None
      ensures knowledgeBases == old(knowledgeBases) && newName == old(newName) && newDirName == old(newDirName)
    {
      currentNode := None;
    }

    /** Cancelling the add-directory dialog forgets the node and clears the input. */
    method CancelAddDirectory()
      modifies this
      ensures currentNode == None && newDirName == ""
      ensures knowledgeBases == old(knowledgeBases) && newName == old(newName)
    {
      currentNode := None;
      newDirName := "";
    }

    /** `handleRename`: a blank name is refused before the node is looked at;
      with no node nothing happens; otherwise the nodes with the id get the
      new name (the search does not go below a renamed node) and the inputs
      are cleared. */
    method Rename() returns (f: Feedback)
      modifies this
      ensures IsBlank(old(newName)) ==>
                f == Warning("请输入名称") && knowledgeBases == old(knowledgeBases) &&
                currentNode == old(currentNode) && newName == old(newName)
      ensures !IsBlank(old(newName)) && old(currentNode).None? ==>
                f == Silent && knowledgeBases == old(knowledgeBases) && newName == old(newName) &&
                currentNode == old(currentNode)
      ensures !IsBlank(old(newName)) && old(currentNode).Some? ==>
                f == Success("重命名成功") &&
                knowledgeBases == KbForest.Rename(old(knowledgeBases), old(currentNode).value.id, old(newName)) &&
                currentNode == None && newName == ""
      ensures newDirName == old(newDirName)
    {
      if IsBlank(newName) {
        return Warning("请输入名称");
      }
      if currentNode.None? {
        return Silent;
      }
      knowledgeBases := KbForest.Rename(knowledgeBases, currentNode.value.id, newName);
      currentNode := None;
      newName := "";
      return Success("重命名成功");
    }

    /** `handleDelete`: with no node nothing happens; otherwise the node and its
      subtree leave the forest and the node is forgotten. */
    method Delete() returns (f: Feedback)
      modifies this
      ensures old(currentNode).None? ==>
                f == Silent && knowledgeBases == old(knowledgeBases) && currentNode == None
      ensures old(currentNode).Some? ==>
                f == Success("删除成功") &&
                knowledgeBases == DeleteNode(old(knowledgeBases), old(currentNode).value.id) &&
                currentNode == None
      ensures newName == old(newName) && newDirName == old(newDirName)
    {
      if currentNode.None? {
        return Silent;
      }
      knowledgeBases := DeleteNode(knowledgeBases, currentNode.value.id);
      currentNode := None;
      return Success("删除成功");
    }

    /** `handleAddDirectory` as written: a blank name is refused first, then a
      missing node is ignored; the level guard starts its search at a node that
      already carries the id, so it never refuses, and the directory
      `<id>-dir-<stamp>` is appended whatever the node's depth. */
    method AddDirectory(stamp: string) returns (f: Feedback)
      modifies this
      ensures IsBlank(old(newDirName)) ==>
                f == Warning("请输入目录名称") && knowledgeBases == old(knowledgeBases) &&
                currentNode == old(currentNode) && newDirName == old(newDirName)
      ensures !IsBlank(old(newDirName)) && old(currentNode).None? ==>
                f == Silent && knowledgeBases == old(knowledgeBases) && newDirName == old(newDirName) &&
                currentNode == None
      ensures !IsBlank(old(newDirName)) && old(currentNode).Some? ==>
                f == Success("目录创建成功") &&
                knowledgeBases == KbForest.AddDirectory(old(knowledgeBases), old(currentNode).value.id, old(newDirName), stamp) &&
                currentNode == None && newDirName == ""
      ensures newName == old(newName)
    {
      if IsBlank(newDirName) {
        return Warning("请输入目录名称");
      }
      if currentNode.None? {
        return Silent;
      }
      var start := GuardStart(knowledgeBases, currentNode.value);
      var level := Level([start], currentNode.value.id, 0);
      if level >= MaxLevel {
        // the "at most three levels" warning: unreachable as written
        assert false;
      }
      knowledgeBases := KbForest.AddDirectory(knowledgeBases, currentNode.value.id, newDirName, stamp);
      currentNode := None;
      newDirName := "";
      return Success("目录创建成功");
    }

    /** `handleAddDirectory` with the level guard measured in the whole forest,
      as its warning intends: a node three levels deep is refused, and a
      directory it does create sits at most three levels below its knowledge
      base. */
    method AddDirectoryWithinThreeLevels(stamp: string) returns (f: Feedback)
      modifies this
      ensures IsBlank(old(newDirName)) ==>
                f == Warning("请输入目录名称") && knowledgeBases == old(knowledgeBases) &&
                currentNode == old(currentNode) && newDirName == old(newDirName)
      ensures !IsBlank(old(newDirName)) && old(currentNode).None? ==>
                f == Silent && knowledgeBases == old(knowledgeBases) && newDirName == old(newDirName) &&
                currentNode == None
      ensures !IsBlank(old(newDirName)) && old(currentNode).Some? &&
              GuardLevel(old(knowledgeBases), old(currentNode).value) >= MaxLevel ==>
                f == Warning("目录层级最多支持三级") && knowledgeBases == old(knowledgeBases) &&
                currentNode == old(currentNode) && newDirName == old(newDirName)
      ensures !IsBlank(old(newDirName)) && old(currentNode).Some? &&
              GuardLevel(old(knowledgeBases), old(currentNode).value) < MaxLevel ==>
                f == Success("目录创建成功") &&
                knowledgeBases == KbForest.AddDirectory(old(knowledgeBases), old(currentNode).value.id, old(newDirName), stamp) &&
                currentNode == None && newDirName == ""
      ensures f.Success? && NewDirectoryId(old(currentNode).value.id, stamp) !in IdList(old(knowledgeBases)) &&
              Lookup(old(knowledgeBases), old(currentNode).value.id).Some? &&
              Lookup(old(knowledgeBases), old(currentNode).value.id).value.kind != File ==>
                1 <= Level(knowledgeBases, NewDirectoryId(old(currentNode).value.id, stamp), 0) <= MaxLevel
      ensures newName == old(newName)
    {
      if IsBlank(newDirName) {
        return Warning("请输入目录名称");
      }
      if currentNode.None? {
        return Silent;
      }
      var level := Level(knowledgeBases, currentNode.value.id, 0);
      if level >= MaxLevel {
        return Warning("目录层级最多支持三级");
      }
      if NewDirectoryId(currentNode.value.id, stamp) !in IdList(knowledgeBases) &&
         Lookup(knowledgeBases, currentNode.value.id).Some? &&
         Lookup(knowledgeBases, currentNode.value.id).value.kind != File {
        GuardKeepsThreeLevels(knowledgeBases, currentNode.value, newDirName, stamp);
      }
      knowledgeBases := KbForest.AddDirectory(knowledgeBases, currentNode.value.id, newDirName, stamp);
      currentNode := None;
      newDirName := "";
      return Success("目录创建成功");
    }
  }
}
