/**
 * The data-management screen's file-directory state
 * (src/components/CenterPanel/DataManagement.tsx): the directory table it
 * owns, the directory selected in its tree, and the "create directory"
 * form handler. The new directory's `Date.now()` id suffix is a parameter.
 */
module DataManagement {
  import opened Common
  import opened Records
  import opened DirectoryTable

  /** A directory id no row carries or names as its parent. */
  predicate FreshDirectoryId(ds: seq<FileDirectory>, id: string)
  {
    forall i :: 0 <= i < |ds| ==> ds[i].id != id && ds[i].parentId != Some(id)
  }

  class Screen {
    var fileDirectories: seq<FileDirectory>
    var selectedDirectoryId: string

    constructor(ds: seq<FileDirectory>)
      ensures fileDirectories == ds && selectedDirectoryId == RootId
    {
      fileDirectories := ds;
      selectedDirectoryId := RootId;
    }

    /** The files listed for the selected directory. */
    function ShownFiles(): seq<FileItem>
      reads this
    {
      FilesInDirectory(fileDirectories, selectedDirectoryId)
    }

    /** The "current directory" line above the file list. */
    function ShownPath(): string
      reads this
      requires WellFormedTable(fileDirectories)
    {
      DirectoryPath(fileDirectories, selectedDirectoryId)
    }

    /** The tree's `onSelect`: an empty selection keeps the current one. */
    method SelectDirectory(keys: seq<string>)
      modifies this
      ensures selectedDirectoryId == if keys == [] then old(selectedDirectoryId) else keys[0]
      ensures fileDirectories == old(fileDirectories)
    {
      if |keys| > 0 {
        selectedDirectoryId := keys[0];
      }
    }

    /** `handleCreateDirectory`: refused with an error when the parent is at
        the third level; otherwise exactly one row `dir-<stamp>` is appended
        at the end, one level below its parent, and the rows already there
        are untouched. */
    method CreateDirectory(parentId: string, name: string, stamp: string) returns (f: Feedback)
      modifies this
      ensures !CanCreateSubDirectory(old(fileDirectories), parentId) ==>
                f == Error("目录层级最多支持三级，无法继续创建") && fileDirectories == old(fileDirectories)
      ensures CanCreateSubDirectory(old(fileDirectories), parentId) ==>
                f == Success("目录创建成功") &&
                fileDirectories == old(fileDirectories) + [NewDirectoryRow(old(fileDirectories), parentId, name, stamp)]
      ensures (WellFormedTable(old(fileDirectories)) && FreshDirectoryId(old(fileDirectories), "dir-" + stamp) &&
               parentId != "dir-" + stamp) ==> WellFormedTable(fileDirectories)
      ensures selectedDirectoryId == old(selectedDirectoryId)
    {
      var parentDir := FindDir(fileDirectories, parentId);
      if !CanCreateSubDirectory(fileDirectories, parentId) {
        return Error("目录层级最多支持三级，无法继续创建");
      }
      var level := if parentDir.Some? then parentDir.value.level else 0;
      var newDir := FileDirectory("dir-" + stamp, name, Some(parentId), level + 1, []);
      if WellFormedTable(fileDirectories) && FreshDirectoryId(fileDirectories, "dir-" + stamp) &&
         parentId != "dir-" + stamp {
        CreatePreservesWellFormed(fileDirectories, parentId, name, stamp);
      }
      fileDirectories := fileDirectories + [newDir];
      return Success("目录创建成功");
    }
  }
}
