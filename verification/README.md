# Knowledge-base admin console — a Dafny model of its logic

The console is a React admin screen for an AI data-exploration platform. It runs on in-memory mock data. Under its rendering is a small body of sequential logic, and this project models that logic and proves what it does.

## What is modelled

**Knowledge-base forest** (`KbForest`, `KbTreePanel`). Knowledge bases hold directories, and directories hold directories and files. The right-hand panel operates on this forest:
- it finds a node by id;
- it renames, deletes and adds directories;
- it counts files;
- it computes a node's depth;
- it turns the forest into a display tree that shows only directories;
- it offers a context menu.

The pure recursions are functions over `seq<KbNode>`. The early-return searches `findNode` and `getLevel` are methods with loops, each proved equal to its function. The panel's handlers are methods of the class `KbTreePanel.Panel`.

**Flat directory table** (`DirectoryTable`, `DataManagement`). Rows have a `parentId` and a `level`, and files hang below the rows. The table supports these operations:
- the three copies of `getDirectoryPath`, which differ only in what an unknown id yields;
- file lookup;
- the three-level creation guard and directory creation;
- the directory tree of the data-management screen and of the build dialog, cut off at three levels.

The path recursion has no cycle guard. The model recurses only in a well-formed table: every parent row sits one level above its child, and levels lie in 0..3.

**Build tasks** (`BuildTasks`):
- the pause/start toggle and task deletion;
- the search for a knowledge-base directory name;
- `buildFileTree`, which resolves a task's file ids, drops unknown ids and repeats, and groups the files by directory. Its two `forEach` loops over JavaScript `Map`s are methods over insertion-ordered sequences.

**Knowledge-base management screen** (`KnowledgeBaseManagement`):
- the selected node and its knowledge base;
- the agents affected by that knowledge base;
- the files listed for the node;
- the "build knowledge" dialog and its submission checks.

**Permission editor** (`Permissions`):
- the directory list with its `" / "`-joined full paths;
- assigning and saving permissions;
- column visibility;
- the row-permission list, whose rows are objects edited in place.

**Agent tabs** (`AgentViews`) and **top-level view state** (`AppState`). The view state covers menu and view switching, node selection, the chat log, and the ordered intent rules of chat routing.

**Mock data** (`Records`, `Fixtures`, `DataInvariants`). These modules hold the record types and the fixture data, and prove the invariants the screens rely on.

Several behaviours are proved as they are written:
- `canCreateSubDirectory` accepts an unknown parent.
- The pause toggle sends any status other than "running" to "running".
- Showing a column twice lists its id twice.
- The level guard of the tree panel's add-directory handler never fires (see Findings).
- A chat message id can repeat across two sends a millisecond apart (see Findings).

The tree panel's comment (KnowledgeBaseTree.tsx:151, 最多三级) and its warning "目录层级最多支持三级" (:165) describe a three-level cap on knowledge-base directories; the code does not enforce it. `KbTreePanel.Panel.AddDirectory` models the handler as written. `KbTreePanel.Panel.AddDirectoryWithinThreeLevels` is the handler with the guard its warning describes. Findings records the gap. Likewise `AppState.App.SendMessage` models message ids as written, and `AppState.App.SendMessageWithFreshIds` draws them from stamps that never repeat. Its field `lastStamp`, the last stamp used, has no counterpart in the source.

## Model

| member | source | states |
|---|---|---|
| KbForest.CountFilesCountsFileNodes | src/components/RightPanel/KnowledgeBaseTree.tsx:28-32 | `countFiles` of a node whose files are leaves is the number of file nodes in its subtree. It is 1 for a file and 0 for a container with no children. |
| KbForest.SumFilesCountsFileNodes | src/components/RightPanel/KnowledgeBaseTree.tsx:31 | Summing `countFiles` over a forest gives the number of file nodes in the pre-order listing of the forest. |
| KbForest.Lookup | src/components/RightPanel/KnowledgeBaseTree.tsx:52-61 | The search finds nothing exactly when no node of the forest has the id. A node it finds carries the id. |
| KbForest.LookupIsFirstInPreOrder | src/components/RightPanel/KnowledgeBaseTree.tsx:52-61 | The node found is the first node with the id in the pre-order listing of the forest. |
| KbForest.FindNode | src/components/RightPanel/KnowledgeBaseTree.tsx:52-61 | The loop with early returns computes exactly the recursive lookup. It returns nothing exactly when the id is absent. |
| KbForest.RenameKeepsEverythingButNames | src/components/RightPanel/KnowledgeBaseTree.tsx:64-74 | Renaming changes no id, kind, status, count or child order. With names erased, the forest is the same as before, and its id list is unchanged. |
| KbForest.RenameChangesOnlyThatName | src/components/RightPanel/KnowledgeBaseTree.tsx:64-74 | After renaming, the id found has the new name when it is present. Every other id keeps the name it had. |
| KbForest.DeleteAbsentIsIdentity | src/components/RightPanel/KnowledgeBaseTree.tsx:77-85 | Deleting an id that no node has leaves the forest unchanged. |
| KbForest.DeleteRemovesId | src/components/RightPanel/KnowledgeBaseTree.tsx:77-85 | No node with the deleted id survives, at any depth. |
| KbForest.DeleteKeepsOrder | src/components/RightPanel/KnowledgeBaseTree.tsx:77-85 | The surviving ids keep their pre-order relative order: they form a subsequence of the original ids. |
| KbForest.DeleteRemovesExactlySubtree | src/components/RightPanel/KnowledgeBaseTree.tsx:77-85 | When the id occurs once, deletion cuts the contiguous block of the node's whole subtree out of the pre-order id list. Nothing else is removed. |
| KbForest.NewDirectoryId | src/components/RightPanel/KnowledgeBaseTree.tsx:92 | A new directory's id starts with its parent's id and is longer than it. |
| KbForest.HasContainerWithIdMeans | src/components/RightPanel/KnowledgeBaseTree.tsx:88-108 | The add target exists exactly when some node of the forest has the id and is not a file. |
| KbForest.AddDirectoryWithoutParentIsIdentity | src/components/RightPanel/KnowledgeBaseTree.tsx:88-108 | When the id is absent or names only files, adding a directory leaves the forest unchanged. |
| KbForest.AddDirectoryAppendsToFoundParent | src/components/RightPanel/KnowledgeBaseTree.tsx:88-108 | The found parent gains exactly one child, appended last: a directory with the new id and name, a count of 0 and no children. |
| KbForest.DeleteUndoesAddDirectory | src/components/RightPanel/KnowledgeBaseTree.tsx:88-108 | Deleting the fresh id restores the original forest, so adding inserted nothing but that directory. |
| KbForest.LevelIsDepthOfFirstOccurrence | src/components/RightPanel/KnowledgeBaseTree.tsx:152-161 | `getLevel` is -1 exactly when the id is absent. Otherwise it is the depth, counted from the start level, of the id's first pre-order occurrence. |
| KbForest.LevelAtLeastStart | src/components/RightPanel/KnowledgeBaseTree.tsx:152-161 | A found level is never below the start level. |
| KbForest.GetLevel | src/components/RightPanel/KnowledgeBaseTree.tsx:152-161 | The loop over the children with early return computes the recursive level. |
| KbForest.AddedDirectoryLevel | src/components/RightPanel/KnowledgeBaseTree.tsx:88-108 | A directory added below a non-file node sits one level below that node. |
| KbForest.ConvertToTreeData | src/components/RightPanel/KnowledgeBaseTree.tsx:180-204 | There is one display entry per input node, in input order, keyed by the node's id. |
| KbForest.ConvertContainersIsFilterThenConvert | src/components/RightPanel/KnowledgeBaseTree.tsx:199-201 | A node's display children are its non-file children, converted in order. |
| KbForest.DisplayKeysAreContainerIds | src/components/RightPanel/KnowledgeBaseTree.tsx:180-204 | At every depth, the display tree's keys are exactly the non-file ids in pre-order. No file appears. |
| KbForest.DisplayOfContainerForest | src/components/RightPanel/KnowledgeBaseTree.tsx:180-204 | For a forest of knowledge bases, the whole display tree lists exactly the container ids in pre-order. |
| KbForest.ShownCountOfEntry | src/components/RightPanel/KnowledgeBaseTree.tsx:182-190 | A directory shows its preset count when it has one, and otherwise the number of file nodes below it. Other kinds show no count. |
| KbForest.MenuItems | src/components/RightPanel/KnowledgeBaseTree.tsx:208-244 | A file gets no menu. A knowledge base or directory gets add, rename and delete, in that order. |
| KbTreePanel.GuardStart | src/components/RightPanel/KnowledgeBaseTree.tsx:163 | The level search starts at a node that carries the selected id. |
| KbTreePanel.AsWrittenGuardNeverFires | src/components/RightPanel/KnowledgeBaseTree.tsx:152-167 | As written, the guard's level is always 0, so the three-level warning is never raised. |
| KbTreePanel.AsWrittenGuardAdmitsFourthLevel | src/components/RightPanel/KnowledgeBaseTree.tsx:163-169 | In a forest three levels deep, the guard as written lets a directory be created at level 4. |
| KbTreePanel.GuardKeepsThreeLevels | src/components/RightPanel/KnowledgeBaseTree.tsx:163-169 | With the level measured in the whole forest, a created directory sits 1 to 3 levels below its knowledge base. |
| KbTreePanel.Panel.constructor | src/components/RightPanel/KnowledgeBaseTree.tsx:23-25 | The panel starts with no node and both inputs empty. |
| KbTreePanel.Panel.OpenAddDirectory | src/components/RightPanel/KnowledgeBaseTree.tsx:216-219 | The add item, offered only for non-file nodes, remembers the node and changes nothing else. |
| KbTreePanel.Panel.OpenRename | src/components/RightPanel/KnowledgeBaseTree.tsx:225-229 | The rename item remembers the node and fills the input with the node's name. |
| KbTreePanel.Panel.OpenDelete | src/components/RightPanel/KnowledgeBaseTree.tsx:236-239 | The delete item remembers the node. |
| KbTreePanel.Panel.EditNewName | src/components/RightPanel/KnowledgeBaseTree.tsx:330 | Typing replaces the rename input and nothing else. |
| KbTreePanel.Panel.EditNewDirName | src/components/RightPanel/KnowledgeBaseTree.tsx:363 | Typing replaces the directory-name input and nothing else. |
| KbTreePanel.Panel.CancelRename | src/components/RightPanel/KnowledgeBaseTree.tsx:322-325 | Cancelling forgets the node, clears the rename input and leaves the forest alone. |
| KbTreePanel.Panel.CancelDelete | src/components/RightPanel/KnowledgeBaseTree.tsx:341-343 | Cancelling forgets the node and leaves the forest alone. |
| KbTreePanel.Panel.CancelAddDirectory | src/components/RightPanel/KnowledgeBaseTree.tsx:355-358 | Cancelling forgets the node, clears the directory-name input and leaves the forest alone. |
| KbTreePanel.Panel.Rename | src/components/RightPanel/KnowledgeBaseTree.tsx:110-129 | A blank name warns first and changes nothing. Without a node, nothing happens. Otherwise the forest becomes the renamed forest, the node is forgotten and the input is cleared. |
| KbTreePanel.Panel.Delete | src/components/RightPanel/KnowledgeBaseTree.tsx:131-142 | Without a node, nothing happens. Otherwise the forest loses the node's subtree and the node is forgotten. |
| KbTreePanel.Panel.AddDirectory | src/components/RightPanel/KnowledgeBaseTree.tsx:144-178 | Checks run in order: a blank name warns and changes nothing; no node does nothing. Otherwise the directory is appended, the node forgotten and the input cleared, whatever the node's depth: the level guard never refuses. |
| KbTreePanel.Panel.AddDirectoryWithinThreeLevels | src/components/RightPanel/KnowledgeBaseTree.tsx:144-178 | The handler with the guard measured in the whole forest: a node already at level 3 warns and changes nothing. A directory it creates under a known container, with a fresh id, sits one to three levels below its knowledge base. |
| DirectoryTable.FindDir | src/components/CenterPanel/DataManagement.tsx:55 | `find` returns the first row with the id, and nothing exactly when no row has it. |
| DirectoryTable.FilesInDirectory | src/components/CenterPanel/DataManagement.tsx:54-57 | The result is the found row's files, or empty for an unknown id. |
| DirectoryTable.FileInfo | src/components/CenterPanel/KnowledgeBuildTasks.tsx:18-24 | There is no result exactly when no row lists a file with the id. A result is the first file with the id, scanning rows in table order and each row's files in order. |
| DirectoryTable.FindFileInfo | src/components/CenterPanel/KnowledgeBuildTasks.tsx:18-24 | The loop over the rows with early return computes exactly the file lookup. |
| DirectoryTable.ParentIsOneLevelUp | src/mock/data.ts:50-56 | In a well-formed table, levels lie in 0..3 and a found parent sits exactly one level above its child. |
| DirectoryTable.AncestryIsLinked | src/components/CenterPanel/DataManagement.tsx:60-69 | The chain the path recursion walks runs from the top down to the directory. Each entry is the parent of the next, and levels rise by one per step. |
| DirectoryTable.PathIsJoinedAncestry | src/components/CenterPanel/DataManagement.tsx:60-69 | A path is the chain's names from top to bottom joined by "/", prefixed with "root/" when the chain reaches a top-level directory. |
| DirectoryTable.PathFromStep | src/components/CenterPanel/DataManagement.tsx:65-68 | Below the top level, a directory's path is its parent's path, then "/", then its name. |
| DirectoryTable.PathCopiesAgree | src/components/CenterPanel/KnowledgeBaseManagement.tsx:169-194 | The three path functions agree on every known id. For an unknown id, the data-management copy says "root" and the other two say "未知目录". |
| DirectoryTable.RootedChainHasAtMostThreeLevels | src/mock/data.ts:54 | In a well-formed table with a level-0 root, a chain that reaches the root holds at most three directories. |
| DirectoryTable.CanCreateSubDirectory | src/components/CenterPanel/DataManagement.tsx:72-76 | An unknown parent is accepted. A known parent is accepted exactly when its level is below 3. |
| DirectoryTable.CreatedRowWithinThreeLevels | src/components/CenterPanel/DataManagement.tsx:72-91 | A row the guard admits gets a level from 1 to 3. The level is 1 for an unknown parent. |
| DirectoryTable.CreatePreservesWellFormed | src/components/CenterPanel/DataManagement.tsx:85-93 | Appending an admitted row with a fresh id keeps the table well formed. |
| DirectoryTable.ChildRows | src/components/CenterPanel/DataManagement.tsx:26-27 | The rows listed under a parent all name that parent and keep the table's order. |
| DirectoryTable.EntriesFor | src/components/CenterPanel/DataManagement.tsx:26-33 | There is one tree entry per row, in order, keyed and titled by the row. Each entry's children are the entries of the row's child rows one level down, and there are none below level 3. |
| DirectoryTable.EntriesHeight | src/components/CenterPanel/DataManagement.tsx:23-33 | Entries built at level l are at most 4 - l deep, so recursion stops after level 3. |
| DirectoryTable.DirectoryTreeShape | src/components/CenterPanel/DataManagement.tsx:20-49 | There is a single root keyed "dir-root" and titled "root". Its children are exactly the rows whose parent is "dir-root", in table order. The tree is at most four entries deep. |
| DataManagement.Screen.constructor | src/components/CenterPanel/DataManagement.tsx:16-17 | The screen starts on the given table with "dir-root" selected. |
| DataManagement.Screen.SelectDirectory | src/components/CenterPanel/DataManagement.tsx:272-276 | The first selected key becomes the selection. An empty selection keeps the old one. |
| DataManagement.Screen.CreateDirectory | src/components/CenterPanel/DataManagement.tsx:78-96 | A refused parent gives the error and leaves the table unchanged. Otherwise exactly one new row is appended and the table stays well formed. |
| BuildTasks.NameSearchIsNameOf | src/components/CenterPanel/KnowledgeBuildTasks.tsx:40-54 | For named nodes, the nested search returns the name of the first pre-order node with the id, or nothing. |
| BuildTasks.ChildSearchIsNameOf | src/components/CenterPanel/KnowledgeBuildTasks.tsx:44-50 | For named nodes, the inner loop over children finds the same name as the pre-order search over those children. |
| BuildTasks.KbDirectoryNameIsLookupName | src/components/CenterPanel/KnowledgeBuildTasks.tsx:39-57 | In a forest whose nodes all have non-empty names, a present id yields the name of the node found by lookup and an absent id yields "未知目录". |
| BuildTasks.FileEntriesSound | src/components/CenterPanel/KnowledgeBuildTasks.tsx:61-65 | Every collected file comes from the id list and resolves to itself, and no file is collected twice. |
| BuildTasks.FileEntriesComplete | src/components/CenterPanel/KnowledgeBuildTasks.tsx:61-65 | Every id in the list that resolves is collected. |
| BuildTasks.FileEntriesInOrder | src/components/CenterPanel/KnowledgeBuildTasks.tsx:61-65 | Collected files follow the order in which their ids first occur, which is the map's insertion order. |
| BuildTasks.FileEntriesCount | src/components/CenterPanel/KnowledgeBuildTasks.tsx:61-65 | The number of collected files equals the number of distinct resolvable ids. |
| BuildTasks.CollectFiles | src/components/CenterPanel/KnowledgeBuildTasks.tsx:61-65 | The `forEach` that fills the file map computes exactly the collected files. |
| BuildTasks.AddToGroups | src/components/CenterPanel/KnowledgeBuildTasks.tsx:68-73 | Existing groups keep their keys and order. A new group, if any, is the file's directory holding only that file, appended last. |
| BuildTasks.AddToGroupsIds | src/components/CenterPanel/KnowledgeBuildTasks.tsx:69-71 | The group keys gain the file's directory exactly when it was not yet a key. |
| BuildTasks.AddToGroupsPushesOnce | src/components/CenterPanel/KnowledgeBuildTasks.tsx:72 | With distinct keys, the file is pushed onto its own group only, and every other group is unchanged. |
| BuildTasks.AddToGroupsAddsOneLeaf | src/components/CenterPanel/KnowledgeBuildTasks.tsx:68-73 | Adding a file adds exactly that file to the groups' contents. |
| BuildTasks.GroupFiles | src/components/CenterPanel/KnowledgeBuildTasks.tsx:67-73 | The group keys are distinct. |
| BuildTasks.GroupIdsAreFirstOccurrences | src/components/CenterPanel/KnowledgeBuildTasks.tsx:67-73 | The groups appear in the order in which their directories first occur among the files. |
| BuildTasks.GroupsHoldTheirFiles | src/components/CenterPanel/KnowledgeBuildTasks.tsx:67-73 | Each group holds exactly the files of its directory, in file order. |
| BuildTasks.GroupFilesKeepsEveryFile | src/components/CenterPanel/KnowledgeBuildTasks.tsx:67-73 | The groups together hold every file exactly once: their contents are a permutation of the files. |
| BuildTasks.GroupByDirectory | src/components/CenterPanel/KnowledgeBuildTasks.tsx:67-73 | The second `forEach` computes exactly the grouping. |
| BuildTasks.RenderGroups | src/components/CenterPanel/KnowledgeBuildTasks.tsx:75-84 | There is one tree node per group, titled by the directory path and keyed by the directory id, with one leaf per file in order. |
| BuildTasks.BuildFileTree | src/components/CenterPanel/KnowledgeBuildTasks.tsx:60-85 | The method computes the rendering of the grouping of the collected files. |
| BuildTasks.FileTreeMeaning | src/components/CenterPanel/KnowledgeBuildTasks.tsx:60-85 | The file tree's keys are the files' directories in order of first occurrence. Each group holds its directory's files. The number of leaves is the number of distinct resolvable ids. |
| BuildTasks.Toggled | src/components/CenterPanel/KnowledgeBuildTasks.tsx:90 | The toggle gives "paused" exactly for a running task, and "running" for every other status. |
| BuildTasks.PauseResume | src/components/CenterPanel/KnowledgeBuildTasks.tsx:88-92 | The list keeps its length. Only tasks with the id are toggled, and all others are unchanged. |
| BuildTasks.PauseResumeTwiceRestores | src/components/CenterPanel/KnowledgeBuildTasks.tsx:88-92 | Toggling a running or paused task twice restores the list. |
| BuildTasks.PauseResumeRevivesFinishedTask | src/components/CenterPanel/KnowledgeBuildTasks.tsx:90 | A finished or failed task would become running, and toggling twice would not restore it. |
| BuildTasks.TaskBoard.constructor | src/components/CenterPanel/KnowledgeBuildTasks.tsx:12-14 | The board starts on the given tasks with no selection. |
| BuildTasks.TaskBoard.PauseOrResume | src/components/CenterPanel/KnowledgeBuildTasks.tsx:87-95 | The loop replaces the task list by its toggled form. The toast follows the clicked row's status. |
| BuildTasks.TaskBoard.SelectTask | src/components/CenterPanel/KnowledgeBuildTasks.tsx:190-191 | A row's delete or source button remembers that row and nothing else. |
| BuildTasks.TaskBoard.CloseDialog | src/components/CenterPanel/KnowledgeBuildTasks.tsx:248-250 | Closing a dialog forgets the row and keeps the tasks. |
| BuildTasks.TaskBoard.Delete | src/components/CenterPanel/KnowledgeBuildTasks.tsx:97-104 | Without a selection, nothing happens. Otherwise the tasks with the selected id are removed, the rest keep their order, and the selection is cleared. |
| BuildTasks.DeleteRemovesOnlyThatTask | src/components/CenterPanel/KnowledgeBuildTasks.tsx:99 | Deletion keeps exactly the tasks with other ids, in order. The kept and removed tasks together account for the list. |
| KnowledgeBaseManagement.SelectedNode | src/components/CenterPanel/KnowledgeBaseManagement.tsx:36-39 | An absent or empty id selects nothing. Otherwise the node with the id is selected, and nothing when the id is absent. |
| KnowledgeBaseManagement.KnowledgeBaseRootIsFirstHolder | src/components/CenterPanel/KnowledgeBaseManagement.tsx:42-48 | The root is the first top-level tree that contains the id. There is none exactly when no node has it. |
| KnowledgeBaseManagement.AffectedAgents | src/components/CenterPanel/KnowledgeBaseManagement.tsx:53-56 | The result is the agents that use the root's id, in their order, each as often as the list holds it. It is empty without a root. |
| KnowledgeBaseManagement.FilesOfNode | src/components/CenterPanel/KnowledgeBaseManagement.tsx:59-66 | A file lists itself. A directory lists its file children, in order, each as often as it appears among the children. A knowledge base or no node lists nothing. |
| KnowledgeBaseManagement.FilesOfDirectoryAndSubdirectories | src/components/CenterPanel/KnowledgeBaseManagement.tsx:62-63 | A directory's listed files and its sub-directories together account for all of its children. |
| KnowledgeBaseManagement.ChosenFiles | src/components/CenterPanel/KnowledgeBaseManagement.tsx:525-527 | Every entry is the file of a chosen id, and every chosen id that resolves has its file listed. It has one entry per id when all resolve. |
| KnowledgeBaseManagement.ChosenFilesFollowResolvingIds | src/components/CenterPanel/KnowledgeBaseManagement.tsx:525-527 | The k-th entry is the file of the k-th chosen id that resolves, so the list keeps the chosen order and repeats a repeated id. |
| KnowledgeBaseManagement.BuildCheck | src/components/CenterPanel/KnowledgeBaseManagement.tsx:196-205 | A blank name is refused before the selection is looked at. Success happens exactly when the name is not blank and some file is chosen. |
| KnowledgeBaseManagement.BuildDialog.constructor | src/components/CenterPanel/KnowledgeBaseManagement.tsx:15-20 | The dialog starts closed, with an empty name and selection, "dir-root", and unstructured processing. |
| KnowledgeBaseManagement.BuildDialog.Open | src/components/CenterPanel/KnowledgeBaseManagement.tsx:256-260 | The button, shown only for non-file nodes, opens the dialog and changes nothing else. |
| KnowledgeBaseManagement.BuildDialog.EditTaskName | src/components/CenterPanel/KnowledgeBaseManagement.tsx:454 | Typing replaces the task name and nothing else. |
| KnowledgeBaseManagement.BuildDialog.SelectDirectory | src/components/CenterPanel/KnowledgeBaseManagement.tsx:466-471 | The first selected key becomes the directory. An empty selection keeps it. |
| KnowledgeBaseManagement.BuildDialog.ChooseFiles | src/components/CenterPanel/KnowledgeBaseManagement.tsx:481 | The ticked ids replace the selection. |
| KnowledgeBaseManagement.BuildDialog.ChooseProcessingType | src/components/CenterPanel/KnowledgeBaseManagement.tsx:555 | The chosen processing type replaces the old one. |
| KnowledgeBaseManagement.BuildDialog.Cancel | src/components/CenterPanel/KnowledgeBaseManagement.tsx:443-448 | Cancelling closes the dialog and clears the selection and the name. |
| KnowledgeBaseManagement.BuildDialog.Build | src/components/CenterPanel/KnowledgeBaseManagement.tsx:196-209 | The outcome is the build check. Only success closes the dialog and clears the selection and the name; a refusal changes nothing. |
| Permissions.FullPath | src/components/CenterPanel/PermissionManagement.tsx:50 | A full path is the parent path, or the knowledge-base name at the first level, then " / ", then the name. |
| Permissions.DirectoryOptionsOfOne | src/components/CenterPanel/PermissionManagement.tsx:48-60 | A directory contributes itself and then its sub-directories under its own path. Any other node contributes nothing. |
| Permissions.ExtractDirectories | src/components/CenterPanel/PermissionManagement.tsx:47-62 | The accumulating walk appends exactly the directory options of the nodes to what it was given. |
| Permissions.CollectDirectories | src/components/CenterPanel/PermissionManagement.tsx:64-68 | Walking every knowledge base's children yields the full directory list. |
| Permissions.OptionsAreDirectoriesInPreOrder | src/components/CenterPanel/PermissionManagement.tsx:47-68 | Below the top level, the listed ids are exactly the directory nodes in pre-order: no files and no knowledge bases. |
| Permissions.DirectoryPathsExtendParents | src/components/CenterPanel/PermissionManagement.tsx:50-58 | Every listed path is its parent's path, or the knowledge-base name, then " / " and the name. Every entry names its knowledge base. |
| Permissions.FinancialFieldsAreTenDistinct | src/components/CenterPanel/PermissionManagement.tsx:107-118 | The financial table has exactly ten distinct field ids, in this order. |
| Permissions.FieldVisibility | src/components/CenterPanel/PermissionManagement.tsx:251-257 | Showing appends the id after the old list without checking membership. Hiding removes every occurrence and keeps all other ids, with their counts and order. |
| Permissions.ShowingTwiceDuplicates | src/components/CenterPanel/PermissionManagement.tsx:253 | Showing a column that is already shown lists it at least twice. |
| Permissions.HideAfterShow | src/components/CenterPanel/PermissionManagement.tsx:251-257 | Hiding after showing equals hiding alone. For a column that was not shown, it restores the list. |
| Permissions.RemoveAt | src/components/CenterPanel/PermissionManagement.tsx:248 | A valid index removes exactly that row and keeps the others in order. Any other index changes nothing. |
| Permissions.RemoveAtKeepsDistinctRows | src/components/CenterPanel/PermissionManagement.tsx:247-249 | Removing a row keeps every remaining row a separate object. |
| Permissions.RowPermission.constructor | src/components/CenterPanel/PermissionManagement.tsx:29-33 | A row holds the given field, operator and values. |
| Permissions.PermissionEditor.constructor | src/components/CenterPanel/PermissionManagement.tsx:36-41 | The editor starts with no directory, a closed dialog and empty selections. |
| Permissions.PermissionEditor.SelectDirectory | src/components/CenterPanel/PermissionManagement.tsx:324 | Choosing a directory replaces the selection and nothing else. |
| Permissions.PermissionEditor.AssignPermission | src/components/CenterPanel/PermissionManagement.tsx:212-226 | Without a directory, it only warns. For "kb1-dir2", it opens with row and column permissions and all ten fields selected. For any other directory, it opens without them, so after an assignment the section is shown exactly for the revenue directory. |
| Permissions.PermissionEditor.CheckUsersAndGroups | src/components/CenterPanel/PermissionManagement.tsx:400-401 | The checked keys replace the user and group selection. |
| Permissions.PermissionEditor.CheckFields | src/components/CenterPanel/PermissionManagement.tsx:428-430 | The ticked fields replace the field selection. |
| Permissions.PermissionEditor.ChangeFieldVisibility | src/components/CenterPanel/PermissionManagement.tsx:251-257 | The field selection becomes its visibility-edited form, and nothing else changes. |
| Permissions.PermissionEditor.SavePermission | src/components/CenterPanel/PermissionManagement.tsx:228-238 | An empty user selection warns and changes nothing. Otherwise it closes the dialog and clears the users, fields and rows. |
| Permissions.PermissionEditor.Cancel | src/components/CenterPanel/PermissionManagement.tsx:376-382 | Cancelling closes the dialog, clears every selection and hides the row and column section. |
| Permissions.PermissionEditor.AddRowPermission | src/components/CenterPanel/PermissionManagement.tsx:240-245 | Exactly one fresh row {region, not_in, []} is appended, and the old rows are kept in order. |
| Permissions.PermissionEditor.RemoveRowPermission | src/components/CenterPanel/PermissionManagement.tsx:247-249 | The row list loses only the row at the index. |
| Permissions.PermissionEditor.EditRowField | src/components/CenterPanel/PermissionManagement.tsx:481-485 | Only row i's field changes, in place. Every other row, and row i's operator and values, are unchanged. |
| Permissions.PermissionEditor.EditRowOperator | src/components/CenterPanel/PermissionManagement.tsx:495-499 | Only row i's operator changes, in place. Every other row is unchanged. |
| Permissions.PermissionEditor.EditRowValues | src/components/CenterPanel/PermissionManagement.tsx:510-514 | Only row i's values change, in place. Every other row is unchanged. |
| AgentViews.FilteredAgents | src/components/CenterPanel/AgentManagement.tsx:56-70 | Each tab shows its agents in list order, each as often as the list holds it: shared non-templates, the current user's non-templates, templates, or, for "all" and any other key, all non-templates. |
| AgentViews.UnknownViewShowsAll | src/components/CenterPanel/AgentManagement.tsx:66-68 | Every key that is not a tab of its own shows the "all" list. |
| AgentViews.AllAndTemplatesPartition | src/components/CenterPanel/AgentManagement.tsx:64-68 | "all" and "templates" together hold every agent exactly once. |
| AgentViews.SharedAndMineWithinAll | src/components/CenterPanel/AgentManagement.tsx:60-63 | The "shared" and "mine" tabs are ordered parts of the "all" tab. |
| AppState.DecimalStringInjective | src/App.tsx:51 | Different timestamps give different message ids. |
| AppState.SentMessageIdsDiffer | src/App.tsx:49-84 | Within one send, the user's and the assistant's ids differ whenever the second clock reading is not earlier than the first. |
| AppState.AsWrittenSendsRepeatAnId | src/App.tsx:49-84 | Two sends a millisecond apart give the first answer and the second question the same id. |
| AppState.FreshStamps | src/App.tsx:51-80 | The stamps of a send lie above the last stamp used, the answer's above the question's, and neither is earlier than its clock reading. |
| AppState.FreshSendKeepsIdsDistinct | src/App.tsx:49-86 | Appending two messages stamped past every stamp of the log keeps all ids distinct. |
| AppState.FreshSendsKeepIdsApart | src/App.tsx:49-86 | With fresh stamps, the same two sends leave every id of the log different. |
| AppState.FirstMatch | src/App.tsx:61-77 | The first rule that applies decides the reply. With none, the fallback reply without a switch. |
| AppState.RuleTests | src/App.tsx:61-73 | The five rules test exactly the if-chain's conditions. |
| AppState.RespondIsFirstMatchingRule | src/App.tsx:58-77 | The if-chain is the rule table tried in order, first match winning. |
| AppState.RoutedTargets | src/App.tsx:58-77 | Only data-management or agent-management is ever targeted. Agent-management needs "创建" and "智能体" and neither upload word. There is no switch exactly when none of the first four rules applies. |
| AppState.App.constructor | src/App.tsx:11-21 | The app starts in chat with no menu, no node and only the greeting. |
| AppState.App.MenuClick | src/App.tsx:23-28 | A menu click shows that menu's view, highlights it and clears the node. |
| AppState.App.BackToChat | src/App.tsx:30-34 | It returns to chat, clears the menu and keeps the node. |
| AppState.App.NodeSelect | src/App.tsx:36-41 | It selects the node, shows the management view and clears the menu. |
| AppState.App.ShowBuildTasks | src/App.tsx:43-47 | It shows the build tasks, clears the menu and clears the node. |
| AppState.App.SendMessage | src/App.tsx:49-95 | It appends the user's and then the assistant's message, keeping earlier ones. The user's id comes from the first clock reading and the answer's from the second plus one, each message with its own time stamp. A switch is scheduled only when a rule chose a target. The view is unchanged until the timer fires. |
| AppState.App.SendMessageWithFreshIds | src/App.tsx:49-95 | The same send with ids from fresh stamps: every id of the log stays distinct. |
| AppState.App.FireTimer | src/App.tsx:89-93 | The oldest scheduled switch sets the view and the menu to the same key. |
| AppState.App.NavigateToDataManagement | src/App.tsx:109-112 | It shows and highlights data management. |
| AppState.App.NavigateToTemplate | src/App.tsx:113-123 | It shows and highlights agent management, whatever the template type. |
| DataInvariants.FindDirFindsUniqueRow | src/mock/data.ts:323-377 | With unique row ids, each row is found by its own id. |
| DataInvariants.WitnessedTableIsWellFormed | src/mock/data.ts:50-56 | A table with unique ids is well formed when each row's parent sits one level up and levels lie in 0..3. |
| DataInvariants.ListedFileResolves | src/components/CenterPanel/KnowledgeBuildTasks.tsx:18-24 | Every file a row lists can be found by its id. |
| DataInvariants.ListedReferencesResolve | src/mock/data.ts:69-78 | Tasks whose targets are forest ids and whose file ids resolve satisfy the task-reference invariant. |
| DataInvariants.PresetCountsReachEveryNode | src/mock/data.ts:10 | When counts match tree by tree, every node in the pre-order listing has a matching count. |
| DataInvariants.WitnessedConnectorIsLinked | src/mock/data.ts:90-104 | Given a witness, every level-2 connector directory hangs below a level-1 directory of the same connector. |
| Fixtures.MockRowIdsAreUnique | src/mock/data.ts:323-377 | The mock directory ids are distinct. |
| Fixtures.MockTableIsWellFormed | src/mock/data.ts:323-377 | Every mock row's parent sits one level up, and all levels lie in 0..3. |
| Fixtures.MockFilesAreFiled | src/mock/data.ts:337-374 | Every mock file names the row that lists it. A connector id is present exactly on connector files. |
| Fixtures.MockFileIdsAreUnique | src/mock/data.ts:337-374 | The mock file ids are distinct. |
| Fixtures.MockTaskTargetsExist | src/mock/data.ts:291-320 | Every mock task's target is a node of the mock forest. |
| Fixtures.MockTasksResolve | src/mock/data.ts:291-320 | Every mock task's file ids resolve, and its target exists. |
| Fixtures.MockPresetCountsMatch | src/mock/data.ts:107-181 | Each preset count in the mock forest equals the directory's number of file children. |
| Fixtures.MockEveryNodeCountMatches | src/mock/data.ts:118-178 | Every node of the mock forest, at every depth, has a matching count. |
| Fixtures.MockConnectorsAreLinked | src/mock/data.ts:393-533 | Each connector's level-2 directories hang below its own level-1 directories. |
| Fixtures.MockDeepestPath | src/mock/data.ts:361-376 | The deepest mock directory's path is "root/财务文档/政策文件/2024年政策". |
| Fixtures.MockUnknownDirectory | src/components/CenterPanel/KnowledgeBuildTasks.tsx:27-36 | An unknown directory's path is "root" on the data-management screen and "未知目录" in the task list. |

## Left out

- Rendering is not modelled: JSX, antd components, icons, styles, and modal-visibility flags that only show or hide a dialog. The navigation-only views are also out, namely the centre dispatch, the left menu, the logs and the right panel's layout.
- The chat window and data exploration are not modelled. They are DOM listeners, scrolling and canned strings.
- Toasts (`message.success`, `message.warning`, `message.error`) are returned as `Feedback` values, not shown.
- `Date.now()` ids and ISO timestamps are parameters (`stamp`, `now1`, `now2`, `timestamp1`, `timestamp2`), one per read in the source. The model does not produce them and does not assume the clock only moves forward.
- The 500 ms `setTimeout` of a routed chat reply is a queue of pending switches. `AppState.App.FireTimer` performs them in order. Real timing, and timers that fire after the component is gone, are not modelled.
- The file-size display is not modelled. It uses floating-point division and `toFixed`.
- The case-insensitive search in the directory picker is not modelled, because it depends on library Unicode casing. The connector, upload and sync forms carry no logic and are also not modelled.
- `databaseConnections` of a knowledge-base node and the database-connection list are not part of this model.
- Optional fields are simplified. An absent `children` or `files` is an empty sequence: every reader in the core treats the two alike. An absent `isShared` or `isTemplate` is `false`: only their truthiness is read.
- `deleteNode` also assigns `node.children` in place on the nodes it keeps. The model computes the same forest as a new value, so it does not capture that the old forest value is mutated as well.
- The knowledge-base management screen's own `findNode` and `buildFileDirectoryTree` are the same code as the tree panel's `findNode` and the data-management `buildDirectoryTree`. Each is modelled once, as `KbForest.Lookup` and `DirectoryTable.BuildDirectoryTree`.
- The row-permission edits copy the array but share the row objects. The model keeps each row a separate object (`Valid()`), as `handleAddRowPermission` creates them, and does not model two list entries aliasing one row.
- Which mock agents appear in each agent tab is not worked out. The tab filters are proved for every agent list.
- Wall-clock values in the mock data (upload times, task times) are carried as opaque strings.

## Findings

| source | as written | input that shows it | evidently intended | confidence | as-written member | corrected member |
|---|---|---|---|---|---|---|
| src/components/RightPanel/KnowledgeBaseTree.tsx:163-167 | The level search starts at the selected node itself (or the top-level node with its id), so `getLevel` always returns 0 and the "at most three levels" warning never fires. | A forest kb > d1 > d2 > d3, adding a directory under d3: the guard passes and the new directory sits four levels below the knowledge base. | Measure the selected node's level in the whole forest and refuse at level 3, so directories stay within three levels. | not executed | KbTreePanel.AsWrittenGuardAdmitsFourthLevel | KbTreePanel.GuardKeepsThreeLevels |
| src/App.tsx:51-80 | The user's id is `Date.now()` and the answer's is `Date.now() + 1`, so the answer of one send and the question of a send one millisecond later share an id; the chat list keys its entries by id. | A send with clock reading t, then a send with clock reading t + 1: both the third and the fourth message of the log have id t + 1. | Every message of the log has its own id. | not executed | AppState.AsWrittenSendsRepeatAnId | AppState.App.SendMessageWithFreshIds |
