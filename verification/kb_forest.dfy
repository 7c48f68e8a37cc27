/**
 * The knowledge-base forest (`KnowledgeBaseNode[]`) and the recursive
 * operations the console runs over it: lookup, rename, cascading delete,
 * append-a-directory, file counting, depth lookup and the projection to the
 * directory-only display tree (src/components/RightPanel/KnowledgeBaseTree.tsx).
 *
 * Every structural fact is stated against the pre-order listing of the forest
 * (`Flatten`, `IdList`): a node comes before its children, and its whole
 * subtree before its next sibling.
 */
module KbForest {
  import opened Common
  import opened Records

  // ---------------------------------------------------------------------------
  // Pre-order views of a forest
  // ---------------------------------------------------------------------------

  /** Every node of the forest in pre-order. */
  function Flatten(ns: seq<KbNode>): seq<KbNode>
  {
    if ns == [] then [] else [ns[0]] + Flatten(ns[0].children) + Flatten(ns[1..])
  }

  /** The ids of the forest in pre-order; an id that occurs twice is listed twice. */
  function IdList(ns: seq<KbNode>): seq<string>
  {
    if ns == [] then [] else [ns[0].id] + IdList(ns[0].children) + IdList(ns[1..])
  }

  /** The ids of a flat list of nodes. */
  function IdsOf(s: seq<KbNode>): (r: seq<string>)
    ensures |r| == |s| && forall i :: 0 <= i < |s| ==> r[i] == s[i].id
  {
    if s == [] then [] else [s[0].id] + IdsOf(s[1..])
  }

  lemma {:induction false} IdsOfAppend(a: seq<KbNode>, b: seq<KbNode>)
    ensures IdsOf(a + b) == IdsOf(a) + IdsOf(b)
  {
    if a == [] {
      assert a + b == b;
    } else {
      assert (a + b)[1..] == a[1..] + b;
      IdsOfAppend(a[1..], b);
    }
  }

  lemma {:induction false} IdListIsIdsOfFlatten(ns: seq<KbNode>)
    ensures IdList(ns) == IdsOf(Flatten(ns))
  {
    if ns != [] {
      IdListIsIdsOfFlatten(ns[0].children);
      IdListIsIdsOfFlatten(ns[1..]);
      IdsOfAppend([ns[0]] + Flatten(ns[0].children), Flatten(ns[1..]));
      IdsOfAppend([ns[0]], Flatten(ns[0].children));
    }
  }

  /** The pre-order listing of a forest is its first tree's listing followed by the rest's. */
  lemma {:induction false} IdListCons(ns: seq<KbNode>)
    requires ns != []
    ensures IdList(ns) == IdList([ns[0]]) + IdList(ns[1..])
  {
    IdListSingle(ns[0]);
  }

  lemma IdListSingle(n: KbNode)
    ensures IdList([n]) == [n.id] + IdList(n.children)
  {
    var one := [n];
    assert one[0] == n && one[1..] == [];
    assert IdList(one) == [n.id] + IdList(n.children) + IdList([]);
  }

  /** How many nodes of the forest carry `id`. */
  function CountId(ns: seq<KbNode>, id: string): nat
  {
    multiset(IdList(ns))[id]
  }

  /** A file is a leaf. */
  predicate FilesAreLeaves(ns: seq<KbNode>)
  {
    ns == [] ||
    ((ns[0].kind == File ==> ns[0].children == []) &&
     FilesAreLeaves(ns[0].children) && FilesAreLeaves(ns[1..]))
  }

  predicate IsFileNode(n: KbNode) { n.kind == File }

  predicate IsContainer(n: KbNode) { n.kind != File }

  // ---------------------------------------------------------------------------
  // countFiles
  // ---------------------------------------------------------------------------

  /** `countFiles`: 1 for a file, otherwise the sum over the children. */
  function CountFiles(n: KbNode): nat
  {
    if n.kind == File then 1 else SumFiles(n.children)
  }

  function SumFiles(ns: seq<KbNode>): nat
  {
    if ns == [] then 0 else CountFiles(ns[0]) + SumFiles(ns[1..])
  }

  /** In a forest whose files are leaves, `countFiles` of a list of nodes is
      the number of file nodes anywhere in their subtrees. */
  lemma {:induction false} SumFilesCountsFileNodes(ns: seq<KbNode>)
    requires FilesAreLeaves(ns)
    ensures SumFiles(ns) == |Filter(Flatten(ns), IsFileNode)|
  {
    if ns != [] {
      var n := ns[0];
      SumFilesCountsFileNodes(n.children);
      SumFilesCountsFileNodes(ns[1..]);
      FilterAppend([n] + Flatten(n.children), Flatten(ns[1..]), IsFileNode);
      FilterAppend([n], Flatten(n.children), IsFileNode);
      if n.kind == File {
        assert Flatten(n.children) == [];
      }
    }
  }

  /** `countFiles(node)` is the number of file nodes in the node's subtree
      (the node itself included); a container with no children counts 0. */
  lemma CountFilesCountsFileNodes(n: KbNode)
    requires FilesAreLeaves([n])
    ensures CountFiles(n) == |Filter(Flatten([n]), IsFileNode)|
    ensures n.kind != File && n.children == [] ==> CountFiles(n) == 0
  {
    SumFilesCountsFileNodes([n]);
    assert [n][1..] == [];
  }

  // ---------------------------------------------------------------------------
  // findNode
  // ---------------------------------------------------------------------------

  /** The first node of a flat list that carries `id`. */
  function FirstWithId(s: seq<KbNode>, id: string): (r: Option<KbNode>)
    ensures r.None? <==> id !in IdsOf(s)
    ensures r.Some? ==> r.value in s && r.value.id == id
  {
    if s == [] then None else if s[0].id == id then Some(s[0]) else FirstWithId(s[1..], id)
  }

  lemma {:induction false} FirstWithIdAppend(a: seq<KbNode>, b: seq<KbNode>, id: string)
    ensures FirstWithId(a + b, id) == if FirstWithId(a, id).Some? then FirstWithId(a, id) else FirstWithId(b, id)
  {
    if a != [] {
      assert (a + b)[1..] == a[1..] + b;
      FirstWithIdAppend(a[1..], b, id);
    } else {
      assert a + b == b;
    }
  }

  /** `findNode`: depth-first search, a node before its children. */
  function Lookup(ns: seq<KbNode>, id: string): (r: Option<KbNode>)
    ensures r.None? <==> id !in IdList(ns)
    ensures r.Some? ==> r.value.id == id
  {
    if ns == [] then None
    else if ns[0].id == id then Some(ns[0])
    else match Lookup(ns[0].children, id)
      case Some(n) => Some(n)
      case None => Lookup(ns[1..], id)
  }

  /** `findNode` returns exactly the first node carrying the id in the
      pre-order listing of the forest, and null only when no node does. */
  lemma {:induction false} LookupIsFirstInPreOrder(ns: seq<KbNode>, id: string)
    ensures Lookup(ns, id) == FirstWithId(Flatten(ns), id)
  {
    if ns != [] {
      LookupIsFirstInPreOrder(ns[0].children, id);
      LookupIsFirstInPreOrder(ns[1..], id);
      FirstWithIdAppend([ns[0]] + Flatten(ns[0].children), Flatten(ns[1..]), id);
      FirstWithIdAppend([ns[0]], Flatten(ns[0].children), id);
    }
  }

  /** The name of the node `findNode` returns. */
  function NameOf(ns: seq<KbNode>, id: string): Option<string>
  {
    match Lookup(ns, id)
    case Some(n) => Some(n.name)
    case None => None
  }

  /** `findNode` as the source writes it: a loop over the list that returns
      at the first hit, recursing into each node's children. */
  method FindNode(nodes: seq<KbNode>, id: string) returns (r: Option<KbNode>)
    ensures r == Lookup(nodes, id)
    ensures r.None? <==> id !in IdList(nodes)
    decreases nodes
  {
    var i := 0;
    while i < |nodes|
      invariant 0 <= i <= |nodes|
      invariant Lookup(nodes, id) == Lookup(nodes[i..], id)
    {
      var node := nodes[i];
      if node.id == id {
        return Some(node);
      }
      var found := FindNode(node.children, id);
      if found.Some? {
        return found;
      }
      assert nodes[i..][1..] == nodes[i + 1..];
      i := i + 1;
    }
    return None;
  }

  // ---------------------------------------------------------------------------
  // updateNode (rename)
  // ---------------------------------------------------------------------------

  /** `updateNode`: every node carrying `id` is replaced by `updater(node)`;
      the search does not continue below a replaced node. */
  function UpdateNode(ns: seq<KbNode>, id: string, updater: KbNode -> KbNode): seq<KbNode>
  {
    if ns == [] then []
    else
      var n := ns[0];
      [if n.id == id then updater(n) else n.(children := UpdateNode(n.children, id, updater))]
      + UpdateNode(ns[1..], id, updater)
  }

  /** The updater `handleRename` passes to `updateNode`. */
  function SetName(newName: string): KbNode -> KbNode
  {
    (n: KbNode) => n.(name := newName)
  }

  function Rename(ns: seq<KbNode>, id: string, newName: string): seq<KbNode>
  {
    UpdateNode(ns, id, SetName(newName))
  }

  /** The forest with every name blanked: what a rename must leave alone. */
  function Anonymize(ns: seq<KbNode>): seq<KbNode>
  {
    if ns == [] then []
    else [ns[0].(name := "", children := Anonymize(ns[0].children))] + Anonymize(ns[1..])
  }

  /** Renaming changes names only: ids, kinds, counts, statuses, the shape of
      the forest and the order of children are all unchanged. */
  lemma {:induction false} RenameKeepsEverythingButNames(ns: seq<KbNode>, id: string, newName: string)
    ensures Anonymize(Rename(ns, id, newName)) == Anonymize(ns)
    ensures IdList(Rename(ns, id, newName)) == IdList(ns)
  {
    if ns != [] {
      RenameKeepsEverythingButNames(ns[0].children, id, newName);
      RenameKeepsEverythingButNames(ns[1..], id, newName);
    }
  }

  /** After renaming, looking up the renamed id yields the new name (if the id
      exists), and every other id still yields its old name. */
  lemma {:induction false} RenameChangesOnlyThatName(ns: seq<KbNode>, id: string, newName: string, x: string)
    ensures NameOf(Rename(ns, id, newName), x) ==
            if x == id && id in IdList(ns) then Some(newName) else NameOf(ns, x)
  {
    if ns != [] {
      var n := ns[0];
      var r := Rename(ns, id, newName);
      assert r[1..] == Rename(ns[1..], id, newName);
      RenameChangesOnlyThatName(ns[1..], id, newName, x);
      if n.id == id {
        assert r[0] == n.(name := newName);
      } else {
        assert r[0] == n.(children := Rename(n.children, id, newName));
        RenameChangesOnlyThatName(n.children, id, newName, x);
      }
    }
  }

  // ---------------------------------------------------------------------------
  // deleteNode
  // ---------------------------------------------------------------------------

  /** `deleteNode`: drop every node carrying `id`, with its whole subtree. */
  function DeleteNode(ns: seq<KbNode>, id: string): seq<KbNode>
  {
    if ns == [] then []
    else if ns[0].id == id then DeleteNode(ns[1..], id)
    else [ns[0].(children := DeleteNode(ns[0].children, id))] + DeleteNode(ns[1..], id)
  }

  /** Deleting an id that does not occur changes nothing. */
  lemma {:induction false} DeleteAbsentIsIdentity(ns: seq<KbNode>, id: string)
    requires id !in IdList(ns)
    ensures DeleteNode(ns, id) == ns
  {
    if ns != [] {
      DeleteAbsentIsIdentity(ns[0].children, id);
      DeleteAbsentIsIdentity(ns[1..], id);
      assert ns == [ns[0].(children := ns[0].children)] + ns[1..];
    }
  }

  /** After `deleteNode` no node carries the id. */
  lemma {:induction false} DeleteRemovesId(ns: seq<KbNode>, id: string)
    ensures id !in IdList(DeleteNode(ns, id))
  {
    if ns != [] {
      DeleteRemovesId(ns[0].children, id);
      DeleteRemovesId(ns[1..], id);
    }
  }

  /** The nodes surviving `deleteNode` keep their original relative order. */
  lemma {:induction false} DeleteKeepsOrder(ns: seq<KbNode>, id: string)
    ensures IsSubsequence(IdList(DeleteNode(ns, id)), IdList(ns))
  {
    if ns != [] {
      DeleteKeepsOrder(ns[0].children, id);
      DeleteKeepsOrder(ns[1..], id);
      DeleteKeepsOrderStep(ns, id);
    }
  }

  lemma {:induction false} DeleteKeepsOrderStep(ns: seq<KbNode>, id: string)
    requires ns != []
    requires IsSubsequence(IdList(DeleteNode(ns[0].children, id)), IdList(ns[0].children))
    requires IsSubsequence(IdList(DeleteNode(ns[1..], id)), IdList(ns[1..]))
    ensures IsSubsequence(IdList(DeleteNode(ns, id)), IdList(ns))
  {
    var n := ns[0];
    var dc, dr := IdList(DeleteNode(n.children, id)), IdList(DeleteNode(ns[1..], id));
    var c, r := IdList(n.children), IdList(ns[1..]);
    assert IdList(ns) == [n.id] + (c + r);
    SubsequenceAppend(dc, c, dr, r);
    if n.id == id {
      SubsequenceSkipPrefix(dr, [n.id] + c, r);
      assert [n.id] + c + r == [n.id] + (c + r);
    } else {
      DeleteKeptRoot(ns, id);
      SubsequenceCons(n.id, dc + dr, c + r);
    }
  }

  /** A root without the id survives `deleteNode` ahead of what is left of
      its children and of the rest. */
  lemma DeleteKeptRoot(ns: seq<KbNode>, id: string)
    requires ns != [] && ns[0].id != id
    ensures IdList(DeleteNode(ns, id)) ==
              [ns[0].id] + (IdList(DeleteNode(ns[0].children, id)) + IdList(DeleteNode(ns[1..], id)))
  {
    var n := ns[0];
    var m := DeleteNode(ns, id);
    assert m[0] == n.(children := DeleteNode(n.children, id)) && m[1..] == DeleteNode(ns[1..], id);
  }

  /** `after` is `all` with the block `blk`, which starts at the first
      occurrence of `x`, cut out. */
  ghost predicate BlockRemoved(all: seq<string>, blk: seq<string>, after: seq<string>, x: string)
  {
    x in all &&
    var k := IndexOf(all, x);
    k + |blk| <= |all| && all[k..k + |blk|] == blk && after == all[..k] + all[k + |blk|..]
  }

  /** The slices of `p + a + q` around a block `a[k..k + m]` of its middle part. */
  lemma ConcatSlices(p: seq<string>, a: seq<string>, q: seq<string>, k: int, m: int)
    requires 0 <= k && 0 <= m && k + m <= |a|
    ensures (p + a + q)[|p| + k..|p| + k + m] == a[k..k + m]
    ensures (p + a + q)[..|p| + k] == p + a[..k]
    ensures (p + a + q)[|p| + k + m..] == a[k + m..] + q
  {
  }

  /** Cutting a block out of the middle part of `p + a + q` leaves `p` and `q` alone. */
  lemma {:induction false} BlockRemovedInContext(p: seq<string>, a: seq<string>, q: seq<string>,
                                                 blk: seq<string>, after: seq<string>, x: string)
    requires BlockRemoved(a, blk, after, x) && x !in p
    ensures BlockRemoved(p + a + q, blk, p + after + q, x)
  {
    var k := IndexOf(a, x);
    var m := |blk|;
    IndexOfInPrefix(a, q, x);
    IndexOfAfterPrefix(p, a + q, x);
    assert p + a + q == p + (a + q);
    ConcatSlices(p, a, q, k, m);
    ContextAroundCut(p, a, q, k, m, after);
  }

  /** What is left of `p + a + q` around the cut is `p`, what is left of `a`, and `q`. */
  lemma ContextAroundCut(p: seq<string>, a: seq<string>, q: seq<string>, k: int, m: int, after: seq<string>)
    requires 0 <= k && 0 <= m && k + m <= |a| && after == a[..k] + a[k + m..]
    ensures p + after + q == (p + a + q)[..|p| + k] + (p + a + q)[|p| + k + m..]
  {
    ConcatSlices(p, a, q, k, m);
    assert p + after + q == (p + a[..k]) + (a[k + m..] + q);
  }

  /** The count of an id in a forest: its root, its children, the rest. */
  lemma CountIdCons(ns: seq<KbNode>, id: string)
    requires ns != []
    ensures IdList(ns) == [ns[0].id] + IdList(ns[0].children) + IdList(ns[1..])
    ensures CountId(ns, id) ==
              (if ns[0].id == id then 1 else 0) + CountId(ns[0].children, id) + CountId(ns[1..], id)
  {
    var h, a, b := [ns[0].id], IdList(ns[0].children), IdList(ns[1..]);
    assert multiset(h + a + b) == multiset(h) + multiset(a) + multiset(b);
  }

  /** A unique id at the first root: its whole tree is the block. */
  lemma DeleteUniqueRoot(ns: seq<KbNode>, id: string)
    requires ns != [] && ns[0].id == id && CountId(ns[1..], id) == 0
    ensures Lookup(ns, id) == Some(ns[0])
    ensures BlockRemoved(IdList(ns), IdList([ns[0]]), IdList(DeleteNode(ns, id)), id)
  {
    DeleteAbsentIsIdentity(ns[1..], id);
    IdListCons(ns);
    assert IdList(ns)[..0] == [];
    assert IdList(ns)[0..|IdList([ns[0]])|] == IdList([ns[0]]);
  }

  /** A unique id below the first root: the block is cut out of its children. */
  lemma DeleteUniqueInChildren(ns: seq<KbNode>, id: string)
    requires ns != [] && ns[0].id != id && CountId(ns[1..], id) == 0
    requires Lookup(ns[0].children, id).Some?
    requires BlockRemoved(IdList(ns[0].children), IdList([Lookup(ns[0].children, id).value]),
                          IdList(DeleteNode(ns[0].children, id)), id)
    ensures Lookup(ns, id) == Lookup(ns[0].children, id)
    ensures BlockRemoved(IdList(ns), IdList([Lookup(ns, id).value]), IdList(DeleteNode(ns, id)), id)
  {
    var n := ns[0];
    DeleteAbsentIsIdentity(ns[1..], id);
    assert IdList(ns) == [n.id] + IdList(n.children) + IdList(ns[1..]);
    var m := DeleteNode(ns, id);
    assert m[0] == n.(children := DeleteNode(n.children, id)) && m[1..] == DeleteNode(ns[1..], id);
    assert IdList(m) == [n.id] + IdList(DeleteNode(n.children, id)) + IdList(ns[1..]);
    BlockRemovedInContext([n.id], IdList(n.children), IdList(ns[1..]), IdList([Lookup(n.children, id).value]),
                          IdList(DeleteNode(n.children, id)), id);
  }

  /** A unique id in a later tree: the block is cut out of the rest. */
  lemma DeleteUniqueInRest(ns: seq<KbNode>, id: string)
    requires ns != [] && ns[0].id != id && CountId(ns[0].children, id) == 0
    requires Lookup(ns[1..], id).Some?
    requires BlockRemoved(IdList(ns[1..]), IdList([Lookup(ns[1..], id).value]), IdList(DeleteNode(ns[1..], id)), id)
    ensures Lookup(ns, id) == Lookup(ns[1..], id)
    ensures BlockRemoved(IdList(ns), IdList([Lookup(ns, id).value]), IdList(DeleteNode(ns, id)), id)
  {
    var n := ns[0];
    var h := [n.id] + IdList(n.children);
    DeleteAbsentIsIdentity(n.children, id);
    assert IdList(ns) == h + IdList(ns[1..]) + [];
    var m := DeleteNode(ns, id);
    assert m[0] == n && m[1..] == DeleteNode(ns[1..], id);
    assert IdList(m) == h + IdList(DeleteNode(ns[1..], id)) + [];
    BlockRemovedInContext(h, IdList(ns[1..]), [], IdList([Lookup(ns[1..], id).value]),
                          IdList(DeleteNode(ns[1..], id)), id);
  }

  /** When the id is unique, `deleteNode` cuts out exactly the contiguous
      pre-order block of the matched node's subtree: every other node
      survives, in its original relative order. */
  lemma {:induction false} DeleteRemovesExactlySubtree(ns: seq<KbNode>, id: string)
    requires CountId(ns, id) == 1
    ensures Lookup(ns, id).Some?
    ensures BlockRemoved(IdList(ns), IdList([Lookup(ns, id).value]), IdList(DeleteNode(ns, id)), id)
  {
    CountIdCons(ns, id);
    if ns[0].id == id {
      DeleteUniqueRoot(ns, id);
    } else if CountId(ns[0].children, id) == 1 {
      DeleteRemovesExactlySubtree(ns[0].children, id);
      DeleteUniqueInChildren(ns, id);
    } else {
      DeleteRemovesExactlySubtree(ns[1..], id);
      DeleteUniqueInRest(ns, id);
    }
  }

  // ---------------------------------------------------------------------------
  // addDirectory
  // ---------------------------------------------------------------------------

  /** The id `addDirectory` gives a new directory: the parent's id, `-dir-`,
      and the creation time stamp. */
  function NewDirectoryId(parentId: string, stamp: string): (r: string)
    ensures |r| > |parentId| && r[..|parentId|] == parentId
  {
    parentId + "-dir-" + stamp
  }

  /** The empty directory `addDirectory` creates. */
  function NewDirectory(id: string, name: string): KbNode
  {
    KbNode(id, name, Directory, [], None, None, Some(0))
  }

  /** `addDirectory`: every non-file node carrying `parentId` gets the new
      directory appended as its last child, and the search does not go below
      it; every other node is rebuilt with its children searched. */
  function AddDirectory(ns: seq<KbNode>, parentId: string, name: string, stamp: string): seq<KbNode>
  {
    if ns == [] then []
    else
      var n := ns[0];
      [if n.id == parentId && n.kind != File
       then n.(children := n.children + [NewDirectory(NewDirectoryId(parentId, stamp), name)])
       else n.(children := AddDirectory(n.children, parentId, name, stamp))]
      + AddDirectory(ns[1..], parentId, name, stamp)
  }

  /** Some non-file node of the forest carries `id`. */
  predicate HasContainerWithId(ns: seq<KbNode>, id: string)
  {
    ns != [] &&
    ((ns[0].id == id && ns[0].kind != File) ||
     HasContainerWithId(ns[0].children, id) || HasContainerWithId(ns[1..], id))
  }

  /** `HasContainerWithId` asks exactly whether the pre-order listing holds a
      non-file node with the id. */
  lemma {:induction false} HasContainerWithIdMeans(ns: seq<KbNode>, id: string)
    ensures HasContainerWithId(ns, id) <==> exists n :: n in Flatten(ns) && n.id == id && n.kind != File
  {
    if ns != [] {
      HasContainerWithIdMeans(ns[0].children, id);
      HasContainerWithIdMeans(ns[1..], id);
      assert Flatten(ns) == [ns[0]] + Flatten(ns[0].children) + Flatten(ns[1..]);
    }
  }

  /** When no non-file node carries the parent id (it is absent, or names only
      files), `addDirectory` leaves the forest unchanged. */
  lemma {:induction false} AddDirectoryWithoutParentIsIdentity(ns: seq<KbNode>, parentId: string, name: string, stamp: string)
    requires !HasContainerWithId(ns, parentId)
    ensures AddDirectory(ns, parentId, name, stamp) == ns
  {
    if ns != [] {
      AddDirectoryWithoutParentIsIdentity(ns[0].children, parentId, name, stamp);
      AddDirectoryWithoutParentIsIdentity(ns[1..], parentId, name, stamp);
      assert ns == [ns[0].(children := ns[0].children)] + ns[1..];
    }
  }

  lemma {:induction false} AbsentIdHasNoContainer(ns: seq<KbNode>, id: string)
    requires id !in IdList(ns)
    ensures !HasContainerWithId(ns, id)
  {
    if ns != [] {
      AbsentIdHasNoContainer(ns[0].children, id);
      AbsentIdHasNoContainer(ns[1..], id);
    }
  }

  lemma {:induction false} DeleteAppend(a: seq<KbNode>, b: seq<KbNode>, id: string)
    ensures DeleteNode(a + b, id) == DeleteNode(a, id) + DeleteNode(b, id)
  {
    if a != [] {
      assert (a + b)[0] == a[0] && (a + b)[1..] == a[1..] + b;
      DeleteAppend(a[1..], b, id);
    } else {
      assert a + b == b;
    }
  }

  /** Deleting the freshly added directory gives back the original forest:
      `addDirectory` changes nothing but the appended child. */
  lemma {:induction false} DeleteUndoesAddDirectory(ns: seq<KbNode>, parentId: string, name: string, stamp: string)
    requires NewDirectoryId(parentId, stamp) !in IdList(ns)
    ensures DeleteNode(AddDirectory(ns, parentId, name, stamp), NewDirectoryId(parentId, stamp)) == ns
  {
    if ns != [] {
      var n := ns[0];
      var newId := NewDirectoryId(parentId, stamp);
      var r := AddDirectory(ns, parentId, name, stamp);
      assert r[1..] == AddDirectory(ns[1..], parentId, name, stamp);
      DeleteUndoesAddDirectory(ns[1..], parentId, name, stamp);
      assert n.id != newId;
      if n.id == parentId && n.kind != File {
        assert r[0] == n.(children := n.children + [NewDirectory(newId, name)]);
        DeleteAppend(n.children, [NewDirectory(newId, name)], newId);
        DeleteAbsentIsIdentity(n.children, newId);
        assert DeleteNode([NewDirectory(newId, name)], newId) == [];
        assert DeleteNode(r[0].children, newId) == n.children + [];
      } else {
        assert r[0] == n.(children := AddDirectory(n.children, parentId, name, stamp));
        DeleteUndoesAddDirectory(n.children, parentId, name, stamp);
      }
      assert DeleteNode(r[0].children, newId) == n.children;
      assert DeleteNode(r, newId) == [r[0].(children := DeleteNode(r[0].children, newId))] + DeleteNode(r[1..], newId);
      assert ns == [n.(children := n.children)] + ns[1..];
    }
  }

  /** `findNode` on the parent id now sees the new directory as the last child
      of the node it finds, when that node is not a file; a file it finds
      keeps every child it has (files have none in the console's data). */
  lemma {:induction false} AddDirectoryAppendsToFoundParent(ns: seq<KbNode>, parentId: string, name: string, stamp: string)
    ensures Lookup(AddDirectory(ns, parentId, name, stamp), parentId) ==
            match Lookup(ns, parentId)
            case None => None
            case Some(n) =>
              if n.kind != File
              then Some(n.(children := n.children + [NewDirectory(NewDirectoryId(parentId, stamp), name)]))
              else Some(n.(children := AddDirectory(n.children, parentId, name, stamp)))
  {
    if ns != [] {
      var n := ns[0];
      var r := AddDirectory(ns, parentId, name, stamp);
      assert r[1..] == AddDirectory(ns[1..], parentId, name, stamp);
      AddDirectoryAppendsToFoundParent(ns[1..], parentId, name, stamp);
      if n.id != parentId {
        assert r[0] == n.(children := AddDirectory(n.children, parentId, name, stamp));
        AddDirectoryAppendsToFoundParent(n.children, parentId, name, stamp);
      }
    }
  }

  // ---------------------------------------------------------------------------
  // getLevel
  // ---------------------------------------------------------------------------

  /** `getLevel` over a list of sibling trees: the level of the first node,
      in pre-order, that carries `id`, counting `level` at the list and one
      more per descent; -1 when no node carries it. `getLevel(node, id, l)`
      is `Level([node], id, l)`. */
  function Level(ns: seq<KbNode>, id: string, level: nat): int
  {
    if ns == [] then -1
    else if ns[0].id == id then level
    else
      var found := Level(ns[0].children, id, level + 1);
      if found != -1 then found else Level(ns[1..], id, level)
  }

  /** The depth of every node of the forest, listed in pre-order alongside `IdList`. */
  function Depths(ns: seq<KbNode>, level: nat): (r: seq<nat>)
    ensures |r| == |IdList(ns)|
  {
    if ns == [] then []
    else [level] + Depths(ns[0].children, level + 1) + Depths(ns[1..], level)
  }

  /** `getLevel` is -1 exactly for an absent id; otherwise it is the depth of
      the id's first pre-order occurrence, counted from the starting level. */
  lemma {:induction false} LevelIsDepthOfFirstOccurrence(ns: seq<KbNode>, id: string, level: nat)
    ensures Level(ns, id, level) == -1 <==> id !in IdList(ns)
    ensures id in IdList(ns) ==> Level(ns, id, level) == Depths(ns, level)[IndexOf(IdList(ns), id)]
  {
    if ns != [] {
      var n := ns[0];
      assert IdList(ns) == [n.id] + IdList(n.children) + IdList(ns[1..]);
      LevelIsDepthOfFirstOccurrence(n.children, id, level + 1);
      LevelIsDepthOfFirstOccurrence(ns[1..], id, level);
      if n.id != id && id in IdList(n.children) {
        LevelInChildren(ns, id, level);
      } else if n.id != id && id in IdList(ns[1..]) {
        LevelInLaterTrees(ns, id, level);
      }
    }
  }

  lemma LevelInChildren(ns: seq<KbNode>, id: string, level: nat)
    requires ns != [] && ns[0].id != id && id in IdList(ns[0].children)
    requires Level(ns[0].children, id, level + 1) != -1
    requires Level(ns[0].children, id, level + 1) ==
             Depths(ns[0].children, level + 1)[IndexOf(IdList(ns[0].children), id)]
    ensures id in IdList(ns) && Level(ns, id, level) == Depths(ns, level)[IndexOf(IdList(ns), id)]
  {
    assert Level(ns, id, level) == Level(ns[0].children, id, level + 1);
    var n := ns[0];
    assert IdList(ns) == [n.id] + IdList(n.children) + IdList(ns[1..]);
    assert Depths(ns, level) == [level] + Depths(n.children, level + 1) + Depths(ns[1..], level);
    ParallelIndexInMiddle([n.id], IdList(n.children), IdList(ns[1..]),
                          [level], Depths(n.children, level + 1), Depths(ns[1..], level), id);
  }

  lemma LevelInLaterTrees(ns: seq<KbNode>, id: string, level: nat)
    requires ns != [] && ns[0].id != id && id !in IdList(ns[0].children) && id in IdList(ns[1..])
    requires Level(ns[0].children, id, level + 1) == -1
    requires Level(ns[1..], id, level) == Depths(ns[1..], level)[IndexOf(IdList(ns[1..]), id)]
    ensures id in IdList(ns) && Level(ns, id, level) == Depths(ns, level)[IndexOf(IdList(ns), id)]
  {
    assert Level(ns, id, level) == Level(ns[1..], id, level);
    var n := ns[0];
    assert IdList(ns) == [n.id] + IdList(n.children) + IdList(ns[1..]);
    assert Depths(ns, level) == [level] + Depths(n.children, level + 1) + Depths(ns[1..], level);
    ParallelIndexInLast([n.id], IdList(n.children), IdList(ns[1..]),
                        [level], Depths(n.children, level + 1), Depths(ns[1..], level), id);
  }

  /** A found level is never below the starting level. */
  lemma {:induction false} LevelAtLeastStart(ns: seq<KbNode>, id: string, level: nat)
    ensures Level(ns, id, level) == -1 || Level(ns, id, level) >= level
  {
    if ns != [] {
      LevelAtLeastStart(ns[0].children, id, level + 1);
      LevelAtLeastStart(ns[1..], id, level);
    }
  }

  /** `getLevel(node, id, level)` as the source writes it: an early return at
      the node itself, then a loop over the children that returns the first
      result other than -1. */
  method GetLevel(node: KbNode, id: string, level: nat) returns (r: int)
    ensures r == Level([node], id, level)
    decreases node
  {
    assert [node][1..] == [];
    if node.id == id {
      return level;
    }
    var i := 0;
    while i < |node.children|
      invariant 0 <= i <= |node.children|
      invariant Level(node.children, id, level + 1) == Level(node.children[i..], id, level + 1)
    {
      var found := GetLevel(node.children[i], id, level + 1);
      if found != -1 {
        return found;
      }
      assert node.children[i..][1..] == node.children[i + 1..];
      i := i + 1;
    }
    return -1;
  }

  lemma {:induction false} LevelAbsent(ns: seq<KbNode>, id: string, level: nat)
    requires id !in IdList(ns)
    ensures Level(ns, id, level) == -1
  {
    if ns != [] {
      LevelAbsent(ns[0].children, id, level + 1);
      LevelAbsent(ns[1..], id, level);
    }
  }

  lemma {:induction false} LevelAppend(a: seq<KbNode>, b: seq<KbNode>, id: string, level: nat)
    ensures Level(a + b, id, level) ==
            if Level(a, id, level) != -1 then Level(a, id, level) else Level(b, id, level)
  {
    if a != [] {
      assert (a + b)[0] == a[0] && (a + b)[1..] == a[1..] + b;
      LevelAppend(a[1..], b, id, level);
    } else {
      assert a + b == b;
    }
  }

  /** The directory `addDirectory` creates sits one level below the first
      occurrence of its parent, when that occurrence is not a file. */
  lemma {:induction false} AddedDirectoryLevel(ns: seq<KbNode>, parentId: string, name: string, stamp: string, level: nat)
    requires NewDirectoryId(parentId, stamp) !in IdList(ns)
    requires Lookup(ns, parentId).Some? && Lookup(ns, parentId).value.kind != File
    ensures Level(AddDirectory(ns, parentId, name, stamp), NewDirectoryId(parentId, stamp), level) ==
            Level(ns, parentId, level) + 1
  {
    var n := ns[0];
    var newId := NewDirectoryId(parentId, stamp);
    var d := NewDirectory(newId, name);
    var r := AddDirectory(ns, parentId, name, stamp);
    assert r[1..] == AddDirectory(ns[1..], parentId, name, stamp);
    assert n.id != newId;
    if n.id == parentId {
      assert r[0] == n.(children := n.children + [d]);
      LevelAppend(n.children, [d], newId, level + 1);
      LevelAbsent(n.children, newId, level + 1);
      assert Level([d], newId, level + 1) == level + 1;
    } else {
      assert r[0] == n.(children := AddDirectory(n.children, parentId, name, stamp));
      if Lookup(n.children, parentId).Some? {
        AddedDirectoryLevel(n.children, parentId, name, stamp, level + 1);
        LevelIsDepthOfFirstOccurrence(n.children, parentId, level + 1);
      } else {
        AbsentIdHasNoContainer(n.children, parentId);
        AddDirectoryWithoutParentIsIdentity(n.children, parentId, name, stamp);
        LevelAbsent(n.children, newId, level + 1);
        LevelAbsent(n.children, parentId, level + 1);
        AddedDirectoryLevel(ns[1..], parentId, name, stamp, level);
      }
    }
  }

  // ---------------------------------------------------------------------------
  // convertToTreeData
  // ---------------------------------------------------------------------------

  /** One entry of the display tree: the node's key, and what its title shows
      (the icon follows `kind`, the file count is shown for directories only,
      the badge follows `status`). `children` is absent for a node without
      children and otherwise lists the converted non-file children. */
  datatype TreeEntry = TreeEntry(
    key: string,
    name: string,
    kind: NodeType,
    shownCount: Option<int>,
    status: Option<KbStatus>,
    children: EntryChildren)

  /** The `children` of a display entry: `undefined`, or a list. */
  datatype EntryChildren = NoChildren | ChildEntries(entries: seq<TreeEntry>)

  /** The count a node's title shows: the preset `fileCount` when defined,
      otherwise `countFiles`. */
  function ShownCount(n: KbNode): int
  {
    match n.fileCount
    case Some(c) => c
    case None => CountFiles(n)
  }

  /** The display entry of one node. */
  function ConvertNode(n: KbNode): TreeEntry
    decreases n, 1
  {
    TreeEntry(n.id, n.name, n.kind,
              if n.kind == Directory then Some(ShownCount(n)) else None,
              n.status,
              if |n.children| > 0 then ChildEntries(ConvertContainers(n.children)) else NoChildren)
  }

  /** `convertToTreeData(children.filter(child => child.type !== 'file'))`. */
  function ConvertContainers(cs: seq<KbNode>): seq<TreeEntry>
    decreases cs, 0
  {
    if cs == [] then []
    else if cs[0].kind == File then ConvertContainers(cs[1..])
    else [ConvertNode(cs[0])] + ConvertContainers(cs[1..])
  }

  /** `convertToTreeData`: the top-level list is converted as it is. */
  function ConvertToTreeData(ns: seq<KbNode>): (r: seq<TreeEntry>)
    ensures |r| == |ns|
    ensures forall i :: 0 <= i < |ns| ==> r[i].key == ns[i].id
  {
    if ns == [] then [] else [ConvertNode(ns[0])] + ConvertToTreeData(ns[1..])
  }

  /** The keys of a display tree in pre-order. */
  function Keys(es: seq<TreeEntry>): seq<string>
  {
    if es == [] then [] else [es[0].key] + ChildKeys(es[0]) + Keys(es[1..])
  }

  function ChildKeys(e: TreeEntry): seq<string>
  {
    match e.children
    case NoChildren => []
    case ChildEntries(c) => Keys(c)
  }

  lemma {:induction false} KeysCons(e: TreeEntry, es: seq<TreeEntry>)
    ensures Keys([e] + es) == [e.key] + ChildKeys(e) + Keys(es)
  {
    assert ([e] + es)[0] == e && ([e] + es)[1..] == es;
  }

  /** The inner filter of `convertToTreeData` drops exactly the file children. */
  lemma {:induction false} ConvertContainersIsFilterThenConvert(cs: seq<KbNode>)
    ensures ConvertContainers(cs) == ConvertToTreeData(Filter(cs, IsContainer))
  {
    if cs != [] {
      ConvertContainersIsFilterThenConvert(cs[1..]);
      if cs[0].kind != File {
        var f := Filter(cs, IsContainer);
        assert f == [cs[0]] + Filter(cs[1..], IsContainer);
        assert f[0] == cs[0] && f[1..] == Filter(cs[1..], IsContainer);
      }
    }
  }

  /** Below the top level the display tree holds one entry per non-file node
      and nothing else, keyed by its id, in pre-order: when files are leaves,
      its keys are the ids of the forest's non-file nodes, in order. */
  lemma {:induction false} DisplayKeysAreContainerIds(ns: seq<KbNode>)
    requires FilesAreLeaves(ns)
    ensures Keys(ConvertContainers(ns)) == IdsOf(Filter(Flatten(ns), IsContainer))
  {
    if ns != [] {
      var n := ns[0];
      DisplayKeysAreContainerIds(n.children);
      DisplayKeysAreContainerIds(ns[1..]);
      ContainerIdsCons(ns);
      if n.kind != File {
        KeysCons(ConvertNode(n), ConvertContainers(ns[1..]));
        assert ChildKeys(ConvertNode(n)) == Keys(ConvertContainers(n.children));
      }
    }
  }

  /** The container ids of a forest: the first root's own id when it is not a
      file, then those below it, then those of the later trees. */
  lemma ContainerIdsCons(ns: seq<KbNode>)
    requires ns != [] && FilesAreLeaves(ns)
    ensures IdsOf(Filter(Flatten(ns), IsContainer)) ==
            (if ns[0].kind == File then [] else [ns[0].id]) +
            IdsOf(Filter(Flatten(ns[0].children), IsContainer)) +
            IdsOf(Filter(Flatten(ns[1..]), IsContainer))
  {
    var n := ns[0];
    var below, later := Filter(Flatten(n.children), IsContainer), Filter(Flatten(ns[1..]), IsContainer);
    FilterAppend([n] + Flatten(n.children), Flatten(ns[1..]), IsContainer);
    FilterAppend([n], Flatten(n.children), IsContainer);
    FilterCons(n, [], IsContainer);
    assert [n] + [] == [n];
    IdsOfAppend(Filter([n], IsContainer) + below, later);
    IdsOfAppend(Filter([n], IsContainer), below);
  }

  /** A forest whose top level holds only knowledge bases and directories is
      displayed exactly as its non-file nodes. */
  lemma DisplayOfContainerForest(ns: seq<KbNode>)
    requires FilesAreLeaves(ns)
    requires forall i :: 0 <= i < |ns| ==> ns[i].kind != File
    ensures ConvertToTreeData(ns) == ConvertContainers(ns)
    ensures Keys(ConvertToTreeData(ns)) == IdsOf(Filter(Flatten(ns), IsContainer))
  {
    ConvertContainersIsFilterThenConvert(ns);
    assert Filter(ns, IsContainer) == ns by { FilterKeepsEverything(ns, IsContainer); }
    DisplayKeysAreContainerIds(ns);
  }

  /** A directory's title shows its preset count, or else the number of file
      nodes below it; knowledge bases and files show none. */
  lemma ShownCountOfEntry(n: KbNode)
    requires FilesAreLeaves([n])
    ensures ConvertNode(n).shownCount ==
            if n.kind != Directory then None
            else if n.fileCount.Some? then Some(n.fileCount.value)
            else Some(|Filter(Flatten([n]), IsFileNode)|)
  {
    CountFilesCountsFileNodes(n);
  }

  // ---------------------------------------------------------------------------
  // getMenuItems
  // ---------------------------------------------------------------------------

  datatype MenuAction = AddDirectoryItem | RenameItem | DeleteItem

  /** `getMenuItems`: knowledge bases and directories offer add, rename and
      delete, in that order; files offer nothing. */
  function MenuItems(n: KbNode): (r: seq<MenuAction>)
    ensures r == [] <==> n.kind == File
    ensures r != [] ==> r == [AddDirectoryItem, RenameItem, DeleteItem]
  {
    match n.kind
    case KnowledgeBase => [AddDirectoryItem, RenameItem, DeleteItem]
    case Directory => [AddDirectoryItem, RenameItem, DeleteItem]
    case File => []
  }
}
