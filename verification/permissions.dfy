/**
 * The permission screen (src/components/CenterPanel/PermissionManagement.tsx):
 * the list of knowledge-base directories with their " / "-joined paths, and
 * the "assign permission" dialog with its user selection, its column
 * (field-visibility) settings and its row-filter conditions. Row conditions
 * are objects that the edit handlers change in place.
 */
module Permissions {
  import opened Common
  import opened Records
  import opened KbForest

  // ---------------------------------------------------------------------------
  // extractDirectories
  // ---------------------------------------------------------------------------

  /** One entry of the directory selector. */
  datatype DirectoryOption = DirectoryOption(id: string, name: string, fullPath: string, kbName: string)

  /** The path of a directory: below another directory it extends that
      directory's path; at the first level (empty parent path) it starts
      from the knowledge base's name. */
  function FullPath(kbName: string, parentPath: string, name: string): (r: string)
    ensures r == (if parentPath == "" then kbName else parentPath) + " / " + name
    ensures r != ""
  {
    if parentPath != "" then parentPath + " / " + name else kbName + " / " + name
  }

  /** The entries `extractDirectories` pushes for a list of nodes: each
      directory, then the directories below it; a node that is not a
      directory is skipped together with everything below it. */
  function DirectoryOptions(ns: seq<KbNode>, kbName: string, parentPath: string): seq<DirectoryOption>
  {
    if ns == [] then []
    else
      var rest := DirectoryOptions(ns[1..], kbName, parentPath);
      if ns[0].kind == Directory then
        var path := FullPath(kbName, parentPath, ns[0].name);
        [DirectoryOption(ns[0].id, ns[0].name, path, kbName)]
        + DirectoryOptions(ns[0].children, kbName, path) + rest
      else rest
  }

  /** The whole selector: the directories under each knowledge base in turn. */
  function AllDirectories(kbs: seq<KbNode>): seq<DirectoryOption>
  {
    if kbs == [] then [] else DirectoryOptions(kbs[0].children, kbs[0].name, "") + AllDirectories(kbs[1..])
  }

  lemma {:induction false} DirectoryOptionsAppend(a: seq<KbNode>, b: seq<KbNode>, kbName: string, parentPath: string)
    ensures DirectoryOptions(a + b, kbName, parentPath) ==
            DirectoryOptions(a, kbName, parentPath) + DirectoryOptions(b, kbName, parentPath)
  {
    if a != [] {
      assert (a + b)[0] == a[0] && (a + b)[1..] == a[1..] + b;
      DirectoryOptionsAppend(a[1..], b, kbName, parentPath);
    } else {
      assert a + b == b;
    }
  }

  lemma DirectoryOptionsOfOne(n: KbNode, kbName: string, parentPath: string)
    ensures DirectoryOptions([n], kbName, parentPath) ==
            if n.kind == Directory then
              var path := FullPath(kbName, parentPath, n.name);
              [DirectoryOption(n.id, n.name, path, kbName)] + DirectoryOptions(n.children, kbName, path)
            else []
  {
    assert [n][0] == n && [n][1..] == [];
  }

  /** `extractDirectories` as the source writes it: a loop over the nodes that
      pushes each directory onto the accumulator and recurses into it. */
  method ExtractDirectories(nodes: seq<KbNode>, kbName: string, parentPath: string, acc: seq<DirectoryOption>)
    returns (out: seq<DirectoryOption>)
    ensures out == acc + DirectoryOptions(nodes, kbName, parentPath)
    decreases nodes
  {
    out := acc;
    var i := 0;
    while i < |nodes|
      invariant 0 <= i <= |nodes|
      invariant out == acc + DirectoryOptions(nodes[..i], kbName, parentPath)
    {
      var node := nodes[i];
      assert nodes[..i + 1] == nodes[..i] + [node];
      DirectoryOptionsAppend(nodes[..i], [node], kbName, parentPath);
      DirectoryOptionsOfOne(node, kbName, parentPath);
      if node.kind == Directory {
        var fullPath := if parentPath != "" then parentPath + " / " + node.name else kbName + " / " + node.name;
        out := out + [DirectoryOption(node.id, node.name, fullPath, kbName)];
        out := ExtractDirectories(node.children, kbName, fullPath, out);
      }
      i := i + 1;
    }
    assert nodes[..|nodes|] == nodes;
  }

  /** The `useMemo` that calls `extractDirectories` for each knowledge base. */
  method CollectDirectories(kbs: seq<KbNode>) returns (dirs: seq<DirectoryOption>)
    ensures dirs == AllDirectories(kbs)
  {
    dirs := [];
    var i := 0;
    while i < |kbs|
      invariant 0 <= i <= |kbs|
      invariant dirs + AllDirectories(kbs[i..]) == AllDirectories(kbs)
    {
      assert kbs[i..][1..] == kbs[i + 1..];
      dirs := ExtractDirectories(kbs[i].children, kbs[i].name, "", dirs);
      i := i + 1;
    }
  }

  /** A forest of the usual shape: knowledge bases only at the top, so no
      node below the top is one, and files have no children. */
  ghost predicate BelowTopShape(ns: seq<KbNode>)
  {
    forall n :: n in Flatten(ns) ==> n.kind != KnowledgeBase && (n.kind == File ==> n.children == [])
  }

  predicate IsDirectoryNode(n: KbNode) { n.kind == Directory }

  function OptionIds(os: seq<DirectoryOption>): (r: seq<string>)
    ensures |r| == |os| && forall k :: 0 <= k < |os| ==> r[k] == os[k].id
  {
    if os == [] then [] else [os[0].id] + OptionIds(os[1..])
  }

  lemma {:induction false} OptionIdsAppend(a: seq<DirectoryOption>, b: seq<DirectoryOption>)
    ensures OptionIds(a + b) == OptionIds(a) + OptionIds(b)
  {
    if a == [] {
      assert a + b == b;
    } else {
      assert (a + b)[1..] == a[1..] + b;
      OptionIdsAppend(a[1..], b);
    }
  }

  /** Below a knowledge base of the usual shape, the selector lists exactly the
      directory nodes, in pre-order: no file and no knowledge base. */
  lemma {:induction false} OptionsAreDirectoriesInPreOrder(ns: seq<KbNode>, kbName: string, parentPath: string)
    requires BelowTopShape(ns)
    ensures OptionIds(DirectoryOptions(ns, kbName, parentPath)) == IdsOf(Filter(Flatten(ns), IsDirectoryNode))
  {
    if ns != [] {
      var n := ns[0];
      var flat := Flatten(ns);
      assert flat == [n] + Flatten(n.children) + Flatten(ns[1..]);
      assert BelowTopShape(n.children) && BelowTopShape(ns[1..]);
      FilterAppend([n] + Flatten(n.children), Flatten(ns[1..]), IsDirectoryNode);
      FilterAppend([n], Flatten(n.children), IsDirectoryNode);
      assert [n][1..] == [];
      var path := FullPath(kbName, parentPath, n.name);
      OptionsAreDirectoriesInPreOrder(n.children, kbName, path);
      OptionsAreDirectoriesInPreOrder(ns[1..], kbName, parentPath);
      if n.kind == Directory {
        var head := [DirectoryOption(n.id, n.name, path, kbName)];
        OptionIdsAppend(head + DirectoryOptions(n.children, kbName, path), DirectoryOptions(ns[1..], kbName, parentPath));
        OptionIdsAppend(head, DirectoryOptions(n.children, kbName, path));
        IdsOfAppend([n] + Filter(Flatten(n.children), IsDirectoryNode), Filter(Flatten(ns[1..]), IsDirectoryNode));
        IdsOfAppend([n], Filter(Flatten(n.children), IsDirectoryNode));
      } else {
        assert n.kind == File && Flatten(n.children) == [];
      }
    }
  }

  /** Every path either extends `base` by the directory's name (a first-level
      entry) or extends the path of an EARLIER entry by it (its parent). */
  predicate PathsLinked(os: seq<DirectoryOption>, base: string)
  {
    forall k :: 0 <= k < |os| ==>
      os[k].fullPath == base + " / " + os[k].name ||
      exists j :: 0 <= j < k && os[k].fullPath == os[j].fullPath + " / " + os[k].name
  }

  lemma PathsLinkedAppend(a: seq<DirectoryOption>, b: seq<DirectoryOption>, base: string)
    requires PathsLinked(a, base) && PathsLinked(b, base)
    ensures PathsLinked(a + b, base)
  {
    var ab := a + b;
    forall k | 0 <= k < |ab|
      ensures ab[k].fullPath == base + " / " + ab[k].name ||
              exists j :: 0 <= j < k && ab[k].fullPath == ab[j].fullPath + " / " + ab[k].name
    {
      if k >= |a| {
        assert ab[k] == b[k - |a|];
        if b[k - |a|].fullPath != base + " / " + b[k - |a|].name {
          var j :| 0 <= j < k - |a| && b[k - |a|].fullPath == b[j].fullPath + " / " + b[k - |a|].name;
          assert ab[j + |a|] == b[j];
        }
      } else {
        assert ab[k] == a[k];
        if a[k].fullPath != base + " / " + a[k].name {
          var j :| 0 <= j < k && a[k].fullPath == a[j].fullPath + " / " + a[k].name;
          assert ab[j] == a[j];
        }
      }
    }
  }

  lemma PathsLinkedUnder(head: DirectoryOption, sub: seq<DirectoryOption>, base: string)
    requires head.fullPath == base + " / " + head.name
    requires PathsLinked(sub, head.fullPath)
    ensures PathsLinked([head] + sub, base)
  {
    var hs := [head] + sub;
    forall k | 0 < k < |hs|
      ensures exists j :: 0 <= j < k && hs[k].fullPath == hs[j].fullPath + " / " + hs[k].name
    {
      assert hs[k] == sub[k - 1];
      if sub[k - 1].fullPath == head.fullPath + " / " + sub[k - 1].name {
        assert hs[0] == head;
      } else {
        var j :| 0 <= j < k - 1 && sub[k - 1].fullPath == sub[j].fullPath + " / " + sub[k - 1].name;
        assert hs[j + 1] == sub[j];
      }
    }
  }

  /** A first-level directory's path is `<knowledge base> / <name>`; a deeper
      directory's is the path of an earlier entry, its parent, then ` / `
      and its name; every entry carries the knowledge base's name. */
  lemma {:induction false} DirectoryPathsExtendParents(ns: seq<KbNode>, kbName: string, parentPath: string)
    ensures PathsLinked(DirectoryOptions(ns, kbName, parentPath), if parentPath == "" then kbName else parentPath)
    ensures forall k :: 0 <= k < |DirectoryOptions(ns, kbName, parentPath)| ==>
              DirectoryOptions(ns, kbName, parentPath)[k].kbName == kbName
  {
    if ns != [] {
      var base := if parentPath == "" then kbName else parentPath;
      var n := ns[0];
      DirectoryPathsExtendParents(ns[1..], kbName, parentPath);
      if n.kind == Directory {
        var path := FullPath(kbName, parentPath, n.name);
        var head := DirectoryOption(n.id, n.name, path, kbName);
        DirectoryPathsExtendParents(n.children, kbName, path);
        PathsLinkedUnder(head, DirectoryOptions(n.children, kbName, path), base);
        PathsLinkedAppend([head] + DirectoryOptions(n.children, kbName, path),
                          DirectoryOptions(ns[1..], kbName, parentPath), base);
      }
    }
  }

  // ---------------------------------------------------------------------------
  // The assign-permission dialog
  // ---------------------------------------------------------------------------

  /** The directory whose structured data allows row and column permissions. */
  const RevenueDirectoryId: string := "kb1-dir2"

  datatype FieldType = DateField | NumberField | TextField

  datatype TableField = TableField(id: string, name: string, fieldType: FieldType, visible: bool)

  /** The columns of the revenue table. */
  const FinancialTableFields: seq<TableField> := [
    TableField("date", "日期", DateField, true),
    TableField("sales", "销售额", NumberField, true),
    TableField("cost", "成本", NumberField, true),
    TableField("profit", "利润", NumberField, true),
    TableField("region", "销售区域", TextField, true),
    TableField("product", "产品类别", TextField, true),
    TableField("customer", "客户名称", TextField, true),
    TableField("orderNo", "订单号", TextField, true),
    TableField("salesperson", "销售人员", TextField, true),
    TableField("payment", "付款方式", TextField, true)
  ]

  function FieldIds(fs: seq<TableField>): (r: seq<string>)
    ensures |r| == |fs| && forall k :: 0 <= k < |fs| ==> r[k] == fs[k].id
  {
    seq(|fs|, k requires 0 <= k < |fs| => fs[k].id)
  }

  /** The preselection for the revenue directory: all ten columns, each once. */
  lemma FinancialFieldsAreTenDistinct()
    ensures FieldIds(FinancialTableFields) ==
            ["date", "sales", "cost", "profit", "region", "product", "customer", "orderNo", "salesperson", "payment"]
    ensures Distinct(FieldIds(FinancialTableFields))
  {
    var ids := FieldIds(FinancialTableFields);
    assert ids == ["date", "sales", "cost", "profit", "region", "product", "customer", "orderNo", "salesperson", "payment"];
  }

  /** `handleFieldVisibilityChange` on a list of visible field ids: showing
      appends without a membership test, hiding drops every occurrence. */
  function FieldVisibility(fields: seq<string>, fieldId: string, visible: bool): (r: seq<string>)
    ensures visible ==> |r| == |fields| + 1 && r[..|fields|] == fields &&
                        multiset(r) == multiset(fields) + multiset{fieldId}
    ensures !visible ==> fieldId !in r && IsSubsequence(r, fields) &&
                         forall x :: x != fieldId ==> multiset(r)[x] == multiset(fields)[x]
  {
    if visible then fields + [fieldId]
    else
      FilterMultiplicity(fields, (x: string) => x != fieldId);
      Filter(fields, (x: string) => x != fieldId)
  }

  /** Showing a field that is already visible lists it twice. */
  lemma ShowingTwiceDuplicates(fields: seq<string>, fieldId: string)
    requires fieldId in fields
    ensures multiset(FieldVisibility(fields, fieldId, true))[fieldId] >= 2
  {
  }

  /** Hiding undoes showing, and removes any earlier copies as well. */
  lemma HideAfterShow(fields: seq<string>, fieldId: string)
    ensures FieldVisibility(FieldVisibility(fields, fieldId, true), fieldId, false) ==
            FieldVisibility(fields, fieldId, false)
    ensures fieldId !in fields ==> FieldVisibility(FieldVisibility(fields, fieldId, true), fieldId, false) == fields
  {
    var p := (x: string) => x != fieldId;
    FilterAppend(fields, [fieldId], p);
    assert Filter([fieldId], p) == [];
    if fieldId !in fields {
      FilterKeepsEverything(fields, p);
    }
  }

  /** `handleRemoveRowPermission`: drops the row at the index; an index that
      names no row drops nothing. */
  function RemoveAt<T>(s: seq<T>, index: int): (r: seq<T>)
    ensures 0 <= index < |s| ==>
              (|r| == |s| - 1 &&
               (forall k :: 0 <= k < index ==> r[k] == s[k]) &&
               (forall k :: index <= k < |r| ==> r[k] == s[k + 1]))
    ensures !(0 <= index < |s|) ==> r == s
  {
    if 0 <= index < |s| then s[..index] + s[index + 1..] else s
  }

  datatype RowOperator = EqualsOp | NotEqualsOp | InOp | NotInOp

  /** A row-level condition; the dialog's edit handlers change it in place. */
  class RowPermission {
    var field: string
    var operator: RowOperator
    var values: seq<string>

    constructor(field: string, operator: RowOperator, values: seq<string>)
      ensures this.field == field && this.operator == operator && this.values == values
    {
      this.field := field;
      this.operator := operator;
      this.values := values;
    }
  }

  /** Distinct rows are distinct objects. */
  predicate DistinctRows(rows: seq<RowPermission>)
  {
    forall i, j :: 0 <= i < j < |rows| ==> rows[i] != rows[j]
  }

  lemma RemoveAtKeepsDistinctRows(rows: seq<RowPermission>, index: int)
    requires DistinctRows(rows)
    ensures DistinctRows(RemoveAt(rows, index))
  {
    var r := RemoveAt(rows, index);
    if 0 <= index < |rows| {
      forall i, j | 0 <= i < j < |r|
        ensures r[i] != r[j]
      {
        var i' := if i < index then i else i + 1;
        var j' := if j < index then j else j + 1;
        assert r[i] == rows[i'] && r[j] == rows[j'] && i' < j';
      }
    }
  }

  class PermissionEditor {
    var selectedDirectory: string
    var dialogOpen: bool
    var selectedUsersAndGroups: seq<string>
    var showRowColumnPermission: bool
    var selectedFields: seq<string>
    var rowPermissions: seq<RowPermission>

    /** Every row is its own object. */
    ghost predicate Valid()
      reads this
    {
      DistinctRows(rowPermissions)
    }

    constructor()
      ensures Valid()
      ensures selectedDirectory == "" && !dialogOpen && selectedUsersAndGroups == []
      ensures !showRowColumnPermission && selectedFields == [] && rowPermissions == []
    {
      selectedDirectory := "";
      dialogOpen := false;
      selectedUsersAndGroups := [];
      showRowColumnPermission := false;
      selectedFields := [];
      rowPermissions := [];
    }

    /** The row and column section is shown for the revenue directory once
        the assignment enabled it. */
    predicate RevenueSectionShown()
      reads this
    {
      selectedDirectory == RevenueDirectoryId && showRowColumnPermission
    }

    /** The directory selector's `onChange`. */
    method SelectDirectory(id: string)
      modifies this
      ensures selectedDirectory == id
      ensures dialogOpen == old(dialogOpen) && selectedUsersAndGroups == old(selectedUsersAndGroups)
      ensures showRowColumnPermission == old(showRowColumnPermission) && selectedFields == old(selectedFields)
      ensures rowPermissions == old(rowPermissions)
    {
      selectedDirectory := id;
    }

    /** `handleAssignPermission`: with no directory only a warning; otherwise
        the dialog opens, and row and column permissions are enabled with
        every column preselected for the revenue directory, disabled for any
        other. */
    method AssignPermission() returns (f: Feedback)
      modifies this
      ensures old(selectedDirectory) == "" ==>
                f == Warning("请先选择知识库目录") && dialogOpen == old(dialogOpen) &&
                showRowColumnPermission == old(showRowColumnPermission) && selectedFields == old(selectedFields)
      ensures old(selectedDirectory) == RevenueDirectoryId ==>
                f == Silent && dialogOpen && showRowColumnPermission &&
                selectedFields == FieldIds(FinancialTableFields)
      ensures old(selectedDirectory) != "" && old(selectedDirectory) != RevenueDirectoryId ==>
                f == Silent && dialogOpen && !showRowColumnPermission && selectedFields == old(selectedFields)
      ensures old(selectedDirectory) != "" ==> (RevenueSectionShown() <==> old(selectedDirectory) == RevenueDirectoryId)
      ensures selectedDirectory == old(selectedDirectory) && selectedUsersAndGroups == old(selectedUsersAndGroups)
      ensures rowPermissions == old(rowPermissions)
    {
      if selectedDirectory == "" {
        return Warning("请先选择知识库目录");
      }
      dialogOpen := true;
      if selectedDirectory == RevenueDirectoryId {
        showRowColumnPermission := true;
        selectedFields := FieldIds(FinancialTableFields);
      } else {
        showRowColumnPermission := false;
      }
      return Silent;
    }

    /** The user tree's `onCheck`: the checked keys replace the selection. */
    method CheckUsersAndGroups(keys: seq<string>)
      modifies this
      ensures selectedUsersAndGroups == keys
      ensures selectedDirectory == old(selectedDirectory) && dialogOpen == old(dialogOpen)
      ensures showRowColumnPermission == old(showRowColumnPermission) && selectedFields == old(selectedFields)
      ensures rowPermissions == old(rowPermissions)
    {
      selectedUsersAndGroups := keys;
    }

    /** The column checkbox group's `onChange`: the ticked ids replace the fields. */
    method CheckFields(values: seq<string>)
      modifies this
      ensures selectedFields == values
      ensures selectedDirectory == old(selectedDirectory) && dialogOpen == old(dialogOpen)
      ensures showRowColumnPermission == old(showRowColumnPermission)
      ensures selectedUsersAndGroups == old(selectedUsersAndGroups) && rowPermissions == old(rowPermissions)
    {
      selectedFields := values;
    }

    /** `handleFieldVisibilityChange`. */
    method ChangeFieldVisibility(fieldId: string, visible: bool)
      modifies this
      ensures selectedFields == FieldVisibility(old(selectedFields), fieldId, visible)
      ensures selectedDirectory == old(selectedDirectory) && dialogOpen == old(dialogOpen)
      ensures showRowColumnPermission == old(showRowColumnPermission)
      ensures selectedUsersAndGroups == old(selectedUsersAndGroups) && rowPermissions == old(rowPermissions)
    {
      if visible {
        selectedFields := selectedFields + [fieldId];
      } else {
        selectedFields := Filter(selectedFields, (x: string) => x != fieldId);
      }
    }

    /** `handleSavePermission`: an empty user selection is refused; otherwise
        the dialog closes and the users, fields and rows are cleared. */
    method SavePermission() returns (f: Feedback)
      modifies this
      ensures old(selectedUsersAndGroups) == [] ==>
                f == Warning("请至少选择一个用户组或用户") && dialogOpen == old(dialogOpen) &&
                selectedFields == old(selectedFields) && rowPermissions == old(rowPermissions) &&
                selectedUsersAndGroups == []
      ensures old(selectedUsersAndGroups) != [] ==>
                f == Success("权限分配成功") && !dialogOpen && selectedUsersAndGroups == [] &&
                selectedFields == [] && rowPermissions == []
      ensures selectedDirectory == old(selectedDirectory) && showRowColumnPermission == old(showRowColumnPermission)
      ensures Valid()
      requires Valid()
    {
      if |selectedUsersAndGroups| == 0 {
        return Warning("请至少选择一个用户组或用户");
      }
      dialogOpen := false;
      selectedUsersAndGroups := [];
      selectedFields := [];
      rowPermissions := [];
      return Success("权限分配成功");
    }

    /** Cancelling the dialog also switches row and column permissions off. */
    method Cancel()
      modifies this
      ensures !dialogOpen && selectedUsersAndGroups == [] && selectedFields == [] && rowPermissions == []
      ensures !showRowColumnPermission && selectedDirectory == old(selectedDirectory)
      ensures !RevenueSectionShown()
      ensures Valid()
    {
      dialogOpen := false;
      selectedUsersAndGroups := [];
      selectedFields := [];
      rowPermissions := [];
      showRowColumnPermission := false;
    }

    /** `handleAddRowPermission`: one new row `region not_in []` at the end. */
    method AddRowPermission()
      requires Valid()
      modifies this
      ensures Valid()
      ensures |rowPermissions| == |old(rowPermissions)| + 1
      ensures rowPermissions[..|old(rowPermissions)|] == old(rowPermissions)
      ensures var row := rowPermissions[|old(rowPermissions)|];
              fresh(row) && row.field == "region" && row.operator == NotInOp && row.values == []
      ensures selectedDirectory == old(selectedDirectory) && dialogOpen == old(dialogOpen)
      ensures selectedUsersAndGroups == old(selectedUsersAndGroups) && selectedFields == old(selectedFields)
      ensures showRowColumnPermission == old(showRowColumnPermission)
    {
      var row := new RowPermission("region", NotInOp, []);
      rowPermissions := rowPermissions + [row];
    }

    /** `handleRemoveRowPermission`. */
    method RemoveRowPermission(index: int)
      requires Valid()
      modifies this
      ensures Valid()
      ensures rowPermissions == RemoveAt(old(rowPermissions), index)
      ensures selectedDirectory == old(selectedDirectory) && dialogOpen == old(dialogOpen)
      ensures selectedUsersAndGroups == old(selectedUsersAndGroups) && selectedFields == old(selectedFields)
      ensures showRowColumnPermission == old(showRowColumnPermission)
    {
      RemoveAtKeepsDistinctRows(rowPermissions, index);
      rowPermissions := RemoveAt(rowPermissions, index);
    }

    /** The field select of row `index`: that row object changes in place; the
        list, and every other row, stay as they were. */
    method EditRowField(index: nat, value: string)
      requires Valid() && index < |rowPermissions|
      modifies rowPermissions[index]
      ensures rowPermissions[index].field == value
      ensures rowPermissions[index].operator == old(rowPermissions[index].operator)
      ensures rowPermissions[index].values == old(rowPermissions[index].values)
      ensures forall k :: 0 <= k < |rowPermissions| && k != index ==>
                rowPermissions[k].field == old(rowPermissions[k].field) &&
                rowPermissions[k].operator == old(rowPermissions[k].operator) &&
                rowPermissions[k].values == old(rowPermissions[k].values)
    {
      var updated := rowPermissions;
      updated[index].field := value;
    }

    /** The operator select of row `index`. */
    method EditRowOperator(index: nat, value: RowOperator)
      requires Valid() && index < |rowPermissions|
      modifies rowPermissions[index]
      ensures rowPermissions[index].operator == value
      ensures rowPermissions[index].field == old(rowPermissions[index].field)
      ensures rowPermissions[index].values == old(rowPermissions[index].values)
      ensures forall k :: 0 <= k < |rowPermissions| && k != index ==>
                rowPermissions[k].field == old(rowPermissions[k].field) &&
                rowPermissions[k].operator == old(rowPermissions[k].operator) &&
                rowPermissions[k].values == old(rowPermissions[k].values)
    {
      var updated := rowPermissions;
      updated[index].operator := value;
    }

    /** The values select of row `index`. */
    method EditRowValues(index: nat, values: seq<string>)
      requires Valid() && index < |rowPermissions|
      modifies rowPermissions[index]
      ensures rowPermissions[index].values == values
      ensures rowPermissions[index].field == old(rowPermissions[index].field)
      ensures rowPermissions[index].operator == old(rowPermissions[index].operator)
      ensures forall k :: 0 <= k < |rowPermissions| && k != index ==>
                rowPermissions[k].field == old(rowPermissions[k].field) &&
                rowPermissions[k].operator == old(rowPermissions[k].operator) &&
                rowPermissions[k].values == old(rowPermissions[k].values)
    {
      var updated := rowPermissions;
      updated[index].values := values;
    }
  }
}
