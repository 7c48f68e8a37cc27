/**
 * The console's fixed data (src/mock/data.ts), and proofs that it keeps the
 * invariants of `DataInvariants`. Every value is a function without
 * arguments; each proof looks at as little of the data as it needs.
 */
module Fixtures {
  import opened Common
  import opened Records
  import opened KbForest
  import opened DirectoryTable
  import opened DataInvariants
  import opened FixtureIds

  // ---------------------------------------------------------------------------
  // Knowledge bases
  // ---------------------------------------------------------------------------

  function FileNode(id: string, name: string, fileType: string): KbNode
  {
    KbNode(id, name, File, [], None, Some(fileType), None)
  }

  function DirectoryNode(id: string, name: string, fileCount: int, children: seq<KbNode>): KbNode
  {
    KbNode(id, name, Directory, children, None, None, Some(fileCount))
  }

  function FinanceGeneral(): KbNode
  {
    DirectoryNode("kb1-dir1", "财务通用知识库", 2, [
      FileNode("kb1-dir1-file1", "财务管理制度.pdf", "pdf"),
      FileNode("kb1-dir1-file2", "报销流程说明.docx", "docx")])
  }

  function FinanceRevenue(): KbNode
  {
    DirectoryNode("kb1-dir2", "营收相关知识库", 2, [
      FileNode("kb1-dir2-file1", "2023年营收明细.xlsx", "xlsx"),
      FileNode("kb1-dir2-file2", "2024年营收明细.xlsx", "xlsx")])
  }

  function ProductDocs(): KbNode
  {
    DirectoryNode("kb2-dir1", "产品文档知识库", 2, [
      FileNode("kb2-dir1-file1", "产品使用手册.pdf", "pdf"),
      FileNode("kb2-dir1-file2", "常见问题解答.docx", "docx")])
  }

  function Defects(): KbNode
  {
    DirectoryNode("kb3-dir1", "缺陷知识库", 1, [
      FileNode("kb3-dir1-file1", "缺陷记录.csv", "csv")])
  }

  /** The file id `kb3-dir1-file2` under `kb3-dir2` is as in the data. */
  function DefectMethods(): KbNode
  {
    DirectoryNode("kb3-dir2", "缺陷方法论知识库", 1, [
      FileNode("kb3-dir1-file2", "自动化测试指引.pdf", "pdf")])
  }

  function FinanceKb(): KbNode
  {
    KbNode("kb1", "财务部知识库", KnowledgeBase, [FinanceGeneral(), FinanceRevenue()], Some(Available), None, None)
  }

  function ProductKb(): KbNode
  {
    KbNode("kb2", "产品知识库", KnowledgeBase, [ProductDocs()], Some(Available), None, None)
  }

  function TestKb(): KbNode
  {
    KbNode("kb3", "测试知识库", KnowledgeBase, [Defects(), DefectMethods()], Some(Building), None, None)
  }

  function MockKnowledgeBases(): seq<KbNode>
  {
    [FinanceKb(), ProductKb(), TestKb()]
  }

  // ---------------------------------------------------------------------------
  // Agents and build tasks
  // ---------------------------------------------------------------------------

  function MockAgents(): seq<Agent>
  {
    [
      Agent("agent1", "财务助手", "帮助解答财务相关问题和数据分析", Online, ["kb1"], CompositeAgent,
            Some("current-user"), false, false),
      Agent("agent2", "产品客服", "回答产品使用和故障排查问题", Online, ["kb2"], UnstructuredAgent,
            Some("current-user"), false, false),
      Agent("agent3", "缺陷分析助手", "分析测试缺陷数据", Offline, ["kb3"], StructuredAgent,
            Some("current-user"), false, false),
      Agent("agent4", "财务小助手", "解答财务政策类问题、协助员工进行报销等财务相关操作", Online, ["kb1"], CompositeAgent,
            Some("user1"), true, false),
      Agent("agent5", "采购分析助手", "分析采购数据、协助员工进行采购相关操作", Online, ["kb2"], StructuredAgent,
            Some("user2"), true, false),
      Agent("agent-template1", "知识问答模板", "通用的知识问答智能体模板", Online, [], UnstructuredAgent,
            None, false, true),
      Agent("agent-template2", "数据分析模板", "通用的数据分析智能体模板", Online, [], StructuredAgent,
            None, false, true)
    ]
  }

  function MockBuildTasks(): seq<BuildTask>
  {
    [
      BuildTask("task1", "财务政策知识构建", TaskSucceeded, "2024-01-15 10:00:00", Some("2024-01-15 10:30:00"),
                ["file1", "file2"], "kb1-dir1", Unstructured),
      BuildTask("task2", "营收数据分析构建", TaskRunning, "2024-01-15 14:00:00", None,
                ["file3", "file4"], "kb1-dir2", Structured),
      BuildTask("task3", "产品文档知识构建", TaskPaused, "2024-01-15 15:00:00", None,
                ["file5", "file6"], "kb2-dir1", Both)
    ]
  }

  // ---------------------------------------------------------------------------
  // The file-directory table
  // ---------------------------------------------------------------------------

  function RootRow(): FileDirectory
  {
    FileDirectory("dir-root", "root", None, 0, [])
  }

  function FinanceRow(): FileDirectory
  {
    FileDirectory("dir1", "财务文档", Some("dir-root"), 1, [
      FileItem("file1", "财务管理制度.pdf", "dir1", 2048000, "pdf", "2024-01-15 10:30:00", Manual, None),
      FileItem("file2", "报销流程说明.docx", "dir1", 512000, "docx", "2024-01-15 10:35:00", Manual, None)])
  }

  function RevenueRow(): FileDirectory
  {
    FileDirectory("dir2", "营收数据", Some("dir-root"), 1, [
      FileItem("file3", "2023年营收明细.xlsx", "dir2", 1024000, "xlsx", "2024-01-15 11:00:00", FromConnector, Some("ds1")),
      FileItem("file4", "2024年营收明细.xlsx", "dir2", 1536000, "xlsx", "2024-01-15 11:05:00", FromConnector, Some("ds1"))])
  }

  function ProductRow(): FileDirectory
  {
    FileDirectory("dir3", "产品文档", Some("dir-root"), 1, [
      FileItem("file5", "产品使用手册.pdf", "dir3", 5120000, "pdf", "2024-01-15 13:20:00", Manual, None),
      FileItem("file6", "常见问题解答.docx", "dir3", 256000, "docx", "2024-01-15 13:25:00", Manual, None)])
  }

  function PolicyRow(): FileDirectory
  {
    FileDirectory("dir1-1", "政策文件", Some("dir1"), 2, [])
  }

  function Policy2024Row(): FileDirectory
  {
    FileDirectory("dir1-1-1", "2024年政策", Some("dir1-1"), 3, [
      FileItem("file7", "2024年财务政策.pdf", "dir1-1-1", 1024000, "pdf", "2024-01-15 14:00:00", Manual, None)])
  }

  function MockFileDirectories(): seq<FileDirectory>
  {
    [RootRow(), FinanceRow(), RevenueRow(), ProductRow(), PolicyRow(), Policy2024Row()]
  }

  // ---------------------------------------------------------------------------
  // Connector source directories
  // ---------------------------------------------------------------------------

  function ConnectorOne(): ConnectorSourceDirectory
  {
    ConnectorSourceDirectory("ds1", [
      SourceDirectory("source-root-ds1", "root", None, 0, []),
      SourceDirectory("source-dir-ds1-1", "产品文档", Some("source-root-ds1"), 1, [
        SourceFile("source-file-ds1-1-1", "产品介绍.pdf", 2048000, "pdf"),
        SourceFile("source-file-ds1-1-2", "功能说明.docx", 512000, "docx")]),
      SourceDirectory("source-dir-ds1-2", "技术文档", Some("source-root-ds1"), 1, [
        SourceFile("source-file-ds1-2-1", "技术架构图.png", 1024000, "png")]),
      SourceDirectory("source-dir-ds1-3", "会议纪要", Some("source-root-ds1"), 1, [
        SourceFile("source-file-ds1-3-1", "2024年1月会议记录.docx", 256000, "docx")]),
      SourceDirectory("source-dir-ds1-1-1", "用户手册", Some("source-dir-ds1-1"), 2, [
        SourceFile("source-file-ds1-1-1-1", "用户操作手册.pdf", 3072000, "pdf"),
        SourceFile("source-file-ds1-1-1-2", "常见问题解答.docx", 384000, "docx")]),
      SourceDirectory("source-dir-ds1-1-2", "API文档", Some("source-dir-ds1-1"), 2, [
        SourceFile("source-file-ds1-1-2-1", "API接口文档.pdf", 1536000, "pdf")]),
      SourceDirectory("source-dir-ds1-2-1", "架构设计", Some("source-dir-ds1-2"), 2, [
        SourceFile("source-file-ds1-2-1-1", "系统架构设计.docx", 768000, "docx")]),
      SourceDirectory("source-dir-ds1-2-2", "开发规范", Some("source-dir-ds1-2"), 2, [
        SourceFile("source-file-ds1-2-2-1", "代码规范.pdf", 512000, "pdf")])
    ])
  }

  /** `静态资源` has no file list; it is modelled as an empty one. */
  function ConnectorTwo(): ConnectorSourceDirectory
  {
    ConnectorSourceDirectory("ds2", [
      SourceDirectory("source-root-ds2", "root", None, 0, []),
      SourceDirectory("source-dir-ds2-1", "备份数据", Some("source-root-ds2"), 1, [
        SourceFile("source-file-ds2-1-1", "数据库备份_20240115.sql", 52428800, "sql")]),
      SourceDirectory("source-dir-ds2-2", "日志文件", Some("source-root-ds2"), 1, [
        SourceFile("source-file-ds2-2-1", "app.log", 10485760, "log"),
        SourceFile("source-file-ds2-2-2", "error.log", 2097152, "log")]),
      SourceDirectory("source-dir-ds2-3", "静态资源", Some("source-root-ds2"), 1, []),
      SourceDirectory("source-dir-ds2-1-1", "数据库备份", Some("source-dir-ds2-1"), 2, [
        SourceFile("source-file-ds2-1-1-1", "mysql_backup_20240115.sql", 104857600, "sql")]),
      SourceDirectory("source-dir-ds2-1-2", "文件备份", Some("source-dir-ds2-1"), 2, [
        SourceFile("source-file-ds2-1-2-1", "files_backup_20240115.zip", 52428800, "zip")]),
      SourceDirectory("source-dir-ds2-3-1", "图片资源", Some("source-dir-ds2-3"), 2, [
        SourceFile("source-file-ds2-3-1-1", "banner.jpg", 2048000, "jpg"),
        SourceFile("source-file-ds2-3-1-2", "logo.png", 512000, "png")]),
      SourceDirectory("source-dir-ds2-3-2", "视频资源", Some("source-dir-ds2-3"), 2, [
        SourceFile("source-file-ds2-3-2-1", "intro_video.mp4", 52428800, "mp4")])
    ])
  }

  function MockConnectorSourceDirectories(): seq<ConnectorSourceDirectory>
  {
    [ConnectorOne(), ConnectorTwo()]
  }

  // ---------------------------------------------------------------------------
  // The directory table keeps its invariants
  // ---------------------------------------------------------------------------

  lemma MockRowIds()
    ensures RowIds(MockFileDirectories()) == ["dir-root", "dir1", "dir2", "dir3", "dir1-1", "dir1-1-1"]
  {
  }

  lemma MockRowIdsAreUnique()
    ensures Distinct(RowIds(MockFileDirectories()))
  {
    MockRowIds();
    RowIdsDistinct();
  }

  lemma MockTableIsWellFormed()
    ensures WellFormedTable(MockFileDirectories())
  {
    MockRowIdsAreUnique();
    var parent := [0, 0, 0, 0, 1, 4];
    assert ParentWitness(MockFileDirectories(), parent);
    WitnessedTableIsWellFormed(MockFileDirectories(), parent);
  }

  lemma MockFilesAreFiled()
    ensures FilesFiledUnderTheirRow(MockFileDirectories())
    ensures ConnectorIdMarksConnectorFiles(MockFileDirectories())
  {
  }

  lemma MockFileIdList()
    ensures AllFileIds(MockFileDirectories()) == ["file1", "file2", "file3", "file4", "file5", "file6", "file7"]
  {
    var ds := MockFileDirectories();
    assert AllFileIds(ds[5..]) == ["file7"];
    assert AllFileIds(ds[4..]) == ["file7"];
    assert AllFileIds(ds[3..]) == ["file5", "file6", "file7"];
    assert AllFileIds(ds[2..]) == ["file3", "file4", "file5", "file6", "file7"];
    assert AllFileIds(ds[1..]) == ["file1", "file2", "file3", "file4", "file5", "file6", "file7"];
  }

  lemma MockFileIdsAreUnique()
    ensures Distinct(AllFileIds(MockFileDirectories()))
  {
    MockFileIdList();
    FileIdsDistinct();
  }

  // ---------------------------------------------------------------------------
  // Build tasks refer to what exists
  // ---------------------------------------------------------------------------

  /** The three task targets are directories of the forest. */
  lemma MockTaskTargetsExist()
    ensures forall i :: 0 <= i < |MockBuildTasks()| ==>
              MockBuildTasks()[i].knowledgeBaseDirectoryId in IdList(MockKnowledgeBases())
  {
    var kbs := MockKnowledgeBases();
    ChildIdListed(kbs, 0, 0);
    ChildIdListed(kbs, 0, 1);
    ChildIdListed(kbs, 1, 0);
  }

  /** Task `i`'s file ids are those listed by row `i + 1`. */
  lemma MockTaskFilesResolve(i: int, k: int)
    requires 0 <= i < |MockBuildTasks()| && 0 <= k < |MockBuildTasks()[i].fileSource|
    ensures FileInfo(MockFileDirectories(), MockBuildTasks()[i].fileSource[k]).Some?
  {
    var ds := MockFileDirectories();
    assert MockBuildTasks()[i].fileSource[k] == ds[i + 1].files[k].id;
    ListedFileResolves(ds, i + 1, k);
  }

  lemma MockTasksResolve()
    ensures TaskReferencesResolve(MockBuildTasks(), MockFileDirectories(), MockKnowledgeBases())
  {
    var tasks := MockBuildTasks();
    MockTaskTargetsExist();
    forall i, k | 0 <= i < |tasks| && 0 <= k < |tasks[i].fileSource|
      ensures FileInfo(MockFileDirectories(), tasks[i].fileSource[k]).Some?
    {
      MockTaskFilesResolve(i, k);
    }
    ListedReferencesResolve(tasks, MockFileDirectories(), MockKnowledgeBases());
  }

  // ---------------------------------------------------------------------------
  // Preset file counts
  // ---------------------------------------------------------------------------

  lemma MockFinanceGeneralKeepsCounts()
    ensures CountMatches(FinanceGeneral()) && PresetCountsMatch(FinanceGeneral().children)
  {
    DirectoryOfFilesKeepsCounts(FinanceGeneral());
  }

  lemma MockFinanceRevenueKeepsCounts()
    ensures CountMatches(FinanceRevenue()) && PresetCountsMatch(FinanceRevenue().children)
  {
    DirectoryOfFilesKeepsCounts(FinanceRevenue());
  }

  lemma MockProductDocsKeepsCounts()
    ensures CountMatches(ProductDocs()) && PresetCountsMatch(ProductDocs().children)
  {
    DirectoryOfFilesKeepsCounts(ProductDocs());
  }

  lemma MockDefectsKeepsCounts()
    ensures CountMatches(Defects()) && PresetCountsMatch(Defects().children)
  {
    DirectoryOfFilesKeepsCounts(Defects());
  }

  lemma MockDefectMethodsKeepsCounts()
    ensures CountMatches(DefectMethods()) && PresetCountsMatch(DefectMethods().children)
  {
    DirectoryOfFilesKeepsCounts(DefectMethods());
  }

  lemma MockFinanceKbKeepsCounts()
    ensures CountMatches(FinanceKb()) && PresetCountsMatch(FinanceKb().children)
  {
    MockFinanceGeneralKeepsCounts();
    MockFinanceRevenueKeepsCounts();
    ForestKeepsCounts(FinanceKb().children);
  }

  lemma MockProductKbKeepsCounts()
    ensures CountMatches(ProductKb()) && PresetCountsMatch(ProductKb().children)
  {
    MockProductDocsKeepsCounts();
    ForestKeepsCounts(ProductKb().children);
  }

  lemma MockTestKbKeepsCounts()
    ensures CountMatches(TestKb()) && PresetCountsMatch(TestKb().children)
  {
    MockDefectsKeepsCounts();
    MockDefectMethodsKeepsCounts();
    ForestKeepsCounts(TestKb().children);
  }

  lemma MockPresetCountsMatch()
    ensures PresetCountsMatch(MockKnowledgeBases())
  {
    MockFinanceKbKeepsCounts();
    MockProductKbKeepsCounts();
    MockTestKbKeepsCounts();
    ThreeTreesKeepCounts(FinanceKb(), ProductKb(), TestKb());
  }

  /** Every node of the forest, in pre-order, has a matching count. */
  lemma MockEveryNodeCountMatches()
    ensures forall k :: 0 <= k < |Flatten(MockKnowledgeBases())| ==> CountMatches(Flatten(MockKnowledgeBases())[k])
  {
    MockPresetCountsMatch();
    PresetCountsReachEveryNode(MockKnowledgeBases());
  }

  // ---------------------------------------------------------------------------
  // Connector directories
  // ---------------------------------------------------------------------------

  lemma MockConnectorOneIsLinked()
    ensures ConnectorLevelsLinked(ConnectorOne())
  {
    assert ConnectorWitness(ConnectorOne(), [0, 0, 0, 0, 1, 1, 2, 2]);
    WitnessedConnectorIsLinked(ConnectorOne(), [0, 0, 0, 0, 1, 1, 2, 2]);
  }

  lemma MockConnectorTwoIsLinked()
    ensures ConnectorLevelsLinked(ConnectorTwo())
  {
    assert ConnectorWitness(ConnectorTwo(), [0, 0, 0, 0, 1, 1, 3, 3]);
    WitnessedConnectorIsLinked(ConnectorTwo(), [0, 0, 0, 0, 1, 1, 3, 3]);
  }

  lemma MockConnectorsAreLinked()
    ensures forall k :: 0 <= k < |MockConnectorSourceDirectories()| ==>
              ConnectorLevelsLinked(MockConnectorSourceDirectories()[k])
  {
    MockConnectorOneIsLinked();
    MockConnectorTwoIsLinked();
  }

  // ---------------------------------------------------------------------------
  // Paths the screens show for the data
  // ---------------------------------------------------------------------------

  lemma MockFinancePath()
    ensures WellFormedTable(MockFileDirectories())
    ensures PathFrom(MockFileDirectories(), FinanceRow()) == "root/" + "财务文档"
  {
    MockTableIsWellFormed();
  }

  lemma MockPolicyPath()
    ensures WellFormedTable(MockFileDirectories())
    ensures PathFrom(MockFileDirectories(), PolicyRow()) == "root/" + "财务文档" + "/" + "政策文件"
  {
    MockFinancePath();
    MockRowIdsAreUnique();
    FindDirFindsUniqueRow(MockFileDirectories(), 1);
  }

  lemma MockPolicy2024Path()
    ensures WellFormedTable(MockFileDirectories())
    ensures PathFrom(MockFileDirectories(), Policy2024Row()) ==
              "root/" + "财务文档" + "/" + "政策文件" + "/" + "2024年政策"
  {
    MockPolicyPath();
    MockRowIdsAreUnique();
    FindDirFindsUniqueRow(MockFileDirectories(), 4);
  }

  /** The deepest directory's path, as every copy of `getDirectoryPath` gives it. */
  lemma MockDeepestPath()
    ensures WellFormedTable(MockFileDirectories())
    ensures DirectoryPath(MockFileDirectories(), "dir1-1-1") == "root/财务文档/政策文件/2024年政策"
  {
    MockPolicy2024Path();
    MockRowIdsAreUnique();
    FindDirFindsUniqueRow(MockFileDirectories(), 5);
    DeepestPathText();
  }

  /** An id no row carries: `root` on the data-management screen, `未知目录` on
      the build-task screen. */
  lemma MockUnknownDirectory()
    ensures WellFormedTable(MockFileDirectories())
    ensures DirectoryPath(MockFileDirectories(), "dir9") == "root"
    ensures TaskDirectoryPath(MockFileDirectories(), "dir9") == "未知目录"
  {
    MockTableIsWellFormed();
    MockRowIds();
    UnknownRowIdAbsent();
    assert FindDir(MockFileDirectories(), "dir9").None?;
  }
}

/** Facts about the literal id lists of the data, decided on the literals alone. */
module FixtureIds {
  import opened Common

  lemma RowIdsDistinct()
    ensures Distinct(["dir-root", "dir1", "dir2", "dir3", "dir1-1", "dir1-1-1"])
  {
  }

  lemma UnknownRowIdAbsent()
    ensures "dir9" !in ["dir-root", "dir1", "dir2", "dir3", "dir1-1", "dir1-1-1"]
  {
  }

  lemma DeepestPathText()
    ensures "root/" + "财务文档" + "/" + "政策文件" + "/" + "2024年政策" == "root/财务文档/政策文件/2024年政策"
  {
  }

  lemma FileIdsDistinct()
    ensures Distinct(["file1", "file2", "file3", "file4", "file5", "file6", "file7"])
  {
  }
}
