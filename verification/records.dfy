/**
 * The record types of the console's in-memory data (src/mock/data.ts).
 * Optional fields become `Option`; an optional list that every consumer reads
 * with `|| []` or guards with `if (x.children)` becomes a plain (possibly empty)
 * sequence; an optional boolean flag, which the consumers only test for
 * truthiness, becomes a `bool` that is false when the flag is absent.
 */
module Records {
  import opened Common

  // ---------------------------------------------------------------------------
  // Knowledge-base forest
  // ---------------------------------------------------------------------------

  datatype NodeType = KnowledgeBase | Directory | File

  datatype KbStatus = Available | Building | Failed

  /** `KnowledgeBaseNode`: a knowledge base, a directory or a file, with its
      children in display order. `fileCount` is a preset count that overrides
      the computed one when present. */
  datatype KbNode = KbNode(
    id: string,
    name: string,
    kind: NodeType,
    children: seq<KbNode>,
    status: Option<KbStatus>,
    fileType: Option<string>,
    fileCount: Option<int>)

  // ---------------------------------------------------------------------------
  // Agents
  // ---------------------------------------------------------------------------

  datatype AgentStatus = Online | Offline

  datatype AgentKind = UnstructuredAgent | StructuredAgent | CompositeAgent

  /** `Agent`: an agent with no owner is a template. */
  datatype Agent = Agent(
    id: string,
    name: string,
    description: string,
    status: AgentStatus,
    knowledgeBases: seq<string>,
    kind: AgentKind,
    owner: Option<string>,
    isShared: bool,
    isTemplate: bool)

  // ---------------------------------------------------------------------------
  // Flat, parent-linked file directories
  // ---------------------------------------------------------------------------

  datatype FileSource = FromConnector | Manual

  /** `FileItem`: a file held by the directory `directoryId`; `connectorId`
      names the connector a synchronised file came from. */
  datatype FileItem = FileItem(
    id: string,
    name: string,
    directoryId: string,
    size: int,
    fileType: string,
    uploadTime: string,
    source: FileSource,
    connectorId: Option<string>)

  /** `FileDirectory`: one row of the flat directory table; `parentId` is
      absent only for the root row, and `level` counts from 0 at the root. */
  datatype FileDirectory = FileDirectory(
    id: string,
    name: string,
    parentId: Option<string>,
    level: int,
    files: seq<FileItem>)

  // ---------------------------------------------------------------------------
  // Knowledge-build tasks
  // ---------------------------------------------------------------------------

  /** `'running' | 'paused' | 'success' | 'failed'`. */
  datatype TaskStatus = TaskRunning | TaskPaused | TaskSucceeded | TaskFailed

  datatype ProcessingType = Structured | Unstructured | Both

  /** `KnowledgeBuildTask`: `fileSource` lists file ids of the directory table,
      `knowledgeBaseDirectoryId` a node id of the knowledge-base forest. */
  datatype BuildTask = BuildTask(
    id: string,
    taskName: string,
    status: TaskStatus,
    createTime: string,
    endTime: Option<string>,
    fileSource: seq<string>,
    knowledgeBaseDirectoryId: string,
    processingType: ProcessingType)

  // ---------------------------------------------------------------------------
  // Connector source directories
  // ---------------------------------------------------------------------------

  datatype SourceFile = SourceFile(id: string, name: string, size: int, fileType: string)

  datatype SourceDirectory = SourceDirectory(
    id: string,
    name: string,
    parentId: Option<string>,
    level: int,
    files: seq<SourceFile>)

  /** `ConnectorSourceDirectory`: the directory table a connector exposes. */
  datatype ConnectorSourceDirectory = ConnectorSourceDirectory(
    connectorId: string,
    directories: seq<SourceDirectory>)
}
