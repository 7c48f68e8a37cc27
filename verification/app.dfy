/**
 * The top-level view state of the console (src/App.tsx, with the view and
 * menu keys of src/types/index.ts): which view the centre shows, which menu
 * entry is highlighted, which knowledge-base node is selected, and the chat
 * log. Each `Date.now()` and ISO timestamp read is a parameter; the 500 ms timer
 * that performs a routed view switch is a queue of pending switches that
 * `FireTimer` drains in order.
 */
module AppState {
  import opened Common

  datatype MenuKey = DataManagementKey | AgentManagementKey | DataExplorationKey | PermissionManagementKey | LogsKey

  datatype View = ChatView | MenuView(key: MenuKey) | KnowledgeBaseManagementView | KnowledgeBuildTasksView

  datatype Role = UserRole | AssistantRole | SystemRole

  datatype Message = Message(id: string, role: Role, content: string, timestamp: string)

  // ---------------------------------------------------------------------------
  // Message ids: `Date.now().toString()`
  // ---------------------------------------------------------------------------

  function DigitChar(d: nat): (c: char)
    requires d < 10
    ensures '0' <= c <= '9' && c as int - '0' as int == d
  {
    ('0' as int + d) as char
  }

  /** The decimal form of a non-negative integer, without leading zeros. */
  function DecimalString(n: nat): (r: string)
    ensures |r| >= 1 && forall i :: 0 <= i < |r| ==> '0' <= r[i] <= '9'
    ensures n >= 10 ==> |r| >= 2
  {
    if n < 10 then [DigitChar(n)] else DecimalString(n / 10) + [DigitChar(n % 10)]
  }

  /** Different numbers have different decimal forms, so the user's and the
      assistant's message ids (`now` and `now + 1`) never clash. */
  lemma {:induction false} DecimalStringInjective(a: nat, b: nat)
    requires DecimalString(a) == DecimalString(b)
    ensures a == b
  {
    var s := DecimalString(a);
    if a < 10 && b < 10 {
      assert DigitChar(a) == s[0] == DigitChar(b);
    } else if a >= 10 && b >= 10 {
      var pa, pb := DecimalString(a / 10), DecimalString(b / 10);
      assert s == pa + [DigitChar(a % 10)] == pb + [DigitChar(b % 10)];
      assert |pa| == |pb|;
      assert pa == s[..|s| - 1] == pb;
      assert DigitChar(a % 10) == s[|s| - 1] == DigitChar(b % 10);
      DecimalStringInjective(a / 10, b / 10);
    } else {
      assert false;
    }
  }

  // ---------------------------------------------------------------------------
  // Intent routing of handleSendMessage
  // ---------------------------------------------------------------------------

  /** The assistant's answer and the view it switches to, if any. */
  datatype Reply = Reply(response: string, target: Option<MenuKey>)

  const UploadReply: string := "好的，我来帮您上传文件。"
  const CreateAgentReply: string := "您想要通过模板创建还是从0开始搭建？\n\n[使用模板创建] [从0开始搭建]"
  const KnowledgeBaseReply: string := "好的，我来帮您管理知识库。"
  const ExportReply: string := "好的，我来帮您导出知识库。"
  const ReimbursementReply: string := "我来调起财务助手智能体为您解答。\n\n根据财务政策文档，商业医疗险的报销流程如下：\n1. 准备相关医疗发票和证明材料\n2. 登录财务系统提交报销申请\n3. 等待审核通过后，财务部门会在5个工作日内完成报销。"
  const FallbackReply: string := "我理解您的需求。您可以通过左侧菜单访问具体功能，或者告诉我更详细的需求，我会尽力帮助您。"

  /** One routing rule: it applies when the message contains one of `anyOf`
      and all of `allOf`. */
  datatype Rule = Rule(anyOf: seq<string>, allOf: seq<string>, reply: Reply)

  predicate ContainsAny(content: string, words: seq<string>)
  {
    exists i :: 0 <= i < |words| && Contains(content, words[i])
  }

  predicate ContainsAll(content: string, words: seq<string>)
  {
    forall i :: 0 <= i < |words| ==> Contains(content, words[i])
  }

  predicate Applies(r: Rule, content: string)
  {
    ContainsAny(content, r.anyOf) && ContainsAll(content, r.allOf)
  }

  /** The rules in the order they are tried. */
  const Rules: seq<Rule> := [
    Rule(["上传", "文件"], [], Reply(UploadReply, Some(DataManagementKey))),
    Rule(["创建"], ["智能体"], Reply(CreateAgentReply, Some(AgentManagementKey))),
    Rule(["知识库"], [], Reply(KnowledgeBaseReply, Some(DataManagementKey))),
    Rule(["导出"], [], Reply(ExportReply, Some(DataManagementKey))),
    Rule(["报销", "医疗险"], [], Reply(ReimbursementReply, None))
  ]

  /** The first rule that applies decides; with none, the fallback answer. */
  function FirstMatch(rules: seq<Rule>, content: string): (r: Reply)
    ensures (forall i :: 0 <= i < |rules| ==> !Applies(rules[i], content)) ==> r == Reply(FallbackReply, None)
    ensures forall i :: (0 <= i < |rules| && Applies(rules[i], content) &&
                         (forall j :: 0 <= j < i ==> !Applies(rules[j], content))) ==> r == rules[i].reply
  {
    if rules == [] then Reply(FallbackReply, None)
    else if Applies(rules[0], content) then rules[0].reply
    else
      var r := FirstMatch(rules[1..], content);
      assert forall i :: 1 <= i < |rules| ==> rules[i] == rules[1..][i - 1];
      r
  }

  /** The if-chain of `handleSendMessage`. */
  function Respond(content: string): Reply
  {
    if Contains(content, "上传") || Contains(content, "文件") then Reply(UploadReply, Some(DataManagementKey))
    else if Contains(content, "创建") && Contains(content, "智能体") then Reply(CreateAgentReply, Some(AgentManagementKey))
    else if Contains(content, "知识库") then Reply(KnowledgeBaseReply, Some(DataManagementKey))
    else if Contains(content, "导出") then Reply(ExportReply, Some(DataManagementKey))
    else if Contains(content, "报销") || Contains(content, "医疗险") then Reply(ReimbursementReply, None)
    else Reply(FallbackReply, None)
  }

  /** The if-chain is the rule table tried in order, first match winning. */
  lemma RespondIsFirstMatchingRule(content: string)
    ensures Respond(content) == FirstMatch(Rules, content)
  {
    RuleTests(content);
  }

  /** What each rule of the table tests for. */
  lemma RuleTests(content: string)
    ensures Applies(Rules[0], content) <==> Contains(content, "上传") || Contains(content, "文件")
    ensures Applies(Rules[1], content) <==> Contains(content, "创建") && Contains(content, "智能体")
    ensures Applies(Rules[2], content) <==> Contains(content, "知识库")
    ensures Applies(Rules[3], content) <==> Contains(content, "导出")
    ensures Applies(Rules[4], content) <==> Contains(content, "报销") || Contains(content, "医疗险")
  {
    var rs := Rules;
    assert rs[0].anyOf[0] == "上传" && rs[0].anyOf[1] == "文件";
    assert rs[1].anyOf[0] == "创建" && rs[1].allOf[0] == "智能体";
    assert rs[2].anyOf[0] == "知识库";
    assert rs[3].anyOf[0] == "导出";
    assert rs[4].anyOf[0] == "报销" && rs[4].anyOf[1] == "医疗险";
  }

  /** A view switch is requested only towards data or agent management. */
  lemma RoutedTargets(content: string)
    ensures Respond(content).target in {None, Some(DataManagementKey), Some(AgentManagementKey)}
    ensures Respond(content).target == Some(AgentManagementKey) ==>
              Contains(content, "创建") && Contains(content, "智能体") &&
              !Contains(content, "上传") && !Contains(content, "文件")
    ensures Respond(content).target.None? <==>
              !Contains(content, "上传") && !Contains(content, "文件") &&
              !(Contains(content, "创建") && Contains(content, "智能体")) &&
              !Contains(content, "知识库") && !Contains(content, "导出")
  {
  }

  // ---------------------------------------------------------------------------
  // The App component
  // ---------------------------------------------------------------------------

  const Greeting: string := "您好！我是AI数据探索平台的助手。\n\n我可以帮您：\n• 上传文件和管理数据\n• 创建和管理智能体\n• 进行数据探索和分析\n• 管理权限和查看日志\n\n您可以通过左侧菜单或直接告诉我您想要做什么。"

  /** The highlighted menu entry, when there is one, is the view shown. */
  predicate MenuMatchesView(menu: Option<MenuKey>, view: View)
  {
    menu.None? || view == MenuView(menu.value)
  }

  class App {
    var currentMenu: Option<MenuKey>
    var currentView: View
    var selectedNode: Option<string>
    var messages: seq<Message>
    /** View switches scheduled by routed messages, oldest first. */
    var pendingSwitches: seq<MenuKey>
    /** The largest stamp a message id has been made from, used only by
        `SendMessageWithFreshIds`. */
    var lastStamp: nat

    predicate Valid()
      reads this
    {
      MenuMatchesView(currentMenu, currentView)
    }

    constructor(timestamp: string)
      ensures Valid()
      ensures currentMenu == None && currentView == ChatView && selectedNode == None
      ensures messages == [Message("1", AssistantRole, Greeting, timestamp)] && pendingSwitches == []
      ensures lastStamp == 1 && StampedUpTo(messages, lastStamp) && IdsDistinct(messages)
    {
      currentMenu := None;
      currentView := ChatView;
      selectedNode := None;
      messages := [Message("1", AssistantRole, Greeting, timestamp)];
      pendingSwitches := [];
      lastStamp := 1;
      new;
      assert messages[0].id == DecimalString(1);
    }

    /** `handleMenuClick`: view and menu become the key; the node is cleared. */
    method MenuClick(key: MenuKey)
      modifies this
      ensures Valid()
      ensures currentMenu == Some(key) && currentView == MenuView(key) && selectedNode == None
      ensures messages == old(messages) && pendingSwitches == old(pendingSwitches) && lastStamp == old(lastStamp)
    {
      currentMenu := Some(key);
      currentView := MenuView(key);
      selectedNode := None;
    }

    /** `handleBackToChat`: back to the chat, keeping the selected node. */
    method BackToChat()
      modifies this
      ensures Valid()
      ensures currentView == ChatView && currentMenu == None
      ensures selectedNode == old(selectedNode) && messages == old(messages) && pendingSwitches == old(pendingSwitches)
      ensures lastStamp == old(lastStamp)
    {
      currentView := ChatView;
      currentMenu := None;
    }

    /** `handleNodeSelect`: the node's management view, with no menu entry. */
    method NodeSelect(nodeId: string)
      modifies this
      ensures Valid()
      ensures selectedNode == Some(nodeId) && currentView == KnowledgeBaseManagementView && currentMenu == None
      ensures messages == old(messages) && pendingSwitches == old(pendingSwitches) && lastStamp == old(lastStamp)
    {
      selectedNode := Some(nodeId);
      currentView := KnowledgeBaseManagementView;
      currentMenu := None;
    }

    /** `handleShowBuildTasks`: the task list, with no menu entry and no node. */
    method ShowBuildTasks()
      modifies this
      ensures Valid()
      ensures currentView == KnowledgeBuildTasksView && currentMenu == None && selectedNode == None
      ensures messages == old(messages) && pendingSwitches == old(pendingSwitches) && lastStamp == old(lastStamp)
    {
      currentView := KnowledgeBuildTasksView;
      currentMenu := None;
      selectedNode := None;
    }

    /** `handleSendMessage`: the user's message and the answer are appended, in
        that order, and a routed target is scheduled as a view switch. The
        clock is read once for each message (`now1`, then `now2`), and so is
        the ISO time (`timestamp1`, `timestamp2`). */
    method SendMessage(content: string, now1: nat, now2: nat, timestamp1: string, timestamp2: string)
      requires Valid()
      modifies this
      ensures Valid()
      ensures messages == old(messages) + [Message(DecimalString(now1), UserRole, content, timestamp1),
                                           Message(DecimalString(now2 + 1), AssistantRole, Respond(content).response, timestamp2)]
      ensures pendingSwitches == old(pendingSwitches) +
                (if Respond(content).target.Some? then [Respond(content).target.value] else [])
      ensures currentView == old(currentView) && currentMenu == old(currentMenu) && selectedNode == old(selectedNode)
      ensures lastStamp == old(lastStamp)
    {
      var userMessage := Message(DecimalString(now1), UserRole, content, timestamp1);
      var response := "";
      var shouldSwitchView: Option<MenuKey> := None;
      if Contains(content, "上传") || Contains(content, "文件") {
        response := UploadReply;
        shouldSwitchView := Some(DataManagementKey);
      } else if Contains(content, "创建") && Contains(content, "智能体") {
        response := CreateAgentReply;
        shouldSwitchView := Some(AgentManagementKey);
      } else if Contains(content, "知识库") {
        response := KnowledgeBaseReply;
        shouldSwitchView := Some(DataManagementKey);
      } else if Contains(content, "导出") {
        response := ExportReply;
        shouldSwitchView := Some(DataManagementKey);
      } else if Contains(content, "报销") || Contains(content, "医疗险") {
        response := ReimbursementReply;
      } else {
        response := FallbackReply;
      }
      var assistantMessage := Message(DecimalString(now2 + 1), AssistantRole, response, timestamp2);
      messages := messages + [userMessage, assistantMessage];
      if shouldSwitchView.Some? {
        pendingSwitches := pendingSwitches + [shouldSwitchView.value];
      }
    }

    /** `handleSendMessage` with ids that cannot repeat: each message's stamp
        is its clock reading, or one more than the last stamp used when the
        clock has not moved past it. Every id of the log stays different. */
    method SendMessageWithFreshIds(content: string, now1: nat, now2: nat, timestamp1: string, timestamp2: string)
      requires Valid() && StampedUpTo(messages, lastStamp) && IdsDistinct(messages)
      modifies this
      ensures Valid() && StampedUpTo(messages, lastStamp) && IdsDistinct(messages)
      ensures var (u, a) := FreshStamps(old(lastStamp), now1, now2);
              messages == old(messages) + [Message(DecimalString(u), UserRole, content, timestamp1),
                                           Message(DecimalString(a), AssistantRole, Respond(content).response, timestamp2)] &&
              lastStamp == a
      ensures pendingSwitches == old(pendingSwitches) +
                (if Respond(content).target.Some? then [Respond(content).target.value] else [])
      ensures currentView == old(currentView) && currentMenu == old(currentMenu) && selectedNode == old(selectedNode)
    {
      var (u, a) := FreshStamps(lastStamp, now1, now2);
      var reply := Respond(content);
      var userMessage := Message(DecimalString(u), UserRole, content, timestamp1);
      var assistantMessage := Message(DecimalString(a), AssistantRole, reply.response, timestamp2);
      FreshSendKeepsIdsDistinct(messages, lastStamp, u, a, userMessage, assistantMessage);
      messages := messages + [userMessage, assistantMessage];
      lastStamp := a;
      if reply.target.Some? {
        pendingSwitches := pendingSwitches + [reply.target.value];
      }
    }

    /** The oldest scheduled timer fires: view and menu both become its key. */
    method FireTimer()
      requires pendingSwitches != []
      modifies this
      ensures Valid()
      ensures currentView == MenuView(old(pendingSwitches)[0]) && currentMenu == Some(old(pendingSwitches)[0])
      ensures pendingSwitches == old(pendingSwitches)[1..]
      ensures selectedNode == old(selectedNode) && messages == old(messages) && lastStamp == old(lastStamp)
    {
      var key := pendingSwitches[0];
      currentView := MenuView(key);
      currentMenu := Some(key);
      pendingSwitches := pendingSwitches[1..];
    }

    /** `onNavigateToDataManagement`. */
    method NavigateToDataManagement()
      modifies this
      ensures Valid()
      ensures currentView == MenuView(DataManagementKey) && currentMenu == Some(DataManagementKey)
      ensures selectedNode == old(selectedNode) && messages == old(messages) && pendingSwitches == old(pendingSwitches)
      ensures lastStamp == old(lastStamp)
    {
      currentView := MenuView(DataManagementKey);
      currentMenu := Some(DataManagementKey);
    }

    /** `onNavigateToTemplate`: the template type changes nothing further. */
    method NavigateToTemplate(templateType: string)
      modifies this
      ensures Valid()
      ensures currentView == MenuView(AgentManagementKey) && currentMenu == Some(AgentManagementKey)
      ensures selectedNode == old(selectedNode) && messages == old(messages) && pendingSwitches == old(pendingSwitches)
      ensures lastStamp == old(lastStamp)
    {
      currentView := MenuView(AgentManagementKey);
      currentMenu := Some(AgentManagementKey);
    }
  }

  /** The two messages of one send have different ids, as long as the clock
      does not run backwards between its two readings. */
  lemma SentMessageIdsDiffer(now1: nat, now2: nat)
    requires now1 <= now2
    ensures DecimalString(now1) != DecimalString(now2 + 1)
  {
    if DecimalString(now1) == DecimalString(now2 + 1) {
      DecimalStringInjective(now1, now2 + 1);
    }
  }

  /** As written, a send whose clock reads `t` and the next send, a
      millisecond later, give the first answer and the second question the
      same id. */
  method AsWrittenSendsRepeatAnId(t: nat, timestamp: string) returns (app: App)
    ensures |app.messages| == 5 && app.messages[2].id == app.messages[3].id
  {
    app := new App(timestamp);
    app.SendMessage("你好", t, t, timestamp, timestamp);
    app.SendMessage("你好", t + 1, t + 1, timestamp, timestamp);
  }

  // ---------------------------------------------------------------------------
  // Message ids that never repeat
  // ---------------------------------------------------------------------------

  /** Every id of the log is the decimal form of a stamp no later than `last`. */
  ghost predicate StampedUpTo(ms: seq<Message>, last: nat)
  {
    forall i :: 0 <= i < |ms| ==> exists k: nat :: k <= last && ms[i].id == DecimalString(k)
  }

  /** No two messages of the log share an id. */
  predicate IdsDistinct(ms: seq<Message>)
  {
    forall i, j :: 0 <= i < j < |ms| ==> ms[i].id != ms[j].id
  }

  /** The stamps of one send: each clock reading, raised past the last stamp
      used when the clock has not moved beyond it. */
  function FreshStamps(last: nat, now1: nat, now2: nat): (r: (nat, nat))
    ensures last < r.0 < r.1
    ensures now1 <= r.0 && now2 + 1 <= r.1
    ensures now1 > last ==> r.0 == now1
    ensures now2 + 1 > r.0 ==> r.1 == now2 + 1
  {
    var u := if now1 > last then now1 else last + 1;
    var a := if now2 + 1 > u then now2 + 1 else u + 1;
    (u, a)
  }

  /** Two messages stamped past every stamp of the log keep its ids distinct. */
  lemma FreshSendKeepsIdsDistinct(ms: seq<Message>, last: nat, u: nat, a: nat, m1: Message, m2: Message)
    requires StampedUpTo(ms, last) && IdsDistinct(ms)
    requires last < u < a && m1.id == DecimalString(u) && m2.id == DecimalString(a)
    ensures StampedUpTo(ms + [m1, m2], a) && IdsDistinct(ms + [m1, m2])
  {
    var ns := ms + [m1, m2];
    forall i | 0 <= i < |ms|
      ensures ms[i].id != m1.id && ms[i].id != m2.id
    {
      var k: nat :| k <= last && ms[i].id == DecimalString(k);
      if ms[i].id == m1.id {
        DecimalStringInjective(k, u);
      }
      if ms[i].id == m2.id {
        DecimalStringInjective(k, a);
      }
    }
    if m1.id == m2.id {
      DecimalStringInjective(u, a);
    }
    forall i | 0 <= i < |ns|
      ensures exists k: nat :: k <= a && ns[i].id == DecimalString(k)
    {
      if i < |ms| {
        assert ns[i] == ms[i];
      } else if i == |ms| {
        assert ns[i].id == DecimalString(u);
      } else {
        assert ns[i].id == DecimalString(a);
      }
    }
    forall i, j | 0 <= i < j < |ns|
      ensures ns[i].id != ns[j].id
    {
      if j < |ms| {
        assert ns[i] == ms[i] && ns[j] == ms[j];
      } else if i < |ms| {
        assert ns[i] == ms[i];
      }
    }
  }

  /** With fresh stamps, the same two sends as in `AsWrittenSendsRepeatAnId`
      leave every id of the log different. */
  method FreshSendsKeepIdsApart(t: nat, timestamp: string) returns (app: App)
    ensures |app.messages| == 5 && IdsDistinct(app.messages)
  {
    app := new App(timestamp);
    app.SendMessageWithFreshIds("你好", t, t, timestamp, timestamp);
    app.SendMessageWithFreshIds("你好", t + 1, t + 1, timestamp, timestamp);
  }
}
