/**
 * The agent list of the agent-management screen
 * (src/components/CenterPanel/AgentManagement.tsx): which agents each tab
 * shows. A template is an agent without an owner; the signed-in user is the
 * fixed id `current-user`.
 */
module AgentViews {
  import opened Common
  import opened Records

  const CurrentUserId: string := "current-user"

  predicate IsTemplate(a: Agent) { a.isTemplate }
  predicate IsRegular(a: Agent) { !a.isTemplate }
  predicate IsSharedRegular(a: Agent) { a.isShared && !a.isTemplate }
  predicate IsMineRegular(a: Agent) { a.owner == Some(CurrentUserId) && !a.isTemplate }

  /** `getFilteredAgents` for the tab key `view`: `shared`, `mine` and
      `templates` have their own test; `all`, and any other key, shows the
      agents that are not templates. */
  function FilteredAgents(agents: seq<Agent>, view: string): (r: seq<Agent>)
    ensures IsSubsequence(r, agents)
    ensures view == "shared" ==>
              forall a :: multiset(r)[a] == if a.isShared && !a.isTemplate then multiset(agents)[a] else 0
    ensures view == "mine" ==>
              forall a :: multiset(r)[a] == if a.owner == Some(CurrentUserId) && !a.isTemplate then multiset(agents)[a] else 0
    ensures view == "templates" ==>
              forall a :: multiset(r)[a] == if a.isTemplate then multiset(agents)[a] else 0
    ensures view !in {"shared", "mine", "templates"} ==>
              forall a :: multiset(r)[a] == if !a.isTemplate then multiset(agents)[a] else 0
  {
    var test := if view == "shared" then IsSharedRegular
                else if view == "mine" then IsMineRegular
                else if view == "templates" then IsTemplate
                else IsRegular;
    FilterMultiplicity(agents, test);
    Filter(agents, test)
  }

  /** Every key that is not a tab of its own shows the `all` list. */
  lemma UnknownViewShowsAll(agents: seq<Agent>, view: string)
    requires view !in {"shared", "mine", "templates"}
    ensures FilteredAgents(agents, view) == FilteredAgents(agents, "all")
  {
  }

  /** `all` and `templates` split the agent list: together they hold every
      agent exactly once. */
  lemma AllAndTemplatesPartition(agents: seq<Agent>)
    ensures multiset(FilteredAgents(agents, "all")) + multiset(FilteredAgents(agents, "templates")) == multiset(agents)
    ensures |FilteredAgents(agents, "all")| + |FilteredAgents(agents, "templates")| == |agents|
    ensures forall a :: !(a in FilteredAgents(agents, "all") && a in FilteredAgents(agents, "templates"))
  {
    FilterPartition(agents, IsRegular, IsTemplate);
    assert multiset(Filter(agents, IsRegular)) + multiset(Filter(agents, IsTemplate)) == multiset(agents);
  }

  /** The `shared` and `mine` tabs show a part of the `all` tab, in its order. */
  lemma SharedAndMineWithinAll(agents: seq<Agent>)
    ensures IsSubsequence(FilteredAgents(agents, "shared"), FilteredAgents(agents, "all"))
    ensures IsSubsequence(FilteredAgents(agents, "mine"), FilteredAgents(agents, "all"))
  {
    FilterNarrow(agents, IsSharedRegular, IsRegular);
    FilterNarrow(agents, IsMineRegular, IsRegular);
  }
}
