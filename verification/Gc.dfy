/** controller/sync/sync.go: the periodic clean-up of the store.  The listings of agent pods and of test
    resources are parameters; after a failed listing the code goes on with an empty one.  The clock stands
    still during a pass. */
module Gc {
  import opened Ids
  import opened TestConfigs
  import opened Store

  function AgentOf(f: Field): AgentStatus {
    if f.AgentF? then f.agent else PLACEHOLDER
  }

  /** An agent is inactive only if its status time parses and is too old. */
  predicate Active(st: AgentStatus, now: int, deadline: int) {
    st.statusTime.Some? ==> now - st.statusTime.value < deadline
  }

  function ActiveAgents(db: Db, now: int, deadline: int): map<string, AgentStatus> {
    var agents := Fields(db, AgentsAll);
    map a | a in agents && Active(AgentOf(agents[a]), now, deadline) :: AgentOf(agents[a])
  }

  /** The agent is among the active ones and reports the test. */
  predicate Live(active: map<string, AgentStatus>, c: Components) {
    var agentId := AgentId(c.podName, c.podNs);
    agentId in active && ConfigId(c.testName, c.testNs) in active[agentId].synTests
  }

  predicate Stale(active: map<string, AgentStatus>, pluginId: string) {
    var c := PluginIdComponents(pluginId);
    c.Some? && !Live(active, c.value)
  }

  ghost function OrphanConfigs(db: Db, crds: set<string>): set<string> {
    Fields(db, ConfigSummary).Keys - crds
  }

  ghost function StalePlugins(db: Db, now: int, deadline: int): set<string> {
    set p | p in Fields(db, RunStatuses) && Stale(ActiveAgents(db, now, deadline), p)
  }

  // ---------------------------------------------------------------- what a pass does to the store

  /** `after` differs from `before` only in the agents: placeholders for the added ones that were missing, and
      no removed ones. */
  ghost predicate Registered(before: Db, after: Db, added: set<string>, removed: set<string>) {
    && (forall k :: k != AgentsAll ==> Store.Lookup(after, k) == Store.Lookup(before, k))
    && (forall a :: Get(Fields(after, AgentsAll), a) == AgentAfter(before, added, removed, a))
  }

  ghost function AgentAfter(before: Db, added: set<string>, removed: set<string>, a: string): Option<Field> {
    if a in removed then None
    else if a in Fields(before, AgentsAll) then Some(Fields(before, AgentsAll)[a])
    else if a in added then Some(AgentF(PLACEHOLDER))
    else None
  }

  predicate IsHash(k: Key) {
    k.RunStatuses? || k.PluginStatuses? || k.ConfigSummary? || k.AgentsAll?
  }

  /** The key holds data of one of these configs or plugins. */
  predicate Belongs(k: Key, configs: set<string>, plugins: set<string>) {
    match k
    case ConfigJson(c) => c in configs
    case ConfigRaw(c) => c in configs
    case ConfigStatus(c) => c in configs
    case LatestRun(p) => p in plugins
    case LastFailedRun(p) => p in plugins
    case LatestHealth(p) => p in plugins
    case LastUnhealthy(p) => p in plugins
    case _ => false
  }

  /** `after` is `before` without everything that belongs to the given configs and plugins. */
  ghost predicate Swept(before: Db, after: Db, configs: set<string>, plugins: set<string>) {
    && (forall k :: !IsHash(k) ==>
          Store.Lookup(after, k) == if Belongs(k, configs, plugins) then None else Store.Lookup(before, k))
    && Fields(after, ConfigSummary) == Fields(before, ConfigSummary) - configs
    && Fields(after, RunStatuses) == Fields(before, RunStatuses) - plugins
    && Fields(after, PluginStatuses) == Fields(before, PluginStatuses) - plugins
    && Fields(after, AgentsAll) == Fields(before, AgentsAll)
  }

  ghost predicate TestsCollected(before: Db, after: Db, crds: set<string>, now: int, deadline: int) {
    Swept(before, after, OrphanConfigs(before, crds), StalePlugins(before, now, deadline))
  }

  ghost predicate Collected(before: Db, after: Db, pods: set<string>, crds: set<string>, now: int, deadline: int) {
    exists mid ::
      && Registered(before, mid, pods, Fields(before, AgentsAll).Keys - pods)
      && TestsCollected(mid, after, crds, now, deadline)
  }

  /** Nothing is left to do. */
  ghost predicate Clean(db: Db, pods: set<string>, crds: set<string>, now: int, deadline: int) {
    && Fields(db, AgentsAll).Keys == pods
    && OrphanConfigs(db, crds) == {}
    && StalePlugins(db, now, deadline) == {}
  }

  // ---------------------------------------------------------------- single steps

  lemma AddAgent(before: Db, db: Db, added: set<string>, a: string)
    requires Registered(before, db, added, {}) && a !in Fields(before, AgentsAll)
    ensures Registered(before, Store.Apply(db, WriteAgent(a, PLACEHOLDER)), added + {a}, {})
  {
    var after := Store.Apply(db, WriteAgent(a, PLACEHOLDER));
    assert Fields(after, AgentsAll) == Fields(db, AgentsAll)[a := AgentF(PLACEHOLDER)];
    forall b ensures Get(Fields(after, AgentsAll), b) == AgentAfter(before, added + {a}, {}, b) {
      assert Get(Fields(db, AgentsAll), b) == AgentAfter(before, added, {}, b);
    }
  }

  lemma RemoveAgent(before: Db, db: Db, added: set<string>, removed: set<string>, a: string)
    requires Registered(before, db, added, removed)
    ensures Registered(before, Store.Apply(db, DeleteAgent(a)), added, removed + {a})
  {
    var after := Store.Apply(db, DeleteAgent(a));
    assert Fields(after, AgentsAll) == Fields(db, AgentsAll) - {a};
    forall b ensures Get(Fields(after, AgentsAll), b) == AgentAfter(before, added, removed + {a}, b) {
      assert Get(Fields(db, AgentsAll), b) == AgentAfter(before, added, removed, b);
    }
  }

  lemma SweepConfig(before: Db, db: Db, configs: set<string>, id: string)
    requires Swept(before, db, configs, {})
    ensures Swept(before, Store.Apply(db, DeleteConfig(id)), configs + {id}, {})
  {
    var after := Store.Apply(db, DeleteConfig(id));
    assert Fields(after, ConfigSummary) == Fields(db, ConfigSummary) - {id};
  }

  lemma SweepPlugin(before: Db, db: Db, configs: set<string>, plugins: set<string>, p: string)
    requires Swept(before, db, configs, plugins)
    ensures Swept(before, Store.Apply(db, DeleteRuns(p)), configs, plugins + {p})
  {
    var after := Store.Apply(db, DeleteRuns(p));
    DeletedFields(db, p);
    forall k | !IsHash(k)
      ensures Store.Lookup(after, k) == if Belongs(k, configs, plugins + {p}) then None else Store.Lookup(before, k)
    {
      DeletedKeys(db, p, k);
    }
  }

  lemma DeletedFields(db: Db, p: string)
    ensures var after := Store.Apply(db, DeleteRuns(p));
            && Fields(after, RunStatuses) == Fields(db, RunStatuses) - {p}
            && Fields(after, PluginStatuses) == Fields(db, PluginStatuses) - {p}
            && Fields(after, ConfigSummary) == Fields(db, ConfigSummary)
            && Fields(after, AgentsAll) == Fields(db, AgentsAll)
  {
  }

  lemma DeletedKeys(db: Db, p: string, k: Key)
    requires !IsHash(k)
    ensures Store.Lookup(Store.Apply(db, DeleteRuns(p)), k) == if Belongs(k, {}, {p}) then None else Store.Lookup(db, k)
  {
  }

  // ---------------------------------------------------------------- the code

  method FetchActiveAgents(store: RedisStore, now: int, deadline: int) returns (agents: map<string, AgentStatus>)
    requires store.Valid()
    ensures agents == ActiveAgents(store.db, now, deadline)
    ensures forall a :: a in agents <==>
              && a in Fields(store.db, AgentsAll)
              && match AgentOf(Fields(store.db, AgentsAll)[a]).statusTime
                 case None => true
                 case Some(t) => now - t < deadline
    ensures forall a :: a in agents ==> agents[a] == AgentOf(Fields(store.db, AgentsAll)[a])
  {
    var fields := store.HGetAllR(AgentsAll);
    agents := map a | a in fields :: AgentOf(fields[a]);
    var rest := agents.Keys;
    while rest != {}
      invariant rest <= agents.Keys <= fields.Keys
      invariant forall a :: a in agents ==> agents[a] == AgentOf(fields[a])
      invariant forall a :: a in fields ==> (a in agents <==> a in rest || Active(AgentOf(fields[a]), now, deadline))
      decreases rest
    {
      var a :| a in rest;
      rest := rest - {a};
      if agents[a].statusTime.Some? && now - agents[a].statusTime.value >= deadline {
        agents := agents - {a};
      }
    }
  }

  /** Registers the pods that have no status. */
  method RegisterPods(store: RedisStore, agents: map<string, Field>, pods: set<string>)
    requires store.Valid() && agents == Fields(store.db, AgentsAll)
    modifies store
    ensures store.Valid() && Registered(old(store.db), store.db, pods, {})
    ensures pods <= agents.Keys ==> store.db == old(store.db)
  {
    var todo := pods;
    ghost var added: set<string> := {};
    while todo != {}
      invariant store.Valid() && todo <= pods && added == pods - todo - agents.Keys
      invariant Registered(old(store.db), store.db, added, {})
      invariant added == {} ==> store.db == old(store.db)
      decreases todo
    {
      var a :| a in todo;
      if a !in agents {
        AddAgent(old(store.db), store.db, added, a);
        store.WriteAgentStatus(a, PLACEHOLDER);
        added := added + {a};
      }
      todo := todo - {a};
    }
  }

  /** Registers new agents and removes those without a pod. */
  method SyncAgents(store: RedisStore, pods: set<string>)
    requires store.Valid()
    modifies store
    ensures store.Valid()
    ensures Registered(old(store.db), store.db, pods, Fields(old(store.db), AgentsAll).Keys - pods)
    ensures Fields(old(store.db), AgentsAll).Keys == pods ==> store.db == old(store.db)
  {
    var agents := store.HGetAllR(AgentsAll);
    RegisterPods(store, agents, pods);
    var todo := agents.Keys;
    ghost var removed: set<string> := {};
    while todo != {}
      invariant store.Valid() && todo <= agents.Keys && removed == agents.Keys - todo - pods
      invariant Registered(old(store.db), store.db, pods, removed)
      invariant agents.Keys == pods ==> store.db == old(store.db)
      decreases todo
    {
      var a :| a in todo;
      if a !in pods {
        RemoveAgent(old(store.db), store.db, pods, removed, a);
        store.DeleteAgentStatus(a);
        removed := removed + {a};
      }
      todo := todo - {a};
    }
  }

  /** Removes the configs without a resource. */
  method DropConfigs(store: RedisStore, crds: set<string>)
    requires store.Valid()
    modifies store
    ensures store.Valid() && Swept(old(store.db), store.db, OrphanConfigs(old(store.db), crds), {})
    ensures OrphanConfigs(old(store.db), crds) == {} ==> store.db == old(store.db)
  {
    var summary := store.HGetAllR(ConfigSummary);
    var todo := summary.Keys;
    ghost var gone: set<string> := {};
    while todo != {}
      invariant store.Valid() && todo <= summary.Keys && gone == summary.Keys - todo - crds
      invariant Swept(old(store.db), store.db, gone, {})
      invariant gone == {} ==> store.db == old(store.db)
      decreases todo
    {
      var id :| id in todo;
      if id !in crds {
        SweepConfig(old(store.db), store.db, gone, id);
        store.DeleteTestConfig(id);
        gone := gone + {id};
      }
      todo := todo - {id};
    }
  }

  /** Removes the configs without a resource, then the data of stale plugins. */
  method SyncTests(store: RedisStore, crds: set<string>, now: int, deadline: int)
    requires store.Valid()
    modifies store
    ensures store.Valid() && TestsCollected(old(store.db), store.db, crds, now, deadline)
    ensures OrphanConfigs(old(store.db), crds) == {} && StalePlugins(old(store.db), now, deadline) == {}
            ==> store.db == old(store.db)
  {
    ghost var orphans := OrphanConfigs(store.db, crds);
    DropConfigs(store, crds);
    var status := store.HGetAllR(RunStatuses);
    var active := FetchActiveAgents(store, now, deadline);
    assert active == ActiveAgents(old(store.db), now, deadline);
    var todo := status.Keys;
    ghost var gone: set<string> := {};
    while todo != {}
      invariant store.Valid() && todo <= status.Keys
      invariant forall p :: p in gone <==> p in status && p !in todo && Stale(active, p)
      invariant Swept(old(store.db), store.db, orphans, gone)
      invariant orphans == {} && gone == {} ==> store.db == old(store.db)
      decreases todo
    {
      var p :| p in todo;
      todo := todo - {p};
      var c := PluginIdComponents(p);
      if c.None? {
        continue;
      }
      if !Live(active, c.value) {
        SweepPlugin(old(store.db), store.db, orphans, gone, p);
        store.DeleteAllTestRunInfo(p);
        gone := gone + {p};
      }
    }
    assert gone == StalePlugins(old(store.db), now, deadline);
  }

  method SyncAll(store: RedisStore, pods: set<string>, crds: set<string>, now: int, deadline: int)
    requires store.Valid()
    modifies store
    ensures store.Valid() && Collected(old(store.db), store.db, pods, crds, now, deadline)
    ensures Clean(old(store.db), pods, crds, now, deadline) ==> store.db == old(store.db)
  {
    SyncAgents(store, pods);
    ghost var mid := store.db;
    SyncTests(store, crds, now, deadline);
    assert TestsCollected(mid, store.db, crds, now, deadline);
  }

  // ---------------------------------------------------------------- what survives a pass

  /** The agents after a pass are the pods; no summary entry lacks a resource; a test-run entry survives exactly
      if it does not parse, or its pod exists, has reported recently enough (or with an unreadable time), and
      reports the test; and surviving entries keep their value. */
  lemma SurvivorsAreLive(before: Db, after: Db, pods: set<string>, crds: set<string>, now: int, deadline: int,
                         p: string)
    requires Collected(before, after, pods, crds, now, deadline)
    ensures Fields(after, AgentsAll).Keys == pods
    ensures Fields(after, ConfigSummary).Keys == Fields(before, ConfigSummary).Keys * crds
    ensures p in Fields(after, RunStatuses) <==>
              && p in Fields(before, RunStatuses)
              && (PluginIdComponents(p).None? || LiveIn(before, pods, now, deadline, PluginIdComponents(p).value))
    ensures p in Fields(after, RunStatuses) ==> Fields(after, RunStatuses)[p] == Fields(before, RunStatuses)[p]
    ensures p in Fields(before, RunStatuses) && p !in Fields(after, RunStatuses) ==>
              Store.Lookup(after, LatestRun(p)) == None
  {
    var mid :| Registered(before, mid, pods, Fields(before, AgentsAll).Keys - pods)
               && TestsCollected(mid, after, crds, now, deadline);
    RegisteredAgents(before, mid, pods);
    SameHash(before, mid, ConfigSummary);
    SameHash(before, mid, RunStatuses);
    var c := PluginIdComponents(p);
    if c.Some? {
      var a := AgentId(c.value.podName, c.value.podNs);
      assert Get(Fields(mid, AgentsAll), a) == AgentAfter(before, pods, Fields(before, AgentsAll).Keys - pods, a);
    }
  }

  ghost predicate LiveIn(db: Db, pods: set<string>, now: int, deadline: int, c: Components) {
    var agents := Fields(db, AgentsAll);
    var a := AgentId(c.podName, c.podNs);
    && a in pods && a in agents && ConfigId(c.testName, c.testNs) in AgentOf(agents[a]).synTests
    && match AgentOf(agents[a]).statusTime
       case None => true
       case Some(t) => now - t < deadline
  }

  /** A well-formed run entry of an existing pod that reports the test, with a readable status time: it survives
      exactly if the status is younger than the deadline. */
  lemma FreshRunSurvivesIff(before: Db, after: Db, pods: set<string>, crds: set<string>, now: int, deadline: int,
                            testName: string, testNs: string, podName: string, podNs: string, st: AgentStatus, t: int)
    requires Collected(before, after, pods, crds, now, deadline)
    requires SlashFree(testName) && SlashFree(testNs) && SlashFree(podName) && SlashFree(podNs)
    requires podName + "/" + podNs in pods && testName + "/" + testNs in st.synTests && st.statusTime == Some(t)
    requires Get(Fields(before, AgentsAll), podName + "/" + podNs) == Some(AgentF(st))
    ensures var p := testName + "/" + testNs + "/" + podName + "/" + podNs;
            p in Fields(before, RunStatuses) ==> (p in Fields(after, RunStatuses) <==> now - t < deadline)
  {
    var p := testName + "/" + testNs + "/" + podName + "/" + podNs;
    PluginIdRoundTrip(testName, testNs, podName, podNs);
    assert p == PluginId(testName, testNs, AgentId(podName, podNs));
    SurvivorsAreLive(before, after, pods, crds, now, deadline, p);
  }

  lemma RegisteredAgents(before: Db, after: Db, pods: set<string>)
    requires Registered(before, after, pods, Fields(before, AgentsAll).Keys - pods)
    ensures Fields(after, AgentsAll).Keys == pods
  {
    forall a ensures a in Fields(after, AgentsAll) <==> a in pods {
      assert Get(Fields(after, AgentsAll), a) == AgentAfter(before, pods, Fields(before, AgentsAll).Keys - pods, a);
    }
  }

  lemma SameHash(before: Db, after: Db, k: Key)
    requires Store.Lookup(after, k) == Store.Lookup(before, k)
    ensures Fields(after, k) == Fields(before, k)
  {
  }

  /** A pass leaves nothing for a second one at the same time, which by SyncAll then changes nothing. */
  lemma OnePassIsEnough(before: Db, after: Db, pods: set<string>, crds: set<string>, now: int, deadline: int)
    requires Collected(before, after, pods, crds, now, deadline)
    ensures Clean(after, pods, crds, now, deadline)
  {
    var mid :| Registered(before, mid, pods, Fields(before, AgentsAll).Keys - pods)
               && TestsCollected(mid, after, crds, now, deadline);
    RegisteredAgents(before, mid, pods);
    assert ActiveAgents(after, now, deadline) == ActiveAgents(mid, now, deadline);
  }

  /** The health entries that survive.  The pass looks at run entries only, so a plugin-status entry without one
      survives every pass, however dead its agent is. */
  lemma HealthSurvivors(before: Db, after: Db, pods: set<string>, crds: set<string>, now: int, deadline: int, p: string)
    requires Collected(before, after, pods, crds, now, deadline)
    ensures p in Fields(after, PluginStatuses) <==>
              && p in Fields(before, PluginStatuses)
              && (p !in Fields(before, RunStatuses) || p in Fields(after, RunStatuses))
    ensures var gone := p in Fields(before, RunStatuses) && p !in Fields(after, RunStatuses);
            && Store.Lookup(after, LatestHealth(p)) == (if gone then None else Store.Lookup(before, LatestHealth(p)))
            && Store.Lookup(after, LastUnhealthy(p)) == (if gone then None else Store.Lookup(before, LastUnhealthy(p)))
  {
    var mid :| Registered(before, mid, pods, Fields(before, AgentsAll).Keys - pods)
               && TestsCollected(mid, after, crds, now, deadline);
    SameHash(before, mid, RunStatuses);
    SameHash(before, mid, PluginStatuses);
    assert Store.Lookup(mid, LatestHealth(p)) == Store.Lookup(before, LatestHealth(p));
    assert Store.Lookup(mid, LastUnhealthy(p)) == Store.Lookup(before, LastUnhealthy(p));
  }

  /** The configs that survive: exactly those without a summary entry or with a resource keep their keys. */
  lemma ConfigSurvivors(before: Db, after: Db, pods: set<string>, crds: set<string>, now: int, deadline: int,
                        id: string)
    requires Collected(before, after, pods, crds, now, deadline)
    ensures var gone := id in Fields(before, ConfigSummary) && id !in crds;
            && StoredConfig(after, id) == (if gone then None else StoredConfig(before, id))
            && Store.Lookup(after, ConfigRaw(id)) == (if gone then None else Store.Lookup(before, ConfigRaw(id)))
            && Store.Lookup(after, ConfigStatus(id)) == (if gone then None else Store.Lookup(before, ConfigStatus(id)))
  {
    var mid :| Registered(before, mid, pods, Fields(before, AgentsAll).Keys - pods)
               && TestsCollected(mid, after, crds, now, deadline);
    SameHash(before, mid, ConfigSummary);
    forall k | k in {ConfigJson(id), ConfigRaw(id), ConfigStatus(id)}
      ensures Store.Lookup(after, k) == if id in OrphanConfigs(before, crds) then None else Store.Lookup(before, k)
    {
      assert Store.Lookup(mid, k) == Store.Lookup(before, k);
    }
    assert StoredFrom(Store.Lookup(after, ConfigJson(id))) == StoredConfig(after, id);
    assert StoredFrom(Store.Lookup(before, ConfigJson(id))) == StoredConfig(before, id);
  }

  function StoredFrom(v: Option<Value>): Option<TestConfig> {
    if v.Some? && v.value.ConfigV? then Some(v.value.config) else None
  }

  /** After a failed listing of the pods: every agent and every well-formed test-run entry is gone. */
  lemma FailedPodListingWipes(before: Db, after: Db, crds: set<string>, now: int, deadline: int)
    requires Collected(before, after, {}, crds, now, deadline)
    ensures Fields(after, AgentsAll) == map[]
    ensures forall p :: p in Fields(after, RunStatuses) ==> PluginIdComponents(p).None?
  {
    SurvivorsAreLive(before, after, {}, crds, now, deadline, "");
    forall p | p in Fields(after, RunStatuses) ensures PluginIdComponents(p).None? {
      SurvivorsAreLive(before, after, {}, crds, now, deadline, p);
    }
  }

  /** After a failed listing of the test resources: the summary is empty, and every config it listed is gone. */
  lemma FailedTestListingWipes(before: Db, after: Db, pods: set<string>, now: int, deadline: int)
    requires Collected(before, after, pods, {}, now, deadline)
    ensures Fields(after, ConfigSummary) == map[]
    ensures forall id :: id in Fields(before, ConfigSummary) ==> StoredConfig(after, id) == None
  {
    SurvivorsAreLive(before, after, pods, {}, now, deadline, "");
    forall id | id in Fields(before, ConfigSummary) ensures StoredConfig(after, id) == None {
      ConfigSurvivors(before, after, pods, {}, now, deadline, id);
    }
  }
}
