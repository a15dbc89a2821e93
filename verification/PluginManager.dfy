/** agent/pluginmanager/pluginManager.go: one agent's cache of running tests, its sync against the
    store, and the interleaving of its sync loop with the plugin goroutines. */
module PluginManagers {
  import opened Ids
  import opened Propagation
  import opened TestConfigs
  import opened StateMaps
  import Store
  import Validity

  function PluginIdOf(c: TestConfig, agentId: string): string {
    PluginId(c.name, c.namespace, agentId)
  }

  predicate ProperNames(c: TestConfig) {
    SlashFree(c.name) && SlashFree(c.namespace)
  }

  /** Cached configs sit under their own id, and the plugin-state keys are exactly their plugin ids. */
  ghost predicate KeysMatch(configs: map<string, TestConfig>, keys: set<string>, agentId: string) {
    && (forall id :: id in configs ==> Id(configs[id]) == id && ProperNames(configs[id]))
    && (forall id :: id in configs ==> PluginIdOf(configs[id], agentId) in keys)
    && (forall k :: k in keys ==> exists id :: id in configs && PluginIdOf(configs[id], agentId) == k)
  }

  lemma DistinctPluginIds(c: TestConfig, d: TestConfig, agentId: string)
    requires ProperNames(c) && ProperNames(d)
    ensures PluginIdOf(c, agentId) == PluginIdOf(d, agentId) <==> Id(c) == Id(d)
  {
    PluginIdInjective(c.name, c.namespace, d.name, d.namespace, agentId);
  }

  lemma KeysMatchAdd(configs: map<string, TestConfig>, keys: set<string>, agentId: string, c: TestConfig)
    requires KeysMatch(configs, keys, agentId) && ProperNames(c) && Id(c) !in configs
    ensures KeysMatch(configs[Id(c) := c], keys + {PluginIdOf(c, agentId)}, agentId)
  {
    var configs' := configs[Id(c) := c];
    forall k | k in keys + {PluginIdOf(c, agentId)}
      ensures exists id :: id in configs' && PluginIdOf(configs'[id], agentId) == k
    {
      if k in keys {
        var id :| id in configs && PluginIdOf(configs[id], agentId) == k;
        assert configs'[id] == configs[id];
      } else {
        assert configs'[Id(c)] == c;
      }
    }
  }

  lemma KeysMatchRemove(configs: map<string, TestConfig>, keys: set<string>, agentId: string, gone: string)
    requires KeysMatch(configs, keys, agentId) && gone in configs
    ensures KeysMatch(configs - {gone}, keys - {PluginIdOf(configs[gone], agentId)}, agentId)
  {
    forall id | id in configs - {gone} ensures PluginIdOf(configs[id], agentId) != PluginIdOf(configs[gone], agentId) {
      DistinctPluginIds(configs[id], configs[gone], agentId);
    }
    forall k | k in keys - {PluginIdOf(configs[gone], agentId)}
      ensures exists id :: id in configs - {gone} && PluginIdOf((configs - {gone})[id], agentId) == k
    {
      var id :| id in configs && PluginIdOf(configs[id], agentId) == k;
      assert (configs - {gone})[id] == configs[id];
    }
  }

  function Configs(tests: map<string, Entry>): map<string, TestConfig> {
    map id | id in tests :: tests[id].config
  }

  lemma ConfigsAdd(tests: map<string, Entry>, keys: set<string>, agentId: string, c: TestConfig, version: string)
    requires KeysMatch(Configs(tests), keys, agentId) && ProperNames(c) && Id(c) !in tests
    ensures KeysMatch(Configs(tests[Id(c) := Entry(c, version)]), keys + {PluginIdOf(c, agentId)}, agentId)
  {
    KeysMatchAdd(Configs(tests), keys, agentId, c);
    assert Configs(tests[Id(c) := Entry(c, version)]) == Configs(tests)[Id(c) := c];
  }

  lemma ConfigsRemove(tests: map<string, Entry>, keys: set<string>, agentId: string, id: string)
    requires KeysMatch(Configs(tests), keys, agentId) && id in tests
    ensures KeysMatch(Configs(tests - {id}), keys - {PluginIdOf(tests[id].config, agentId)}, agentId)
  {
    KeysMatchRemove(Configs(tests), keys, agentId, id);
    assert Configs(tests - {id}) == Configs(tests) - {id};
  }

  /** A sync that has yet to look at the ids in `todo`. */
  ghost predicate PartlySynced(accept: TestConfig -> bool, before: map<string, Entry>, now: map<string, Entry>,
                               summary: map<string, string>, fetched: map<string, TestConfig>, todo: set<string>) {
    forall id :: Get(now, id) == if id in todo then Get(before, id)
                                 else SyncedEntry(accept, Get(before, id), Get(summary, id), Get(fetched, id))
  }

  lemma PartlySyncedStep(accept: TestConfig -> bool, before: map<string, Entry>, now: map<string, Entry>,
                         next: map<string, Entry>,
                         summary: map<string, string>, fetched: map<string, TestConfig>, todo: set<string>, id: string)
    requires PartlySynced(accept, before, now, summary, fetched, todo) && id in todo && id in summary
    requires Get(next, id) == SyncedEntry(accept, Get(now, id), Some(summary[id]), Get(fetched, id))
    requires forall j :: j != id ==> Get(next, j) == Get(now, j)
    ensures PartlySynced(accept, before, next, summary, fetched, todo - {id})
    ensures Get(now, id) == Get(before, id)
    ensures next != before <==> Get(next, id) != Get(now, id) || now != before
  {
    assert Get(now, id) == Get(before, id);
    if Get(next, id) == Get(now, id) {
      SameEntries(next, now);
    } else {
      assert next != before;
    }
  }

  lemma SameEntries(m: map<string, Entry>, n: map<string, Entry>)
    requires forall id :: Get(m, id) == Get(n, id)
    ensures m == n
  {
    forall id ensures (id in m <==> id in n) && (id in m ==> m[id] == n[id]) {
      assert Get(m, id) == Get(n, id);
    }
  }

  lemma StoppingStartsSync(accept: TestConfig -> bool, before: map<string, Entry>, now: map<string, Entry>,
                           summary: map<string, string>, fetched: map<string, TestConfig>)
    requires now == before - (before.Keys - summary.Keys)
    ensures PartlySynced(accept, before, now, summary, fetched, summary.Keys)
    ensures now != before <==> before.Keys - summary.Keys != {}
  {
    if before.Keys - summary.Keys != {} {
      var id :| id in before.Keys - summary.Keys;
      assert id !in now;
    }
  }

  /** A test of this plugin was stopped between the two caches. */
  ghost predicate Stopped(before: map<string, Entry>, now: map<string, Entry>, agentId: string, p: string) {
    exists id :: id in before && Get(now, id) != Get(before, id) && PluginIdOf(before[id].config, agentId) == p
  }

  /** The store lost the run data of exactly the stopped tests. */
  ghost predicate RunsCleared(db: Store.Db, after: Store.Db, before: map<string, Entry>, now: map<string, Entry>,
                              agentId: string) {
    forall p ::
      Store.ViewOf(after, p) == if Stopped(before, now, agentId, p) then Store.NOTHING else Store.ViewOf(db, p)
  }

  /** What one test's sync does to the store. */
  ghost function ClearedBy(db: Store.Db, before: map<string, Entry>, now: map<string, Entry>, agentId: string,
                           id: string): Store.Db {
    if id in before && Get(now, id) != Get(before, id)
    then Store.Apply(db, Store.DeleteRuns(PluginIdOf(before[id].config, agentId)))
    else db
  }

  lemma ClearStep(db: Store.Db, mid: Store.Db, before: map<string, Entry>, now: map<string, Entry>,
                  next: map<string, Entry>, agentId: string, id: string)
    requires RunsCleared(db, mid, before, now, agentId)
    requires Get(now, id) == Get(before, id) && forall j :: j != id ==> Get(next, j) == Get(now, j)
    ensures RunsCleared(db, ClearedBy(mid, now, next, agentId, id), before, next, agentId)
  {
    var after := ClearedBy(mid, now, next, agentId, id);
    forall p
      ensures Store.ViewOf(after, p) == if Stopped(before, next, agentId, p) then Store.NOTHING else Store.ViewOf(db, p)
    {
      StoppedStep(before, now, next, agentId, id, p);
      if after != mid {
        Store.DeletionClears(mid, PluginIdOf(now[id].config, agentId), p);
      }
    }
  }

  lemma StoppedStep(before: map<string, Entry>, now: map<string, Entry>, next: map<string, Entry>, agentId: string,
                    id: string, p: string)
    requires Get(now, id) == Get(before, id) && forall j :: j != id ==> Get(next, j) == Get(now, j)
    ensures Stopped(before, next, agentId, p) <==>
              || Stopped(before, now, agentId, p)
              || (id in now && Get(next, id) != Get(now, id) && PluginIdOf(now[id].config, agentId) == p)
  {
    if Stopped(before, now, agentId, p) {
      var j :| j in before && Get(now, j) != Get(before, j) && PluginIdOf(before[j].config, agentId) == p;
      assert Get(next, j) != Get(before, j);
    }
  }

  /** Starting a test afterwards stops no other one, and its own entry has changed anyway. */
  lemma RestartKeepsCleared(db: Store.Db, after: Store.Db, before: map<string, Entry>, now: map<string, Entry>,
                            next: map<string, Entry>, agentId: string, id: string)
    requires RunsCleared(db, after, before, now, agentId) && id !in now
    requires forall j :: j != id ==> Get(next, j) == Get(now, j)
    requires id in before ==> Get(next, id) != Get(before, id)
    ensures RunsCleared(db, after, before, next, agentId)
  {
    forall p ensures Stopped(before, next, agentId, p) <==> Stopped(before, now, agentId, p) {
      if Stopped(before, now, agentId, p) {
        var j :| j in before && Get(now, j) != Get(before, j) && PluginIdOf(before[j].config, agentId) == p;
        assert Get(next, j) != Get(before, j);
      }
    }
  }

  /** The plugin state StartTestRoutine sets; `known` says whether the plugin is registered on this agent. */
  function InitialState(known: bool): PluginState {
    PluginState(if known then Unknown else Errored, -1, -1, 0)
  }

  /** A test that was kept has its plugin state untouched, one that was started has a new one. */
  ghost predicate StateFollows(known: TestConfig -> bool, before: map<string, Entry>, now: map<string, Entry>,
                               states: map<string, PluginState>, after: map<string, PluginState>, agentId: string,
                               id: string) {
    id in now ==>
      var p := PluginIdOf(now[id].config, agentId);
      Get(after, p) == if Get(now, id) == Get(before, id) then Get(states, p)
                       else Some(InitialState(known(now[id].config)))
  }

  ghost predicate StatesFollow(known: TestConfig -> bool, before: map<string, Entry>, now: map<string, Entry>,
                               states: map<string, PluginState>, after: map<string, PluginState>, agentId: string) {
    forall id :: StateFollows(known, before, now, states, after, agentId, id)
  }

  /** Cached tests with different ids have different plugin ids. */
  lemma CachedIdsDiffer(now: map<string, Entry>, keys: set<string>, agentId: string, id: string, j: string)
    requires KeysMatch(Configs(now), keys, agentId) && id in now && j in now && id != j
    ensures PluginIdOf(now[j].config, agentId) != PluginIdOf(now[id].config, agentId)
  {
    assert Configs(now)[j] == now[j].config && Configs(now)[id] == now[id].config;
    DistinctPluginIds(now[j].config, now[id].config, agentId);
  }

  lemma StopKeepsStates(known: TestConfig -> bool, before: map<string, Entry>, now: map<string, Entry>,
                        states: map<string, PluginState>, mid: map<string, PluginState>, agentId: string, id: string)
    requires StatesFollow(known, before, now, states, mid, agentId) && id in now
    requires KeysMatch(Configs(now), mid.Keys, agentId)
    ensures StatesFollow(known, before, now - {id}, states, mid - {PluginIdOf(now[id].config, agentId)}, agentId)
  {
    var next, after := now - {id}, mid - {PluginIdOf(now[id].config, agentId)};
    forall j ensures StateFollows(known, before, next, states, after, agentId, j) {
      assert StateFollows(known, before, now, states, mid, agentId, j);
      if j in next {
        CachedIdsDiffer(now, mid.Keys, agentId, id, j);
      }
    }
  }

  lemma StartKeepsStates(known: TestConfig -> bool, before: map<string, Entry>, now: map<string, Entry>,
                         states: map<string, PluginState>, mid: map<string, PluginState>, agentId: string, e: Entry)
    requires StatesFollow(known, before, now, states, mid, agentId) && KeysMatch(Configs(now), mid.Keys, agentId)
    requires ProperNames(e.config) && Id(e.config) !in now && Get(before, Id(e.config)) != Some(e)
    ensures StatesFollow(known, before, now[Id(e.config) := e], states,
                         mid[PluginIdOf(e.config, agentId) := InitialState(known(e.config))], agentId)
  {
    var next := now[Id(e.config) := e];
    var after := mid[PluginIdOf(e.config, agentId) := InitialState(known(e.config))];
    forall j ensures StateFollows(known, before, next, states, after, agentId, j) {
      assert StateFollows(known, before, now, states, mid, agentId, j);
      if j in now {
        assert Configs(now)[j] == now[j].config;
        DistinctPluginIds(now[j].config, e.config, agentId);
      }
    }
  }

  /** A test whose entry is kept keeps its plugin state and its run data. */
  lemma KeptTestKeepsData(known: TestConfig -> bool, before: map<string, Entry>, now: map<string, Entry>,
                          states: map<string, PluginState>, after: map<string, PluginState>, db: Store.Db,
                          dbAfter: Store.Db, agentId: string, id: string)
    requires StatesFollow(known, before, now, states, after, agentId) && RunsCleared(db, dbAfter, before, now, agentId)
    requires KeysMatch(Configs(before), states.Keys, agentId) && id in before && Get(now, id) == Get(before, id)
    ensures var p := PluginIdOf(before[id].config, agentId);
            Get(after, p) == Get(states, p) && Store.ViewOf(dbAfter, p) == Store.ViewOf(db, p)
  {
    var p := PluginIdOf(before[id].config, agentId);
    assert StateFollows(known, before, now, states, after, agentId, id);
    forall j | j in before && PluginIdOf(before[j].config, agentId) == p ensures j == id {
      if j != id {
        CachedIdsDiffer(before, states.Keys, agentId, id, j);
      }
    }
    assert !Stopped(before, now, agentId, p);
  }

  /** The test goes on: same entry, same plugin state, same run data. */
  ghost predicate Kept(before: map<string, Entry>, now: map<string, Entry>, states: map<string, PluginState>,
                       after: map<string, PluginState>, db: Store.Db, dbAfter: Store.Db, agentId: string, id: string)
    requires id in before
  {
    var p := PluginId(before[id].config.name, before[id].config.namespace, agentId);
    && Get(now, id) == Some(before[id])
    && Get(after, p) == Get(states, p)
    && Store.ViewOf(dbAfter, p) == Store.ViewOf(db, p)
  }

  class PluginManager {
    const agentId: string
    const sm: StateMap
    const store: Store.RedisStore
    var tests: map<string, Entry>

    ghost predicate Valid()
      reads this, sm, store
    {
      store.Valid() && KeysMatch(Configs(tests), sm.states.Keys, agentId)
    }

    constructor (agentId: string, sm: StateMap, store: Store.RedisStore)
      requires sm.states == map[] && store.Valid()
      ensures Valid() && tests == map[] && this.agentId == agentId && this.sm == sm && this.store == store
    {
      this.agentId := agentId;
      this.sm := sm;
      this.store := store;
      tests := map[];
    }

    /** Runs after the test's goroutine has finished. */
    method StopAndDeleteSynTest(id: string)
      requires Valid() && id in tests
      modifies this, sm, store
      ensures Valid()
      ensures tests == old(tests) - {id}
      ensures sm.states == old(sm.states) - {PluginIdOf(old(tests[id].config), agentId)}
      ensures store.db == Store.Apply(old(store.db), Store.DeleteRuns(PluginIdOf(old(tests[id].config), agentId)))
    {
      var pluginId := PluginIdOf(tests[id].config, agentId);
      ConfigsRemove(tests, sm.states.Keys, agentId, id);
      sm.DeletePluginState(pluginId);
      tests := tests - {id};
      store.DeleteAllTestRunInfo(pluginId);
      assert sm.states.Keys == old(sm.states.Keys) - {pluginId};
    }

    /** Caches the test and publishes its first plugin state; `known` says whether the plugin is
        registered on this agent. */
    method StartTestRoutine(c: TestConfig, version: string, known: bool)
      requires Valid() && ProperNames(c) && Id(c) !in tests
      modifies this, sm
      ensures Valid()
      ensures tests == old(tests)[Id(c) := Entry(c, version)]
      ensures var initial := PluginState(if known then Unknown else Errored, -1, -1, 0);
              sm.states == old(sm.states)[PluginId(c.name, c.namespace, agentId) := initial]
    {
      ConfigsAdd(tests, sm.states.Keys, agentId, c, version);
      tests := tests[Id(c) := Entry(c, version)];
      sm.SetPluginState(PluginIdOf(c, agentId), InitialState(known));
      assert sm.states.Keys == old(sm.states.Keys) + {PluginIdOf(c, agentId)};
    }

    /** The same as a step of a sync that began with the given store and tests. */
    method StopTest(id: string, ghost known: TestConfig -> bool, ghost db: Store.Db, ghost before: map<string, Entry>,
                    ghost states: map<string, PluginState>)
      requires Valid() && id in tests && Get(tests, id) == Get(before, id)
      requires RunsCleared(db, store.db, before, tests, agentId)
      requires StatesFollow(known, before, tests, states, sm.states, agentId)
      modifies this, sm, store
      ensures Valid() && tests == old(tests) - {id}
      ensures RunsCleared(db, store.db, before, tests, agentId)
      ensures StatesFollow(known, before, tests, states, sm.states, agentId)
    {
      StopKeepsStates(known, before, tests, states, sm.states, agentId, id);
      ClearStep(db, store.db, before, tests, tests - {id}, agentId, id);
      StopAndDeleteSynTest(id);
    }

    /** First loop of the sync: tests that left the summary are stopped. */
    method StopDeletedTests(summary: map<string, string>, ghost known: TestConfig -> bool) returns (configChanged: bool)
      requires Valid()
      modifies this, sm, store
      ensures Valid()
      ensures tests == old(tests) - (old(tests).Keys - summary.Keys)
      ensures RunsCleared(old(store.db), store.db, old(tests), tests, agentId)
      ensures StatesFollow(known, old(tests), tests, old(sm.states), sm.states, agentId)
      ensures configChanged <==> old(tests).Keys - summary.Keys != {}
    {
      configChanged := false;
      var running := tests.Keys;
      ghost var stopped: set<string> := {};
      while running != {}
        invariant Valid()
        invariant running <= old(tests).Keys && stopped == old(tests).Keys - running - summary.Keys
        invariant tests == old(tests) - stopped
        invariant RunsCleared(old(store.db), store.db, old(tests), tests, agentId)
        invariant StatesFollow(known, old(tests), tests, old(sm.states), sm.states, agentId)
        invariant configChanged <==> stopped != {}
        decreases running
      {
        var id :| id in running;
        running := running - {id};
        if id in summary {
          continue;
        }
        StopTest(id, known, old(store.db), old(tests), old(sm.states));
        stopped := stopped + {id};
        configChanged := true;
      }
      assert stopped == old(tests).Keys - summary.Keys;
    }

    /** Body of the second loop for one config id. */
    method SyncTest(accept: TestConfig -> bool, known: TestConfig -> bool, id: string, latest: string,
                    fetched: Option<TestConfig>,
                    ghost db: Store.Db, ghost before: map<string, Entry>, ghost states: map<string, PluginState>)
      returns (configChanged: bool)
      requires Valid()
      requires fetched.Some? ==> Id(fetched.value) == id && ProperNames(fetched.value)
      requires Get(tests, id) == Get(before, id) && RunsCleared(db, store.db, before, tests, agentId)
      requires StatesFollow(known, before, tests, states, sm.states, agentId)
      modifies this, sm, store
      ensures Valid()
      ensures RunsCleared(db, store.db, before, tests, agentId)
      ensures StatesFollow(known, before, tests, states, sm.states, agentId)
      ensures fetched.None? ==> Get(tests, id) == Get(old(tests), id)
      ensures Get(tests, id) == SyncedEntry(accept, Get(old(tests), id), Some(latest), fetched)
      ensures forall j :: j != id ==> Get(tests, j) == Get(old(tests), j)
      ensures configChanged <==> Get(tests, id) != Get(old(tests), id)
    {
      configChanged := false;
      if (id in tests && tests[id].version == latest) || fetched.None? {
        return;
      }
      if id in tests {
        StopTest(id, known, db, before, states);
        configChanged := true;
      }
      if accept(fetched.value) {
        RestartKeepsCleared(db, store.db, before, tests, tests[id := Entry(fetched.value, latest)], agentId, id);
        StartKeepsStates(known, before, tests, states, sm.states, agentId, Entry(fetched.value, latest));
        StartTestRoutine(fetched.value, latest, known(fetched.value));
        configChanged := true;
      }
    }

    /** One sync.  `fetched` holds the result of each GET; an id is fetched at most once per sync, so an
        arbitrary map covers every interleaving with concurrent writers.  The store keeps a config under
        its own id. */
    method SyncSyntestPluginConfigs(accept: TestConfig -> bool, known: TestConfig -> bool,
                                    summary: map<string, string>, fetched: map<string, TestConfig>)
      returns (configChanged: bool)
      requires Valid()
      requires forall id :: id in fetched ==> Id(fetched[id]) == id && ProperNames(fetched[id])
      modifies this, sm, store
      ensures Valid()
      ensures forall id ::
                Get(tests, id) == SyncedEntry(accept, Get(old(tests), id), Get(summary, id), Get(fetched, id))
      ensures RunsCleared(old(store.db), store.db, old(tests), tests, agentId)
      ensures StatesFollow(known, old(tests), tests, old(sm.states), sm.states, agentId)
      ensures forall id :: id in old(tests) && id in summary && id !in fetched ==>
                Kept(old(tests), tests, old(sm.states), sm.states, old(store.db), store.db, agentId, id)
      ensures configChanged <==> tests != old(tests)
    {
      configChanged := StopDeletedTests(summary, known);
      StoppingStartsSync(accept, old(tests), tests, summary, fetched);
      var todo := summary.Keys;
      while todo != {}
        invariant Valid()
        invariant todo <= summary.Keys
        invariant PartlySynced(accept, old(tests), tests, summary, fetched, todo)
        invariant RunsCleared(old(store.db), store.db, old(tests), tests, agentId)
        invariant StatesFollow(known, old(tests), tests, old(sm.states), sm.states, agentId)
        invariant configChanged <==> tests != old(tests)
        decreases todo
      {
        var id :| id in todo;
        ghost var now := tests;
        assert Get(tests, id) == Get(old(tests), id);
        var changed := SyncTest(accept, known, id, summary[id], Get(fetched, id), old(store.db), old(tests),
                                old(sm.states));
        PartlySyncedStep(accept, old(tests), now, tests, summary, fetched, todo, id);
        configChanged := configChanged || changed;
        todo := todo - {id};
      }
      forall id | id in old(tests) && id in summary && id !in fetched
        ensures Kept(old(tests), tests, old(sm.states), sm.states, old(store.db), store.db, agentId, id)
      {
        KeptTestKeepsData(known, old(tests), tests, old(sm.states), sm.states, old(store.db), store.db, agentId, id);
      }
    }
  }

  // ---------------------------------------------------------------- interleaving with plugin goroutines

  /** A cached test together with its goroutine: `live` until the goroutine has called Done on the wait
      group.  A test whose plugin is not registered never has a goroutine. */
  datatype Test = Test(config: TestConfig, live: bool)

  /** Where the sync loop is: it starts and stops one test at a time, and updates the cache and the state map in
      separate steps. */
  datatype Loop = Free | Starting(id: string, known: bool) | Stopping(id: string) | Removing(id: string)

  datatype Runtime = Runtime(tests: map<string, Test>, states: map<string, PluginState>, loop: Loop)

  const NO_TESTS := Runtime(map[], map[], Free)

  /** Insert, SetState: a test is cached, then its plugin state is set and its goroutine started.  Cancel,
      DeleteState, DeleteTest: a test is cancelled, after the wait for its goroutine the state is deleted, then the
      cached test.  A goroutine may write its plugin state at any time until it exits, even after cancellation. */
  datatype Action =
    | Insert(config: TestConfig, known: bool)
    | SetState
    | Cancel(id: string)
    | DeleteState
    | DeleteTest
    | RoutineWrites(id: string, state: PluginState)
    | RoutineExits(id: string)

  predicate CanStep(r: Runtime, a: Action) {
    match a
    case Insert(c, _) => r.loop.Free? && Id(c) !in r.tests && ProperNames(c)
    case SetState => r.loop.Starting? && r.loop.id in r.tests
    case Cancel(id) => r.loop.Free? && id in r.tests
    case DeleteState => r.loop.Stopping? && r.loop.id in r.tests && !r.tests[r.loop.id].live
    case DeleteTest => r.loop.Removing?
    case RoutineWrites(id, _) => id in r.tests && r.tests[id].live
    case RoutineExits(id) => id in r.tests && r.tests[id].live
  }

  function Step(agentId: string, r: Runtime, a: Action): Runtime
    requires CanStep(r, a)
  {
    match a
    case Insert(c, known) => r.(tests := r.tests[Id(c) := Test(c, false)], loop := Starting(Id(c), known))
    case SetState =>
      var test := r.tests[r.loop.id];
      Runtime(r.tests[r.loop.id := test.(live := r.loop.known)],
              r.states[PluginIdOf(test.config, agentId) := InitialState(r.loop.known)],
              Free)
    case Cancel(id) => r.(loop := Stopping(id))
    case DeleteState =>
      r.(states := r.states - {PluginIdOf(r.tests[r.loop.id].config, agentId)}, loop := Removing(r.loop.id))
    case DeleteTest => r.(tests := r.tests - {r.loop.id}, loop := Free)
    case RoutineWrites(id, state) => r.(states := r.states[PluginIdOf(r.tests[id].config, agentId) := state])
    case RoutineExits(id) => r.(tests := r.tests[id := r.tests[id].(live := false)])
  }

  ghost predicate IsSchedule(agentId: string, r: Runtime, acts: seq<Action>)
    decreases |acts|
  {
    acts == [] || (CanStep(r, acts[0]) && IsSchedule(agentId, Step(agentId, r, acts[0]), acts[1..]))
  }

  ghost function After(agentId: string, r: Runtime, acts: seq<Action>): Runtime
    requires IsSchedule(agentId, r, acts)
    decreases |acts|
  {
    if acts == [] then r else After(agentId, Step(agentId, r, acts[0]), acts[1..])
  }

  /** The cached test that has no plugin state yet, or no more. */
  function InTransition(r: Runtime): set<string> {
    if r.loop.Starting? || r.loop.Removing? then {r.loop.id} else {}
  }

  function SettledConfigs(r: Runtime): map<string, TestConfig> {
    map id | id in r.tests && id !in InTransition(r) :: r.tests[id].config
  }

  /** The plugin-state keys are exactly the plugin ids of the cached tests without the one in transition, which has
      no goroutine. */
  ghost predicate InStep(agentId: string, r: Runtime) {
    && KeysMatch(SettledConfigs(r), r.states.Keys, agentId)
    && (!r.loop.Free? ==> r.loop.id in r.tests && Id(r.tests[r.loop.id].config) == r.loop.id)
    && (!r.loop.Free? ==> ProperNames(r.tests[r.loop.id].config))
    && (r.loop.Starting? || r.loop.Removing? ==> !r.tests[r.loop.id].live)
  }

  lemma SetStateKeepsKeys(agentId: string, r: Runtime)
    requires InStep(agentId, r) && CanStep(r, SetState)
    ensures InStep(agentId, Step(agentId, r, SetState))
  {
    var t, c := Step(agentId, r, SetState), r.tests[r.loop.id].config;
    assert SettledConfigs(t) == SettledConfigs(r)[Id(c) := c];
    assert t.states.Keys == r.states.Keys + {PluginIdOf(c, agentId)};
    assert KeysMatch(SettledConfigs(t), t.states.Keys, agentId) by {
      KeysMatchAdd(SettledConfigs(r), r.states.Keys, agentId, c);
    }
  }

  lemma DeleteStateKeepsKeys(agentId: string, r: Runtime)
    requires InStep(agentId, r) && CanStep(r, DeleteState)
    ensures InStep(agentId, Step(agentId, r, DeleteState))
  {
    var t, id := Step(agentId, r, DeleteState), r.loop.id;
    assert SettledConfigs(r)[id] == r.tests[id].config;
    KeysMatchRemove(SettledConfigs(r), r.states.Keys, agentId, id);
    assert SettledConfigs(t) == SettledConfigs(r) - {id};
    assert t.states.Keys == r.states.Keys - {PluginIdOf(r.tests[id].config, agentId)};
  }

  /** A goroutine always finds its own state. */
  lemma RoutineHasState(agentId: string, r: Runtime, id: string)
    requires InStep(agentId, r) && id in r.tests && r.tests[id].live
    ensures PluginIdOf(r.tests[id].config, agentId) in r.states
  {
    assert SettledConfigs(r)[id] == r.tests[id].config;
  }

  /** The steps that change neither the settled tests nor the keys. */
  lemma OtherStepKeepsKeys(agentId: string, r: Runtime, a: Action)
    requires InStep(agentId, r) && CanStep(r, a) && !a.SetState? && !a.DeleteState?
    ensures InStep(agentId, Step(agentId, r, a))
  {
    var t := Step(agentId, r, a);
    SameSettled(agentId, r, a);
    assert t.states.Keys == r.states.Keys by {
      if a.RoutineWrites? {
        RoutineHasState(agentId, r, a.id);
      }
    }
    if a.Cancel? {
      assert SettledConfigs(r)[a.id] == r.tests[a.id].config;
    }
  }

  lemma SameSettled(agentId: string, r: Runtime, a: Action)
    requires CanStep(r, a) && !a.SetState? && !a.DeleteState?
    ensures SettledConfigs(Step(agentId, r, a)) == SettledConfigs(r)
  {
  }

  /** In every state reachable under interleaving with the plugin goroutines: because stopping waits for the goroutine
      before it deletes, nothing is brought back. */
  lemma {:induction false} StateKeysFollowCache(agentId: string, r: Runtime, acts: seq<Action>)
    requires InStep(agentId, r) && IsSchedule(agentId, r, acts)
    ensures InStep(agentId, After(agentId, r, acts))
    decreases |acts|
  {
    if acts != [] {
      if acts[0].SetState? {
        SetStateKeepsKeys(agentId, r);
      } else if acts[0].DeleteState? {
        DeleteStateKeepsKeys(agentId, r);
      } else {
        OtherStepKeepsKeys(agentId, r, acts[0]);
      }
      StateKeysFollowCache(agentId, Step(agentId, r, acts[0]), acts[1..]);
    }
  }

  lemma NextStep(agentId: string, r: Runtime, a: Action, acts: seq<Action>)
    requires CanStep(r, a) && IsSchedule(agentId, Step(agentId, r, a), acts)
    ensures IsSchedule(agentId, r, [a] + acts)
    ensures After(agentId, r, [a] + acts) == After(agentId, Step(agentId, r, a), acts)
  {
    assert ([a] + acts)[1..] == acts;
  }

  /** From every reachable state the sync loop can finish what it has begun, needing from a plugin goroutine no more
      than to exit: a started test is then cached with its initial state, a stopped one is gone with its state, and
      nothing else has changed. */
  lemma LoopCanFinish(agentId: string, r: Runtime) returns (acts: seq<Action>)
    requires InStep(agentId, r)
    ensures IsSchedule(agentId, r, acts)
    ensures var t := After(agentId, r, acts);
            && t.loop.Free?
            && match r.loop
               case Free => t == r
               case Starting(id, known) =>
                 var c := r.tests[id].config;
                 && t.tests == r.tests[id := Test(c, known)]
                 && t.states == r.states[PluginId(c.name, c.namespace, agentId) := InitialState(known)]
               case Stopping(id) =>
                 var c := r.tests[id].config;
                 t.tests == r.tests - {id} && t.states == r.states - {PluginId(c.name, c.namespace, agentId)}
               case Removing(id) => t.tests == r.tests - {id} && t.states == r.states
  {
    acts := [];
    match r.loop {
      case Free =>
      case Starting(_, _) =>
        NextStep(agentId, r, SetState, []);
        acts := [SetState];
      case Stopping(id) =>
        var idle := if r.tests[id].live then Step(agentId, r, RoutineExits(id)) else r;
        assert idle.tests - {id} == r.tests - {id};
        var removing := Step(agentId, idle, DeleteState);
        NextStep(agentId, removing, DeleteTest, []);
        NextStep(agentId, idle, DeleteState, [DeleteTest]);
        acts := [DeleteState] + [DeleteTest];
        if r.tests[id].live {
          NextStep(agentId, r, RoutineExits(id), acts);
          acts := [RoutineExits(id)] + acts;
        }
      case Removing(_) =>
        NextStep(agentId, r, DeleteTest, []);
        acts := [DeleteTest];
    }
  }

  lemma ListedIdsAreSettled(r: Runtime, podName: string, podNs: string, listed: seq<string>, order: seq<string>)
    requires SlashFree(podName) && SlashFree(podNs)
    requires InStep(AgentId(podName, podNs), r)
    requires Validity.Enumerates(order, r.states.Keys)
    requires |listed| == |order| && forall i :: 0 <= i < |order| ==> listed[i] == ReportedId(order[i])
    ensures Validity.Enumerates(listed, r.tests.Keys - InTransition(r))
  {
    var agentId := AgentId(podName, podNs);
    var configs := SettledConfigs(r);
    forall id | id in configs ensures ReportedId(PluginIdOf(configs[id], agentId)) == id && id in listed {
      PluginIdRoundTrip(configs[id].name, configs[id].namespace, podName, podNs);
      var i :| 0 <= i < |order| && order[i] == PluginIdOf(configs[id], agentId);
      assert listed[i] == id;
    }
    forall i | 0 <= i < |order| ensures listed[i] in configs && order[i] == PluginIdOf(configs[listed[i]], agentId) {
      assert order[i] in r.states.Keys;
      var id :| id in configs && PluginIdOf(configs[id], agentId) == order[i];
    }
    assert configs.Keys == r.tests.Keys - InTransition(r);
  }

  /** So at any moment of any schedule the status that the health exporter publishes lists every cached test but the
      one in transition, each exactly once, and nothing else; it is complete exactly when no test is in transition.
      `listed` and `order` are what StateMap.GetAgentStatus returns. */
  lemma StatusListsRunningTests(podName: string, podNs: string, acts: seq<Action>, listed: seq<string>,
                                order: seq<string>)
    requires SlashFree(podName) && SlashFree(podNs)
    requires IsSchedule(AgentId(podName, podNs), NO_TESTS, acts)
    requires Validity.Enumerates(order, After(AgentId(podName, podNs), NO_TESTS, acts).states.Keys)
    requires |listed| == |order| && forall i :: 0 <= i < |order| ==> listed[i] == ReportedId(order[i])
    ensures var r := After(AgentId(podName, podNs), NO_TESTS, acts);
            && Validity.Enumerates(listed, r.tests.Keys - InTransition(r))
            && (Validity.Enumerates(listed, r.tests.Keys) <==> InTransition(r) == {})
            && (InTransition(r) == {} <==> !r.loop.Starting? && !r.loop.Removing?)
  {
    var agentId := AgentId(podName, podNs);
    StateKeysFollowCache(agentId, NO_TESTS, acts);
    var r := After(agentId, NO_TESTS, acts);
    ListedIdsAreSettled(r, podName, podNs, listed, order);
    if InTransition(r) == {} {
      assert r.tests.Keys - InTransition(r) == r.tests.Keys;
    } else {
      assert r.loop.id in r.tests.Keys && r.loop.id !in listed;
    }
  }
}
