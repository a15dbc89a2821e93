/** Config propagation: the controller writes a test config as separate Redis commands (json key,
    then summary hash; see WriteTestConfig and DeleteTestConfig of common/storage/redis.go) while any
    number of agents poll the summary, later fetch the json key, and keep a cache keyed by version
    (SyncSyntestPluginConfigs of agent/pluginmanager/pluginManager.go).  Every Redis command is one
    atomic step; all steps of all processes interleave freely. */
module Propagation {
  import opened Ids
  import opened TestConfigs

  /** A cached test: the config it runs and the version label it was fetched under. */
  datatype Entry = Entry(config: TestConfig, version: string)

  /** An agent's local decision whether it runs a config. */
  type Acceptance = (string, TestConfig) -> bool

  /** What one sync does to one cached test, given the summary's version and what the later GET
      returned (None also stands for a failed GET). */
  function SyncedEntry(accept: TestConfig -> bool, cached: Option<Entry>, latest: Option<string>,
                       fetched: Option<TestConfig>): Option<Entry> {
    if latest.None? then None
    else if cached.Some? && cached.value.version == latest.value then cached
    else if fetched.None? then cached
    else if accept(fetched.value) then Some(Entry(fetched.value, latest.value))
    else None
  }

  function Put<V>(m: map<string, V>, id: string, v: Option<V>): map<string, V> {
    if v.Some? then m[id := v.value] else m - {id}
  }

  // ---------------------------------------------------------------- the interleaved system

  /** The two halves of a multi-command write that is under way. */
  datatype Writer = Writing(config: TestConfig) | Deleting

  datatype Sync = Idle | Syncing(snapshot: map<string, string>, todo: set<string>)

  datatype Agent = Agent(cache: map<string, Entry>, sync: Sync)

  /** `json`, `summary`: the store.  `writers`: at most one write per config id is under way.
      `written`: history, the configs written so far, per id. */
  datatype System = System(
    json: map<string, TestConfig>,
    summary: map<string, string>,
    writers: map<string, Writer>,
    agents: map<string, Agent>,
    written: map<string, seq<TestConfig>>)

  datatype Action =
    | SetJson(config: TestConfig)
    | SetSummary(id: string)
    | DelJson(id: string)
    | DelSummary(id: string)
    | Join(agent: string)
    | Crash(agent: string)
    | Snapshot(agent: string)
    | Handle(agent: string, id: string, fetchOk: bool)
    | Finish(agent: string)

  const INIT := System(map[], map[], map[], map[], map[])

  function History(s: System, id: string): seq<TestConfig> {
    if id in s.written then s.written[id] else []
  }

  predicate Enabled(s: System, a: Action) {
    match a
    case SetJson(c) => Id(c) !in s.writers
    case SetSummary(id) => id in s.writers && s.writers[id].Writing?
    case DelJson(id) => id !in s.writers
    case DelSummary(id) => id in s.writers && s.writers[id].Deleting?
    case Join(g) => g !in s.agents
    case Crash(g) => g in s.agents
    case Snapshot(g) => g in s.agents && s.agents[g].sync.Idle?
    case Handle(g, id, _) =>
      && g in s.agents && s.agents[g].sync.Syncing?
      && id in s.agents[g].sync.todo && id in s.agents[g].sync.snapshot
    case Finish(g) => g in s.agents && s.agents[g].sync.Syncing? && s.agents[g].sync.todo == {}
  }

  function Apply(accepts: Acceptance, s: System, a: Action): System
    requires Enabled(s, a)
  {
    match a
    case SetJson(c) =>
      s.(json := s.json[Id(c) := c],
         writers := s.writers[Id(c) := Writing(c)],
         written := s.written[Id(c) := History(s, Id(c)) + [c]])
    case SetSummary(id) => s.(summary := s.summary[id := s.writers[id].config.version], writers := s.writers - {id})
    case DelJson(id) => s.(json := s.json - {id}, writers := s.writers[id := Deleting])
    case DelSummary(id) => s.(summary := s.summary - {id}, writers := s.writers - {id})
    case Join(g) => s.(agents := s.agents[g := Agent(map[], Idle)])
    case Crash(g) => s.(agents := s.agents - {g})
    case Snapshot(g) =>
      // tests that left the summary are stopped, the others are looked at one by one
      var cache := map id | id in s.agents[g].cache && id in s.summary :: s.agents[g].cache[id];
      s.(agents := s.agents[g := Agent(cache, Syncing(s.summary, s.summary.Keys))])
    case Handle(g, id, fetchOk) =>
      var ag := s.agents[g];
      var fetched := if fetchOk then Get(s.json, id) else None;
      var entry := SyncedEntry(c => accepts(g, c), Get(ag.cache, id), Some(ag.sync.snapshot[id]), fetched);
      s.(agents := s.agents[g := Agent(Put(ag.cache, id, entry), ag.sync.(todo := ag.sync.todo - {id}))])
    case Finish(g) => s.(agents := s.agents[g := s.agents[g].(sync := Idle)])
  }

  ghost predicate IsRun(accepts: Acceptance, s: System, acts: seq<Action>)
    decreases |acts|
  {
    acts == [] || (Enabled(s, acts[0]) && IsRun(accepts, Apply(accepts, s, acts[0]), acts[1..]))
  }

  ghost function Run(accepts: Acceptance, s: System, acts: seq<Action>): System
    requires IsRun(accepts, s, acts)
    decreases |acts|
  {
    if acts == [] then s else Run(accepts, Apply(accepts, s, acts[0]), acts[1..])
  }

  // ---------------------------------------------------------------- invariant of every run

  function Last<T>(h: seq<T>): T
    requires h != []
  {
    h[|h| - 1]
  }

  /** Some write of the history carried this version. */
  ghost predicate Labelled(h: seq<TestConfig>, version: string) {
    exists i :: 0 <= i < |h| && h[i].version == version
  }

  /** The entry was fetched at the time of one write, under the label of the same or an earlier one. */
  ghost predicate Fetched(h: seq<TestConfig>, e: Entry) {
    exists i, k :: 0 <= i <= k < |h| && h[i].version == e.version && h[k] == e.config
  }

  ghost predicate StoreInvAt(s: System, id: string) {
    var h := History(s, id);
    && (forall k :: 0 <= k < |h| ==> Id(h[k]) == id)
    && (id in s.json ==> h != [] && s.json[id] == Last(h))
    && (id in s.summary ==> Labelled(h, s.summary[id]))
    && (id in s.writers && s.writers[id].Writing? ==> id in s.json && s.json[id] == s.writers[id].config)
    && (id in s.writers && s.writers[id].Deleting? ==> id !in s.json)
    && (id !in s.writers ==> (id in s.json <==> id in s.summary))
    && (id !in s.writers && id in s.summary ==> s.summary[id] == s.json[id].version)
  }

  ghost predicate AgentInvAt(accepts: Acceptance, s: System, g: string, id: string)
    requires g in s.agents
  {
    var h, ag := History(s, id), s.agents[g];
    && (id in ag.cache ==> Fetched(h, ag.cache[id]) && accepts(g, ag.cache[id].config))
    && (ag.sync.Syncing? && id in ag.sync.snapshot ==> Labelled(h, ag.sync.snapshot[id]))
    && (ag.sync.Syncing? && id in ag.sync.todo ==> id in ag.sync.snapshot)
  }

  ghost predicate InvAt(accepts: Acceptance, s: System, id: string) {
    && StoreInvAt(s, id)
    && (forall g :: g in s.agents ==> AgentInvAt(accepts, s, g, id))
  }

  /** A longer history has the same labels and the same fetches. */
  lemma LongerHistory(h: seq<TestConfig>, c: TestConfig, v: string, e: Entry)
    ensures Labelled(h, v) ==> Labelled(h + [c], v)
    ensures Labelled(h + [c], c.version)
    ensures Fetched(h, e) ==> Fetched(h + [c], e)
  {
    var t := h + [c];
    assert t[|h|] == c;
    if Labelled(h, v) {
      var i :| 0 <= i < |h| && h[i].version == v;
      assert t[i].version == v;
    }
    if Fetched(h, e) {
      var i, k :| 0 <= i <= k < |h| && h[i].version == e.version && h[k] == e.config;
      assert t[i].version == e.version && t[k] == e.config;
    }
  }

  lemma StepKeepsStoreInv(accepts: Acceptance, s: System, a: Action, id: string)
    requires StoreInvAt(s, id) && Enabled(s, a)
    ensures StoreInvAt(Apply(accepts, s, a), id)
  {
    if a.SetJson? && Id(a.config) == id {
      LongerHistory(History(s, id), a.config, if id in s.summary then s.summary[id] else "", Entry(a.config, ""));
    } else {
      assert History(Apply(accepts, s, a), id) == History(s, id);
      if a.SetSummary? && a.id == id {
        assert Labelled(History(s, id), Last(History(s, id)).version);
      }
    }
  }

  /** A fetch under a label reads the config written last, which is no older than the label. */
  lemma LatestIsFetched(h: seq<TestConfig>, v: string)
    requires h != [] && Labelled(h, v)
    ensures Fetched(h, Entry(Last(h), v))
  {
    var i :| 0 <= i < |h| && h[i].version == v;
    assert h[|h| - 1] == Last(h);
  }

  lemma StepKeepsAgentInv(accepts: Acceptance, s: System, a: Action, g: string, id: string)
    requires InvAt(accepts, s, id) && Enabled(s, a) && g in Apply(accepts, s, a).agents
    ensures AgentInvAt(accepts, Apply(accepts, s, a), g, id)
  {
    if g in s.agents {
      var h, ag := History(s, id), s.agents[g];
      assert AgentInvAt(accepts, s, g, id);
      match a {
        case SetJson(c) =>
          if id in ag.cache {
            LongerHistory(h, c, "", ag.cache[id]);
          }
          if ag.sync.Syncing? && id in ag.sync.snapshot {
            LongerHistory(h, c, ag.sync.snapshot[id], Entry(c, ""));
          }
        case Handle(f, j, fetchOk) =>
          if f == g && j == id && fetchOk && id in s.json {
            LatestIsFetched(h, ag.sync.snapshot[id]);
          }
        case _ =>
      }
    }
  }

  /** For every single step of every process. */
  lemma StepKeepsInv(accepts: Acceptance, s: System, a: Action, id: string)
    requires InvAt(accepts, s, id) && Enabled(s, a)
    ensures InvAt(accepts, Apply(accepts, s, a), id)
  {
    var t := Apply(accepts, s, a);
    StepKeepsStoreInv(accepts, s, a, id);
    forall g | g in t.agents ensures AgentInvAt(accepts, t, g, id) {
      StepKeepsAgentInv(accepts, s, a, g, id);
    }
  }

  lemma {:induction false} RunKeepsInv(accepts: Acceptance, s: System, acts: seq<Action>, id: string)
    requires InvAt(accepts, s, id) && IsRun(accepts, s, acts)
    ensures InvAt(accepts, Run(accepts, s, acts), id)
    decreases |acts|
  {
    if acts != [] {
      StepKeepsInv(accepts, s, acts[0], id);
      RunKeepsInv(accepts, Apply(accepts, s, acts[0]), acts[1..], id);
    }
  }

  // ---------------------------------------------------------------- cache / store agreement

  /** A cache entry labelled with the summary's version holds the stored config. */
  ghost predicate AgreementAt(s: System, g: string, id: string) {
    && g in s.agents && id !in s.writers && id in s.agents[g].cache && id in s.summary
    && s.agents[g].cache[id].version == s.summary[id]
    ==> id in s.json && s.agents[g].cache[id].config == s.json[id]
  }

  /** From the first use of the current version on, no config but the current one was written that the
      agent accepts. */
  ghost predicate Safe(accepts: Acceptance, g: string, h: seq<TestConfig>) {
    forall i, k :: 0 <= i <= k < |h| && h[i].version == Last(h).version && accepts(g, h[k]) ==> h[k] == Last(h)
  }

  lemma InvImpliesAgreement(accepts: Acceptance, s: System, g: string, id: string)
    requires InvAt(accepts, s, id) && Safe(accepts, g, History(s, id))
    ensures AgreementAt(s, g, id)
  {
    if g in s.agents && id in s.agents[g].cache && id !in s.writers && id in s.summary {
      var h, e := History(s, id), s.agents[g].cache[id];
      assert AgentInvAt(accepts, s, g, id);
      var i, k :| 0 <= i <= k < |h| && h[i].version == e.version && h[k] == e.config;
    }
  }

  /** In every reachable state, for a config id without a write under way and with a safe history, although
      agents do label newer configs with older versions on the way. */
  lemma CacheAgreesWithStore(accepts: Acceptance, acts: seq<Action>, g: string, id: string)
    requires IsRun(accepts, INIT, acts) && Safe(accepts, g, History(Run(accepts, INIT, acts), id))
    ensures AgreementAt(Run(accepts, INIT, acts), g, id)
  {
    RunKeepsInv(accepts, INIT, acts, id);
    InvImpliesAgreement(accepts, Run(accepts, INIT, acts), g, id);
  }

  // ---------------------------------------------------------------- building runs

  lemma ConsRun(accepts: Acceptance, s: System, a: Action, rest: seq<Action>)
    requires Enabled(s, a) && IsRun(accepts, Apply(accepts, s, a), rest)
    ensures IsRun(accepts, s, [a] + rest)
    ensures Run(accepts, s, [a] + rest) == Run(accepts, Apply(accepts, s, a), rest)
  {
    assert ([a] + rest)[1..] == rest;
  }

  lemma {:induction false} ConcatRun(accepts: Acceptance, s: System, front: seq<Action>, back: seq<Action>)
    requires IsRun(accepts, s, front) && IsRun(accepts, Run(accepts, s, front), back)
    ensures IsRun(accepts, s, front + back)
    ensures Run(accepts, s, front + back) == Run(accepts, Run(accepts, s, front), back)
    decreases |front|
  {
    if front == [] {
      assert front + back == back;
    } else {
      ConcatRun(accepts, Apply(accepts, s, front[0]), front[1..], back);
      assert (front + back)[1..] == front[1..] + back;
    }
  }

  lemma SnocRun(accepts: Acceptance, s: System, front: seq<Action>, a: Action)
    requires IsRun(accepts, s, front) && Enabled(Run(accepts, s, front), a)
    ensures IsRun(accepts, s, front + [a])
    ensures Run(accepts, s, front + [a]) == Apply(accepts, Run(accepts, s, front), a)
  {
    assert [a][1..] == [];
    ConcatRun(accepts, s, front, [a]);
  }

  /** Complete writes of these configs, one after the other. */
  function Writes(cs: seq<TestConfig>): seq<Action> {
    if cs == [] then [] else Writes(cs[..|cs| - 1]) + [SetJson(Last(cs))] + [SetSummary(Id(Last(cs)))]
  }

  /** What they leave: nothing but the last config and a longer history. */
  ghost predicate Wrote(s: System, t: System, id: string, cs: seq<TestConfig>) {
    && t.agents == s.agents && t.writers == s.writers && History(t, id) == History(s, id) + cs
    && t.json == (if cs == [] then s.json else s.json[id := Last(cs)])
    && t.summary == (if cs == [] then s.summary else s.summary[id := Last(cs).version])
  }

  lemma {:induction false} WritesRun(accepts: Acceptance, s: System, id: string, cs: seq<TestConfig>)
    requires id !in s.writers && forall k :: 0 <= k < |cs| ==> Id(cs[k]) == id
    ensures IsRun(accepts, s, Writes(cs)) && Wrote(s, Run(accepts, s, Writes(cs)), id, cs)
  {
    if cs == [] {
      assert History(s, id) + cs == History(s, id);
    } else {
      var front, c := cs[..|cs| - 1], Last(cs);
      WritesRun(accepts, s, id, front);
      assert front + [c] == cs;
      OneMoreWrite(accepts, s, Run(accepts, s, Writes(front)), id, front, c);
      WriteRunLonger(accepts, s, Writes(front), id, c);
    }
  }

  lemma WriteRunLonger(accepts: Acceptance, s: System, acts: seq<Action>, id: string, c: TestConfig)
    requires IsRun(accepts, s, acts) && id !in Run(accepts, s, acts).writers && Id(c) == id
    ensures var t := Run(accepts, s, acts);
            && IsRun(accepts, s, acts + [SetJson(c)] + [SetSummary(id)])
            && Run(accepts, s, acts + [SetJson(c)] + [SetSummary(id)])
               == Apply(accepts, Apply(accepts, t, SetJson(c)), SetSummary(id))
  {
    SnocRun(accepts, s, acts, SetJson(c));
    SnocRun(accepts, s, acts + [SetJson(c)], SetSummary(id));
  }

  lemma OneMoreWrite(accepts: Acceptance, s: System, t: System, id: string, front: seq<TestConfig>, c: TestConfig)
    requires Wrote(s, t, id, front) && id !in t.writers && Id(c) == id
    ensures Wrote(s, Apply(accepts, Apply(accepts, t, SetJson(c)), SetSummary(id)), id, front + [c])
  {
    var u := Apply(accepts, Apply(accepts, t, SetJson(c)), SetSummary(id));
    assert u.writers == t.writers;
    assert History(u, id) == History(s, id) + (front + [c]);
    assert Last(front + [c]) == c;
  }

  // ---------------------------------------------------------------- exactly when agreement can break

  /** Nothing is being written, the entry carries the summary's version and is not the stored config. */
  ghost predicate StaleAt(s: System, g: string, id: string) {
    && g in s.agents && id !in s.writers && id in s.json && id in s.summary
    && var ag := s.agents[g];
       && id in ag.cache && ag.cache[id].version == s.summary[id] && ag.cache[id].config != s.json[id]
       && (ag.sync.Syncing? && id in ag.sync.snapshot ==> ag.sync.snapshot[id] == s.summary[id])
       && (ag.sync.Syncing? && id in ag.sync.todo ==> id in ag.sync.snapshot)
  }

  /** A run in which an agent takes its snapshot after the writes `cs` and fetches after the writes `ds`: it then
      runs the newest config under the older label. */
  lemma MislabellingRun(accepts: Acceptance, g: string, id: string, cs: seq<TestConfig>, ds: seq<TestConfig>)
    returns (acts: seq<Action>)
    requires cs != [] && accepts(g, Last(cs + ds))
    requires forall c :: c in cs || c in ds ==> Id(c) == id
    ensures IsRun(accepts, INIT, acts)
    ensures var s := Run(accepts, INIT, acts);
            && s.writers == map[] && History(s, id) == cs + ds
            && s.agents == map[g := Agent(map[id := Entry(Last(cs + ds), Last(cs).version)], Idle)]
  {
    acts := SnapshotRun(accepts, g, id, cs);
    var s := Run(accepts, INIT, acts);
    WritesRun(accepts, s, id, ds);
    ConcatRun(accepts, INIT, acts, Writes(ds));
    acts := acts + Writes(ds);
    var t := Run(accepts, INIT, acts);
    assert t.json[id] == Last(cs + ds);
    SnocRun(accepts, INIT, acts, Handle(g, id, true));
    acts := acts + [Handle(g, id, true)];
    var u := Run(accepts, INIT, acts);
    assert u.agents[g].cache == map[id := Entry(Last(cs + ds), Last(cs).version)] && u.agents[g].sync.todo == {};
    SnocRun(accepts, INIT, acts, Finish(g));
    acts := acts + [Finish(g)];
  }

  lemma SnapshotRun(accepts: Acceptance, g: string, id: string, cs: seq<TestConfig>) returns (acts: seq<Action>)
    requires cs != [] && forall c :: c in cs ==> Id(c) == id
    ensures IsRun(accepts, INIT, acts)
    ensures var s := Run(accepts, INIT, acts);
            && s.writers == map[] && History(s, id) == cs && s.json == map[id := Last(cs)]
            && s.agents == map[g := Agent(map[], Syncing(map[id := Last(cs).version], {id}))]
  {
    SnocRun(accepts, INIT, [], Join(g));
    acts := [] + [Join(g)];
    WritesRun(accepts, Run(accepts, INIT, acts), id, cs);
    ConcatRun(accepts, INIT, acts, Writes(cs));
    acts := acts + Writes(cs);
    var s := Run(accepts, INIT, acts);
    assert s.summary == map[id := Last(cs).version] && s.summary.Keys == {id};
    SnocRun(accepts, INIT, acts, Snapshot(g));
    acts := acts + [Snapshot(g)];
    assert Run(accepts, INIT, acts).agents[g].cache == map[];
  }

  /** Every unsafe history has a run with exactly these writes at whose end nothing is under way and the
      agent's entry disagrees with the store. */
  lemma UnsafeHistoryBreaksAgreement(accepts: Acceptance, g: string, id: string, h: seq<TestConfig>)
    returns (acts: seq<Action>)
    requires h != [] && !Safe(accepts, g, h) && forall c :: c in h ==> Id(c) == id
    ensures IsRun(accepts, INIT, acts)
    ensures var s := Run(accepts, INIT, acts);
            && History(s, id) == h && s.writers == map[] && StaleAt(s, g, id) && s.agents[g].sync.Idle?
  {
    var i, k :| 0 <= i <= k < |h| && h[i].version == Last(h).version && accepts(g, h[k]) && h[k] != Last(h);
    var cs, ds, es := h[..i + 1], h[i + 1..k + 1], h[k + 1..];
    Slices(h, i, k);
    acts := StaleRun(accepts, g, id, cs, ds, es);
  }

  lemma Slices(h: seq<TestConfig>, i: nat, k: nat)
    requires i <= k < |h| - 1
    ensures var cs, ds, es := h[..i + 1], h[i + 1..k + 1], h[k + 1..];
            cs + ds + es == h && Last(cs) == h[i] && Last(cs + ds) == h[k] && Last(es) == Last(h)
  {
    assert h[..i + 1] + h[i + 1..k + 1] == h[..k + 1];
  }

  lemma StaleRun(accepts: Acceptance, g: string, id: string, cs: seq<TestConfig>, ds: seq<TestConfig>,
                 es: seq<TestConfig>) returns (acts: seq<Action>)
    requires cs != [] && es != [] && forall c :: c in cs || c in ds || c in es ==> Id(c) == id
    requires accepts(g, Last(cs + ds)) && Last(cs).version == Last(es).version && Last(cs + ds) != Last(es)
    ensures IsRun(accepts, INIT, acts)
    ensures var s := Run(accepts, INIT, acts);
            && History(s, id) == cs + ds + es && s.writers == map[]
            && StaleAt(s, g, id) && s.agents[g].sync.Idle?
  {
    acts := MislabellingRun(accepts, g, id, cs, ds);
    WritesRun(accepts, Run(accepts, INIT, acts), id, es);
    ConcatRun(accepts, INIT, acts, Writes(es));
    acts := acts + Writes(es);
  }

  /** The shortest such history: one config, another, and the first again. */
  lemma RecurringVersionBreaksAgreement(accepts: Acceptance, g: string, c1: TestConfig, c2: TestConfig)
    returns (acts: seq<Action>)
    requires Id(c1) == Id(c2) && c1 != c2 && accepts(g, c2)
    ensures IsRun(accepts, INIT, acts)
    ensures var s := Run(accepts, INIT, acts);
            && History(s, Id(c1)) == [c1, c2, c1] && s.writers == map[]
            && StaleAt(s, g, Id(c1)) && s.json[Id(c1)] == c1
  {
    acts := StaleRun(accepts, g, Id(c1), [c1], [c2], [c1]);
    assert [c1] + [c2] + [c1] == [c1, c2, c1];
    RunKeepsInv(accepts, INIT, acts, Id(c1));
  }

  /** Agreement holds after every run with a given write history of a config if and only if the history is
      safe for the agent. */
  lemma AgreementIff(accepts: Acceptance, g: string, id: string, h: seq<TestConfig>)
    requires h != [] && forall c :: c in h ==> Id(c) == id
    ensures Safe(accepts, g, h)
       <==> forall acts :: IsRun(accepts, INIT, acts) && History(Run(accepts, INIT, acts), id) == h
                           ==> AgreementAt(Run(accepts, INIT, acts), g, id)
  {
    if Safe(accepts, g, h) {
      forall acts | IsRun(accepts, INIT, acts) && History(Run(accepts, INIT, acts), id) == h
        ensures AgreementAt(Run(accepts, INIT, acts), g, id)
      {
        CacheAgreesWithStore(accepts, acts, g, id);
      }
    } else {
      var acts := UnsafeHistoryBreaksAgreement(accepts, g, id, h);
      assert !AgreementAt(Run(accepts, INIT, acts), g, id);
    }
  }

  /** Every write carries a version that is new for the id or repeats the config written last. */
  ghost predicate NeverRecurs(h: seq<TestConfig>) {
    forall j :: 0 < j < |h| ==> h[j] == h[j - 1] || NewVersion(h, j)
  }

  ghost predicate NewVersion(h: seq<TestConfig>, j: nat)
    requires j < |h|
  {
    forall i :: 0 <= i < j ==> h[i].version != h[j].version
  }

  lemma {:induction false} NeverRecursIsSafe(accepts: Acceptance, g: string, h: seq<TestConfig>)
    requires NeverRecurs(h)
    ensures Safe(accepts, g, h)
  {
    if h != [] {
      var n := |h| - 1;
      forall j | 0 < j < n && NewVersion(h, j) ensures NewVersion(h[..n], j) {
      }
      NeverRecursIsSafe(accepts, g, h[..n]);
    }
  }

  /** For an agent that accepts every config of a history, agreement holds at all times of all runs along
      the history if and only if versions never recur in it. */
  lemma NeverRecursIff(accepts: Acceptance, g: string, id: string, h: seq<TestConfig>)
    requires forall c :: c in h ==> Id(c) == id && accepts(g, c)
    ensures NeverRecurs(h)
       <==> forall acts :: IsRun(accepts, INIT, acts) && History(Run(accepts, INIT, acts), id) <= h
                           ==> AgreementAt(Run(accepts, INIT, acts), g, id)
  {
    if NeverRecurs(h) {
      forall acts | IsRun(accepts, INIT, acts) && History(Run(accepts, INIT, acts), id) <= h
        ensures AgreementAt(Run(accepts, INIT, acts), g, id)
      {
        PrefixNeverRecurs(h, |History(Run(accepts, INIT, acts), id)|);
        NeverRecursIsSafe(accepts, g, History(Run(accepts, INIT, acts), id));
        CacheAgreesWithStore(accepts, acts, g, id);
      }
    } else {
      var front := UnsafePrefix(accepts, g, h);
      var acts := UnsafeHistoryBreaksAgreement(accepts, g, id, front);
      assert !AgreementAt(Run(accepts, INIT, acts), g, id);
    }
  }

  lemma UnsafePrefix(accepts: Acceptance, g: string, h: seq<TestConfig>) returns (front: seq<TestConfig>)
    requires !NeverRecurs(h) && forall c :: c in h ==> accepts(g, c)
    ensures front != [] && front <= h && !Safe(accepts, g, front)
  {
    var j :| 0 < j < |h| && h[j] != h[j - 1] && !NewVersion(h, j);
    var i :| 0 <= i < j && h[i].version == h[j].version;
    front := h[..j + 1];
    assert front[i].version == Last(front).version && front[j - 1] != Last(front);
  }

  lemma PrefixNeverRecurs(h: seq<TestConfig>, n: nat)
    requires n <= |h| && NeverRecurs(h)
    ensures NeverRecurs(h[..n])
  {
    forall j | 0 < j < n && NewVersion(h, j) ensures NewVersion(h[..n], j) {
    }
  }

  /** Steps that neither write this config nor crash this agent. */
  predicate LeavesAlone(a: Action, g: string, id: string) {
    match a
    case SetJson(c) => Id(c) != id
    case DelJson(j) => j != id
    case Crash(h) => h != g
    case _ => true
  }

  /** A stale entry outlives every later sync, whatever else goes on, until the config is written again. */
  lemma {:induction false} StaleForever(accepts: Acceptance, s: System, g: string, id: string, acts: seq<Action>)
    requires StaleAt(s, g, id) && IsRun(accepts, s, acts)
    requires forall i :: 0 <= i < |acts| ==> LeavesAlone(acts[i], g, id)
    ensures var t := Run(accepts, s, acts);
            StaleAt(t, g, id) && t.agents[g].cache[id] == s.agents[g].cache[id] && t.json[id] == s.json[id]
    decreases |acts|
  {
    if acts != [] {
      StaleStep(accepts, s, g, id, acts[0]);
      assert forall i :: 0 <= i < |acts[1..]| ==> acts[1..][i] == acts[i + 1];
      StaleForever(accepts, Apply(accepts, s, acts[0]), g, id, acts[1..]);
    }
  }

  lemma StaleStep(accepts: Acceptance, s: System, g: string, id: string, a: Action)
    requires StaleAt(s, g, id) && Enabled(s, a) && LeavesAlone(a, g, id)
    ensures var t := Apply(accepts, s, a);
            StaleAt(t, g, id) && t.agents[g].cache[id] == s.agents[g].cache[id] && t.json[id] == s.json[id]
  {
  }

  // ---------------------------------------------------------------- convergence

  /** The agent runs the config if and only if it is stored and accepted, and then at the stored version. */
  ghost predicate ExactAt(accepts: Acceptance, s: System, g: string, id: string)
    requires g in s.agents
  {
    var cache := s.agents[g].cache;
    && (id in cache <==> id in s.json && accepts(g, s.json[id]))
    && (id in cache ==> id in s.summary && cache[id] == Entry(s.json[id], s.summary[id]))
  }

  /** What a sync that started after the last write of the config has achieved for it so far. */
  ghost predicate ProgressAt(accepts: Acceptance, s: System, g: string, id: string) {
    && id !in s.writers && g in s.agents
    && match s.agents[g].sync
       case Idle => ExactAt(accepts, s, g, id)
       case Syncing(snapshot, todo) =>
         Get(snapshot, id) == Get(s.summary, id) && (id !in todo ==> ExactAt(accepts, s, g, id))
  }

  /** Steps of a period in which this config is not written, and this agent neither crashes nor fails to
      fetch it.  Other configs may be written and other agents may do anything. */
  predicate Quiet(a: Action, g: string, id: string) {
    LeavesAlone(a, g, id) && (a.Handle? && a.agent == g && a.id == id ==> a.fetchOk)
  }

  lemma SnapshotStartsProgress(accepts: Acceptance, s: System, g: string, id: string)
    requires InvAt(accepts, s, id) && id !in s.writers && Enabled(s, Snapshot(g))
    ensures ProgressAt(accepts, Apply(accepts, s, Snapshot(g)), g, id)
  {
  }

  /** A matching version skips the validity check; agreement makes that harmless, because the entry
      was accepted when it was fetched and is the stored config. */
  lemma QuietStepKeepsProgress(accepts: Acceptance, s: System, a: Action, g: string, id: string)
    requires InvAt(accepts, s, id) && Safe(accepts, g, History(s, id))
    requires ProgressAt(accepts, s, g, id) && Enabled(s, a) && Quiet(a, g, id)
    ensures ProgressAt(accepts, Apply(accepts, s, a), g, id)
  {
    if a == Snapshot(g) {
      SnapshotStartsProgress(accepts, s, g, id);
    } else if a.Handle? && a.agent == g && a.id == id {
      InvImpliesAgreement(accepts, s, g, id);
      assert AgentInvAt(accepts, s, g, id);
    }
  }

  lemma {:induction false} QuietRunKeepsProgress(accepts: Acceptance, s: System, acts: seq<Action>, g: string,
                                                 id: string)
    requires InvAt(accepts, s, id) && Safe(accepts, g, History(s, id))
    requires ProgressAt(accepts, s, g, id) && IsRun(accepts, s, acts)
    requires forall i :: 0 <= i < |acts| ==> Quiet(acts[i], g, id)
    ensures ProgressAt(accepts, Run(accepts, s, acts), g, id)
    decreases |acts|
  {
    if acts != [] {
      QuietStepKeepsProgress(accepts, s, acts[0], g, id);
      StepKeepsInv(accepts, s, acts[0], id);
      assert forall i :: 0 <= i < |acts[1..]| ==> acts[1..][i] == acts[i + 1];
      QuietRunKeepsProgress(accepts, Apply(accepts, s, acts[0]), acts[1..], g, id);
    }
  }

  /** `before` ends without a write of the config under way; the agent then begins a sync, and `acts` is any
      quiet continuation. */
  ghost predicate SyncsIn(accepts: Acceptance, before: seq<Action>, g: string, id: string, acts: seq<Action>) {
    && IsRun(accepts, INIT, before)
    && var s := Run(accepts, INIT, before);
       && id !in s.writers && Enabled(s, Snapshot(g)) && IsRun(accepts, Apply(accepts, s, Snapshot(g)), acts)
       && forall i :: 0 <= i < |acts| ==> Quiet(acts[i], g, id)
  }

  ghost function AfterSync(accepts: Acceptance, before: seq<Action>, g: string, id: string, acts: seq<Action>): System
    requires SyncsIn(accepts, before, g, id, acts)
  {
    Run(accepts, Apply(accepts, Run(accepts, INIT, before), Snapshot(g)), acts)
  }

  /** Whenever the agent is idle again, under any interleaving with the other agents and with writes of other
      configs, it runs the config exactly if it should, and stays so through all later syncs. */
  lemma SyncConverges(accepts: Acceptance, before: seq<Action>, g: string, id: string, acts: seq<Action>)
    requires SyncsIn(accepts, before, g, id, acts)
    requires Safe(accepts, g, History(Run(accepts, INIT, before), id))
    ensures var t := AfterSync(accepts, before, g, id, acts);
            g in t.agents && (t.agents[g].sync.Idle? ==> ExactAt(accepts, t, g, id))
  {
    var s := Run(accepts, INIT, before);
    RunKeepsInv(accepts, INIT, before, id);
    SnapshotStartsProgress(accepts, s, g, id);
    StepKeepsInv(accepts, s, Snapshot(g), id);
    QuietRunKeepsProgress(accepts, Apply(accepts, s, Snapshot(g)), acts, g, id);
  }

  /** Syncs converge after every run with a given write history if and only if the history is safe. */
  lemma SyncConvergesIff(accepts: Acceptance, g: string, id: string, h: seq<TestConfig>)
    requires h != [] && forall c :: c in h ==> Id(c) == id
    ensures Safe(accepts, g, h)
       <==> forall before, acts ::
              SyncsIn(accepts, before, g, id, acts) && History(Run(accepts, INIT, before), id) == h
              ==> var t := AfterSync(accepts, before, g, id, acts);
                  g in t.agents && (t.agents[g].sync.Idle? ==> ExactAt(accepts, t, g, id))
  {
    if Safe(accepts, g, h) {
      forall before, acts | SyncsIn(accepts, before, g, id, acts) && History(Run(accepts, INIT, before), id) == h
        ensures var t := AfterSync(accepts, before, g, id, acts);
                g in t.agents && (t.agents[g].sync.Idle? ==> ExactAt(accepts, t, g, id))
      {
        SyncConverges(accepts, before, g, id, acts);
      }
    } else {
      var before := UnsafeHistoryBreaksAgreement(accepts, g, id, h);
      var acts := FutileSync(accepts, Run(accepts, INIT, before), g, id);
      assert SyncsIn(accepts, before, g, id, acts);
    }
  }

  // ---------------------------------------------------------------- failed fetches

  /** The agent does not crash, every snapshot it takes lists the config, and every fetch of it fails or finds no
      config. */
  ghost predicate NeverFetched(accepts: Acceptance, s: System, acts: seq<Action>, g: string, id: string)
    requires IsRun(accepts, s, acts)
    decreases |acts|
  {
    acts == [] ||
    (acts[0] != Crash(g)
     && (acts[0] == Snapshot(g) ==> id in s.summary)
     && (acts[0] == Handle(g, id, true) ==> id !in s.json)
     && NeverFetched(accepts, Apply(accepts, s, acts[0]), acts[1..], g, id))
  }

  /** Then the agent keeps running what it runs, whatever versions the summary shows meanwhile. */
  lemma {:induction false} FailedFetchesKeepTest(accepts: Acceptance, s: System, acts: seq<Action>, g: string,
                                                 id: string)
    requires g in s.agents && id in s.agents[g].cache
    requires IsRun(accepts, s, acts) && NeverFetched(accepts, s, acts, g, id)
    ensures var t := Run(accepts, s, acts);
            g in t.agents && Get(t.agents[g].cache, id) == Get(s.agents[g].cache, id)
    decreases |acts|
  {
    if acts != [] {
      var t := Apply(accepts, s, acts[0]);
      assert g in t.agents && Get(t.agents[g].cache, id) == Get(s.agents[g].cache, id);
      FailedFetchesKeepTest(accepts, t, acts[1..], g, id);
    }
  }

  // ---------------------------------------------------------------- who runs a config

  /** The agent runs some version of the config if and only if the stored one is accepted. */
  ghost predicate PresentAt(accepts: Acceptance, s: System, g: string, id: string)
    requires g in s.agents
  {
    id in s.agents[g].cache <==> id in s.json && accepts(g, s.json[id])
  }

  /** The agent accepts the current config, or the history is safe for it. */
  ghost predicate Places(accepts: Acceptance, g: string, h: seq<TestConfig>) {
    (h != [] && accepts(g, Last(h))) || Safe(accepts, g, h)
  }

  /** What a sync that started after the last write of the config has achieved so far for who runs it. */
  ghost predicate PresenceAt(accepts: Acceptance, s: System, g: string, id: string) {
    && id !in s.writers && g in s.agents
    && match s.agents[g].sync
       case Idle => PresentAt(accepts, s, g, id)
       case Syncing(snapshot, todo) =>
         Get(snapshot, id) == Get(s.summary, id) && (id !in todo ==> PresentAt(accepts, s, g, id))
  }

  lemma SnapshotStartsPresence(accepts: Acceptance, s: System, g: string, id: string)
    requires InvAt(accepts, s, id) && id !in s.writers && Enabled(s, Snapshot(g))
    ensures PresenceAt(accepts, Apply(accepts, s, Snapshot(g)), g, id)
  {
  }

  lemma QuietStepKeepsPresence(accepts: Acceptance, s: System, a: Action, g: string, id: string)
    requires InvAt(accepts, s, id) && (id in s.json ==> Places(accepts, g, History(s, id)))
    requires PresenceAt(accepts, s, g, id) && Enabled(s, a) && Quiet(a, g, id)
    ensures PresenceAt(accepts, Apply(accepts, s, a), g, id)
  {
    if a == Snapshot(g) {
      SnapshotStartsPresence(accepts, s, g, id);
    } else if a.Handle? && a.agent == g && a.id == id {
      assert AgentInvAt(accepts, s, g, id);
      if Safe(accepts, g, History(s, id)) {
        InvImpliesAgreement(accepts, s, g, id);
      }
    }
  }

  /** A quiet step leaves what the store knows of the config. */
  lemma QuietStepKeepsView(accepts: Acceptance, s: System, a: Action, g: string, id: string)
    requires id !in s.writers && Enabled(s, a) && Quiet(a, g, id)
    ensures ViewAt(Apply(accepts, s, a), id) == ViewAt(s, id)
  {
    assert !Touches(a, id);
    OneStepView(accepts, s, a, id);
  }

  lemma {:induction false} QuietRunKeepsPresence(accepts: Acceptance, s: System, acts: seq<Action>, g: string,
                                                 id: string)
    requires InvAt(accepts, s, id) && (id in s.json ==> Places(accepts, g, History(s, id)))
    requires PresenceAt(accepts, s, g, id) && IsRun(accepts, s, acts)
    requires forall i :: 0 <= i < |acts| ==> Quiet(acts[i], g, id)
    ensures PresenceAt(accepts, Run(accepts, s, acts), g, id)
    decreases |acts|
  {
    if acts != [] {
      var t := Apply(accepts, s, acts[0]);
      QuietStepKeepsPresence(accepts, s, acts[0], g, id);
      QuietStepKeepsView(accepts, s, acts[0], g, id);
      assert Get(t.json, id) == Get(s.json, id) && History(t, id) == History(s, id);
      StepKeepsInv(accepts, s, acts[0], id);
      assert forall i :: 0 <= i < |acts[1..]| ==> acts[1..][i] == acts[i + 1];
      QuietRunKeepsPresence(accepts, t, acts[1..], g, id);
    }
  }

  lemma SyncPlaces(accepts: Acceptance, before: seq<Action>, g: string, id: string, acts: seq<Action>)
    requires SyncsIn(accepts, before, g, id, acts)
    requires Places(accepts, g, History(Run(accepts, INIT, before), id))
    ensures var t := AfterSync(accepts, before, g, id, acts);
            g in t.agents && (t.agents[g].sync.Idle? ==> PresentAt(accepts, t, g, id))
  {
    var s := Run(accepts, INIT, before);
    RunKeepsInv(accepts, INIT, before, id);
    SnapshotStartsPresence(accepts, s, g, id);
    StepKeepsInv(accepts, s, Snapshot(g), id);
    QuietRunKeepsPresence(accepts, Apply(accepts, s, Snapshot(g)), acts, g, id);
  }

  /** After every run with a given write history, an agent that syncs quietly and is idle runs the config if and only
      if the stored one is accepted: that holds exactly if the agent accepts the current config or the history is
      safe for it. */
  lemma SyncPlacesIff(accepts: Acceptance, g: string, id: string, h: seq<TestConfig>)
    requires h != [] && forall c :: c in h ==> Id(c) == id
    ensures Places(accepts, g, h)
       <==> forall before, acts ::
              SyncsIn(accepts, before, g, id, acts) && History(Run(accepts, INIT, before), id) == h
              ==> var t := AfterSync(accepts, before, g, id, acts);
                  g in t.agents && (t.agents[g].sync.Idle? ==> PresentAt(accepts, t, g, id))
  {
    if Places(accepts, g, h) {
      forall before, acts | SyncsIn(accepts, before, g, id, acts) && History(Run(accepts, INIT, before), id) == h
        ensures var t := AfterSync(accepts, before, g, id, acts);
                g in t.agents && (t.agents[g].sync.Idle? ==> PresentAt(accepts, t, g, id))
      {
        SyncPlaces(accepts, before, g, id, acts);
      }
    } else {
      var before, acts := MisplacedSync(accepts, g, id, h);
    }
  }

  /** Otherwise an agent that rejects the current config can go on running an earlier one. */
  lemma MisplacedSync(accepts: Acceptance, g: string, id: string, h: seq<TestConfig>)
    returns (before: seq<Action>, acts: seq<Action>)
    requires h != [] && !Places(accepts, g, h) && forall c :: c in h ==> Id(c) == id
    ensures SyncsIn(accepts, before, g, id, acts) && History(Run(accepts, INIT, before), id) == h
    ensures var t := AfterSync(accepts, before, g, id, acts);
            g in t.agents && t.agents[g].sync.Idle? && Get(t.json, id) == Some(Last(h)) && id in t.agents[g].cache
  {
    before := UnsafeHistoryBreaksAgreement(accepts, g, id, h);
    var s := Run(accepts, INIT, before);
    acts := FutileSync(accepts, s, g, id);
    RunKeepsInv(accepts, INIT, before, id);
    assert s.json[id] == Last(h);
  }

  /** An error-free sync of a stale agent ends, and the entry is as stale as before. */
  lemma FutileSync(accepts: Acceptance, s: System, g: string, id: string) returns (acts: seq<Action>)
    requires StaleAt(s, g, id) && s.agents[g].sync.Idle?
    ensures Enabled(s, Snapshot(g)) && IsRun(accepts, Apply(accepts, s, Snapshot(g)), acts)
    ensures forall i :: 0 <= i < |acts| ==> Quiet(acts[i], g, id)
    ensures var t := Run(accepts, Apply(accepts, s, Snapshot(g)), acts);
            StaleAt(t, g, id) && t.agents[g].sync.Idle? && t.json[id] == s.json[id]
  {
    StaleStep(accepts, s, g, id, Snapshot(g));
    acts := FinishSync(accepts, Apply(accepts, s, Snapshot(g)), g, id);
  }

  lemma {:induction false} FinishSync(accepts: Acceptance, s: System, g: string, id: string) returns (acts: seq<Action>)
    requires StaleAt(s, g, id) && s.agents[g].sync.Syncing? && s.agents[g].sync.todo <= s.agents[g].sync.snapshot.Keys
    ensures IsRun(accepts, s, acts) && forall i :: 0 <= i < |acts| ==> Quiet(acts[i], g, id)
    ensures var t := Run(accepts, s, acts);
            StaleAt(t, g, id) && t.agents[g].sync.Idle? && t.json[id] == s.json[id]
    decreases s.agents[g].sync.todo
  {
    var todo := s.agents[g].sync.todo;
    var a := Finish(g);
    if todo != {} {
      var j :| j in todo;
      a := Handle(g, j, true);
    }
    StaleStep(accepts, s, g, id, a);
    var rest := [];
    if todo != {} {
      rest := FinishSync(accepts, Apply(accepts, s, a), g, id);
    }
    ConsRun(accepts, s, a, rest);
    acts := [a] + rest;
  }

  /** The same at the level of one whole sync, from any reachable cache and with no write under way; repeating
      the sync against the unchanged store changes nothing. */
  lemma OneSyncIsExact(accepts: Acceptance, s: System, g: string, id: string)
    requires InvAt(accepts, s, id) && Safe(accepts, g, History(s, id)) && id !in s.writers && g in s.agents
    ensures SyncedEntry(c => accepts(g, c), Get(s.agents[g].cache, id), Get(s.summary, id), Get(s.json, id))
         == if id in s.json && id in s.summary && accepts(g, s.json[id])
            then Some(Entry(s.json[id], s.summary[id])) else None
    ensures var accept := c => accepts(g, c);
            var once := SyncedEntry(accept, Get(s.agents[g].cache, id), Get(s.summary, id), Get(s.json, id));
            SyncedEntry(accept, once, Get(s.summary, id), Get(s.json, id)) == once
  {
    InvImpliesAgreement(accepts, s, g, id);
    assert AgentInvAt(accepts, s, g, id);
  }

  // ---------------------------------------------------------------- the steps on one config

  /** What the store and its writer know of one config. */
  datatype ConfigView = ConfigView(
    json: Option<TestConfig>,
    summary: Option<string>,
    writer: Option<Writer>,
    written: seq<TestConfig>)

  function ViewAt(s: System, id: string): ConfigView {
    ConfigView(Get(s.json, id), Get(s.summary, id), Get(s.writers, id), History(s, id))
  }

  predicate Touches(a: Action, id: string) {
    match a
    case SetJson(c) => Id(c) == id
    case SetSummary(j) => j == id
    case DelJson(j) => j == id
    case DelSummary(j) => j == id
    case _ => false
  }

  function StepsOn(acts: seq<Action>, id: string): seq<Action> {
    if acts == [] then []
    else (if Touches(acts[0], id) then [acts[0]] else []) + StepsOn(acts[1..], id)
  }

  function StepView(v: ConfigView, a: Action): ConfigView {
    match a
    case SetJson(c) => ConfigView(Some(c), v.summary, Some(Writing(c)), v.written + [c])
    case SetSummary(_) =>
      var latest := if v.writer.Some? && v.writer.value.Writing? then Some(v.writer.value.config.version) else None;
      v.(summary := latest, writer := None)
    case DelJson(_) => v.(json := None, writer := Some(Deleting))
    case DelSummary(_) => v.(summary := None, writer := None)
    case _ => v
  }

  function ViewAfter(v: ConfigView, steps: seq<Action>): ConfigView
    decreases |steps|
  {
    if steps == [] then v else ViewAfter(StepView(v, steps[0]), steps[1..])
  }

  lemma OneStepView(accepts: Acceptance, s: System, a: Action, id: string)
    requires Enabled(s, a)
    ensures ViewAt(Apply(accepts, s, a), id) == if Touches(a, id) then StepView(ViewAt(s, id), a) else ViewAt(s, id)
  {
  }

  /** Whatever else a run does, only its steps on a config decide what becomes of that config in the store. */
  lemma {:induction false} RunView(accepts: Acceptance, s: System, acts: seq<Action>, id: string)
    requires IsRun(accepts, s, acts)
    ensures ViewAt(Run(accepts, s, acts), id) == ViewAfter(ViewAt(s, id), StepsOn(acts, id))
    decreases |acts|
  {
    if acts != [] {
      OneStepView(accepts, s, acts[0], id);
      RunView(accepts, Apply(accepts, s, acts[0]), acts[1..], id);
      assert ([acts[0]] + StepsOn(acts[1..], id))[1..] == StepsOn(acts[1..], id);
      assert [] + StepsOn(acts[1..], id) == StepsOn(acts[1..], id);
    }
  }
}
