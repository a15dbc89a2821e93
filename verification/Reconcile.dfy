/** controller/internal/controller/synthetictest_controller.go: one reconcile of a SyntheticTest resource.
    A `$` in the node selector, or the pod name `$`, asks the controller to pick a single agent. */
module Reconciler {
  import opened Ids
  import opened TestConfigs
  import opened Validity
  import opened Globs
  import opened Store

  /** The resource's spec and metadata; `raw` is its YAML text. */
  datatype Spec = Spec(
    name: string,
    namespace: string,
    labels: map<string, string>,
    node: string,
    pods: map<string, string>,
    body: string,
    raw: string)

  /** The version function: MD5 of the rendered config with an empty version. */
  type Hash = TestConfig -> string

  const MULTIPLE := "multiple"

  predicate NeedsNode(spec: Spec) {
    '$' in spec.node
  }

  predicate NeedsPod(spec: Spec) {
    POD_NAME_KEY in spec.pods && spec.pods[POD_NAME_KEY] == "$"
  }

  predicate NeedsAgent(spec: Spec) {
    NeedsNode(spec) || NeedsPod(spec)
  }

  function NodePattern(spec: Spec): string {
    if NeedsNode(spec) then Relax(spec.node) else spec.node
  }

  function PodPattern(spec: Spec): map<string, string> {
    if NeedsPod(spec) then spec.pods - {POD_NAME_KEY} else spec.pods
  }

  function ConfigFor(hash: Hash, spec: Spec, node: string, pods: map<string, string>): TestConfig {
    var c := TestConfig(spec.name, spec.namespace, "", spec.labels, node, pods, spec.body);
    c.(version := hash(c))
  }

  /** The selector an agent evaluates for a config. */
  function Sel(c: TestConfig): Selector {
    Selector(c.namespace, c.labels, c.node, c.pods)
  }

  function SpecSel(spec: Spec): Selector {
    Selector(spec.namespace, spec.labels, NodePattern(spec), PodPattern(spec))
  }

  ghost function ValidAgents(m: Matcher, active: map<string, AgentConfig>, sel: Selector): set<string> {
    set a | a in active && Unanimous(m, active[a], a, sel)
  }

  /** What a reconcile does: requeue without touching anything, or publish a config and a status. */
  datatype Decision = Requeue | Publish(config: TestConfig, agent: string, deployed: bool)

  /** The decisions open to the controller, given the agent recorded in the status.  The only freedom is
      which valid agent a new assignment goes to. */
  ghost predicate ValidDecision(m: Matcher, hash: Hash, spec: Spec, current: string,
                                active: Option<map<string, AgentConfig>>, d: Decision) {
    var asWritten := ConfigFor(hash, spec, spec.node, spec.pods);
    if NeedsNode(spec) && NeedsPod(spec) then d == Publish(asWritten, "", false)
    else if d.Requeue? then
      active.Some? ==> exists a :: a in active.value && !WellFormed(m, active.value[a], SpecSel(spec))
    else
      && active.Some?
      && var valid := ValidAgents(m, active.value, SpecSel(spec));
         if valid == {} then d == Publish(asWritten, "", false)
         else if !NeedsAgent(spec) then d == Publish(asWritten, MULTIPLE, true)
         else
           && d.agent in valid
           && (current in valid ==> d.agent == current)
           && var pods := PodPattern(spec)[AGENT_ID_KEY := d.agent];
              d == Publish(ConfigFor(hash, spec, NodePattern(spec), pods), d.agent, true)
  }

  /** updateTestConfigInRedis skips the write when the stored version and the recorded agent are current. */
  predicate UpToDate(db: Db, current: string, d: Decision)
    requires d.Publish?
  {
    var stored := StoredConfig(db, Id(d.config));
    && (if stored.Some? then stored.value.version else "") == d.config.version
    && current == d.agent
  }

  function Published(db: Db, current: string, raw: string, d: Decision): Db {
    if d.Requeue? then db
    else
      var written := if UpToDate(db, current, d) then db else Store.Apply(db, WriteConfig(d.config, raw));
      Store.Apply(written, WriteStatus(Id(d.config), TestStatus(d.deployed, d.agent)))
  }

  function StatusAfter(current: string, d: Decision): string {
    if d.Requeue? then current else d.agent
  }

  class SyntheticTest {
    const spec: Spec
    var status: TestStatus

    constructor (spec: Spec)
      ensures this.spec == spec && status == TestStatus(false, "")
    {
      this.spec := spec;
      status := TestStatus(false, "");
    }
  }

  method SelectRandomAgent(validAgents: set<string>, index: nat) returns (agent: Option<string>)
    requires if |validAgents| > 1 then index < |validAgents| - 1 else index == 0
    ensures agent.Some? <==> validAgents != {}
    ensures agent.Some? ==> agent.value in validAgents
  {
    var i := 0;
    var rest := validAgents;
    while rest != {}
      invariant rest <= validAgents && i + |rest| == |validAgents|
      invariant i <= index || validAgents == {}
      decreases rest
    {
      var a :| a in rest;
      if i == index {
        return Some(a);
      }
      i := i + 1;
      rest := rest - {a};
    }
    return None;
  }

  method GetValidAgentsForTest(m: Matcher, active: map<string, AgentConfig>, sel: Selector)
    returns (valid: Option<set<string>>)
    ensures valid.Some? ==> valid.value == ValidAgents(m, active, sel)
    ensures valid.None? ==> exists a :: a in active && !WellFormed(m, active[a], sel)
  {
    var found := {};
    var rest := active.Keys;
    while rest != {}
      invariant rest <= active.Keys
      invariant found == set a | a in active && a !in rest && Unanimous(m, active[a], a, sel)
      decreases rest
    {
      var a :| a in rest;
      var verdict, _ := IsAgentValidForSynTest(m, active[a], a, sel);
      if verdict == Error {
        return None;
      }
      if verdict == Accept {
        found := found + {a};
      }
      rest := rest - {a};
    }
    return Some(found);
  }

  method UpdateTestConfigInRedis(test: SyntheticTest, store: RedisStore, d: Decision)
    requires d.Publish? && store.Valid()
    modifies store
    ensures store.Valid()
    ensures store.db == if UpToDate(old(store.db), test.status.agent, d) then old(store.db)
                        else Store.Apply(old(store.db), WriteConfig(d.config, test.spec.raw))
  {
    var stored := store.FetchTestConfig(Id(d.config));
    var version := if stored.Some? then stored.value.version else "";
    if version == d.config.version && test.status.agent == d.agent {
      return;
    }
    store.WriteTestConfig(d.config, test.spec.raw);
  }

  method Reconcile(m: Matcher, hash: Hash, test: SyntheticTest, store: RedisStore,
                   active: Option<map<string, AgentConfig>>)
    returns (d: Decision)
    requires store.Valid()
    modifies test, store
    ensures store.Valid()
    ensures ValidDecision(m, hash, test.spec, old(test.status.agent), active, d)
    ensures store.db == Published(old(store.db), old(test.status.agent), test.spec.raw, d)
    ensures test.status == if d.Requeue? then old(test.status) else TestStatus(d.deployed, d.agent)
  {
    var spec := test.spec;
    if NeedsNode(spec) && NeedsPod(spec) {
      d := Publish(ConfigFor(hash, spec, spec.node, spec.pods), "", false);
    } else {
      var node, pods := spec.node, spec.pods;
      if NeedsNode(spec) {
        node := Relax(node);
      }
      if NeedsPod(spec) {
        pods := pods - {POD_NAME_KEY};
      }
      if active.None? {
        return Requeue;
      }
      var valid := GetValidAgentsForTest(m, active.value, Selector(spec.namespace, spec.labels, node, pods));
      if valid.None? {
        return Requeue;
      }
      if valid.value == {} {
        d := Publish(ConfigFor(hash, spec, spec.node, spec.pods), "", false);
      } else if NeedsNode(spec) || NeedsPod(spec) {
        var agent := test.status.agent;
        if agent !in valid.value {
          var index: nat := 0;
          if |valid.value| > 1 {
            index :| 0 <= index < |valid.value| - 1;
          }
          var picked := SelectRandomAgent(valid.value, index);
          agent := picked.value;
        }
        d := Publish(ConfigFor(hash, spec, node, pods[AGENT_ID_KEY := agent]), agent, true);
      } else {
        d := Publish(ConfigFor(hash, spec, node, pods), MULTIPLE, true);
      }
    }
    UpdateTestConfigInRedis(test, store, d);
    store.WriteTestConfigStatus(Id(d.config), TestStatus(d.deployed, d.agent));
    test.status := TestStatus(d.deployed, d.agent);
  }

  /** The reconcile of a resource that no longer exists. */
  method ReconcileDeleted(name: string, namespace: string, store: RedisStore)
    requires store.Valid()
    modifies store
    ensures store.Valid() && store.db == Store.Apply(old(store.db), DeleteConfig(ConfigId(name, namespace)))
    ensures StoredConfig(store.db, ConfigId(name, namespace)) == None
    ensures ConfigId(name, namespace) !in Fields(store.db, ConfigSummary)
  {
    store.DeleteTestConfig(ConfigId(name, namespace));
  }

  // ---------------------------------------------------------------- placement

  /** What a single-agent test asks of an agent apart from being the chosen one. */
  function Request(spec: Spec): Selector {
    SpecSel(spec).(pods := PodPattern(spec) - {AGENT_ID_KEY})
  }

  /** Whatever configurations the controller saw: a published single-agent config is accepted by exactly the chosen
      agent, and by that one if and only if its own configuration meets the request. */
  lemma OnlyChosenAgentAccepts(m: Matcher, hash: Hash, spec: Spec, current: string, active: map<string, AgentConfig>,
                               d: Decision, b: string, cfg: AgentConfig)
    requires ValidDecision(m, hash, spec, current, Some(active), d) && d.Publish? && d.deployed && NeedsAgent(spec)
    requires AGENT_ID_KEY !in cfg.podLabels
    ensures Unanimous(m, cfg, b, Sel(d.config)) <==> b == d.agent && Unanimous(m, cfg, b, Request(spec))
  {
    ChosenSelector(m, hash, spec, current, active, d);
    NewSelectorKeyShrinks(m, cfg, b, Request(spec), AGENT_ID_KEY, d.agent);
    assert EntryVerdict(m, cfg, b, AGENT_ID_KEY, d.agent) == Accept <==> b == d.agent;
  }

  lemma ChosenSelector(m: Matcher, hash: Hash, spec: Spec, current: string, active: map<string, AgentConfig>,
                       d: Decision)
    requires ValidDecision(m, hash, spec, current, Some(active), d) && d.Publish? && d.deployed && NeedsAgent(spec)
    ensures Sel(d.config) == Request(spec).(pods := Request(spec).pods[AGENT_ID_KEY := d.agent])
  {
    PutAfterRemove(PodPattern(spec), AGENT_ID_KEY, d.agent);
  }

  lemma PutAfterRemove(pods: map<string, string>, k: string, v: string)
    ensures (pods - {k})[k := v] == pods[k := v]
  {
  }

  /** The chosen agent meets the request as far as the controller can see. */
  lemma ChosenAgentMeetsRequest(m: Matcher, hash: Hash, spec: Spec, current: string, active: map<string, AgentConfig>,
                                d: Decision)
    requires ValidDecision(m, hash, spec, current, Some(active), d) && d.Publish? && d.deployed && NeedsAgent(spec)
    ensures d.agent in active && Unanimous(m, active[d.agent], d.agent, Request(spec))
  {
    var asked, all := Request(spec).pods, SpecSel(spec).pods;
    assert forall k :: k in asked ==> k in all && asked[k] == all[k];
  }

  /** Kubernetes labels have no key starting with `$`, and node and pod names contain no `$`. */
  predicate DollarFree(cfg: AgentConfig) {
    '$' !in cfg.nodeName && '$' !in cfg.podName && AGENT_ID_KEY !in cfg.podLabels && POD_NAME_KEY !in cfg.podLabels
  }

  /** A config that still carries a `$` request is accepted by no agent. */
  lemma UnresolvedRequestAcceptedByNone(m: Matcher, hash: Hash, spec: Spec, a: string, cfg: AgentConfig)
    requires ExtendsGlob(m) && DollarFree(cfg) && Simple(spec.node) && NeedsAgent(spec)
    ensures !Unanimous(m, cfg, a, Sel(ConfigFor(hash, spec, spec.node, spec.pods)))
  {
    if NeedsNode(spec) {
      if Glob(spec.node, cfg.nodeName) {
        GlobNeedsLiteral(spec.node, cfg.nodeName, '$');
      }
      assert NodeVerdict(m, cfg, spec.node) != Accept;
    } else {
      assert Simple("$");
      if Glob("$", cfg.podName) {
        GlobNeedsLiteral("$", cfg.podName, '$');
      }
      assert EntryVerdict(m, cfg, a, POD_NAME_KEY, "$") == Reject;
      assert Sel(ConfigFor(hash, spec, spec.node, spec.pods)).pods[POD_NAME_KEY] == "$";
    }
  }

  /** The status says Deployed if and only if some active agent accepts the config as published. */
  lemma DeployedIffAccepted(m: Matcher, hash: Hash, spec: Spec, current: string, active: map<string, AgentConfig>,
                            d: Decision)
    requires ExtendsGlob(m) && Simple(spec.node)
    requires forall a :: a in active ==> DollarFree(active[a])
    requires ValidDecision(m, hash, spec, current, Some(active), d) && d.Publish?
    ensures d.deployed <==> exists a :: a in active && Unanimous(m, active[a], a, Sel(d.config))
  {
    if d.deployed {
      if NeedsAgent(spec) {
        ChosenAgentMeetsRequest(m, hash, spec, current, active, d);
        OnlyChosenAgentAccepts(m, hash, spec, current, active, d, d.agent, active[d.agent]);
      } else {
        var a :| a in ValidAgents(m, active, SpecSel(spec));
        assert Unanimous(m, active[a], a, Sel(d.config));
      }
    } else if NeedsAgent(spec) {
      forall a | a in active ensures !Unanimous(m, active[a], a, Sel(d.config)) {
        UnresolvedRequestAcceptedByNone(m, hash, spec, a, active[a]);
      }
    } else {
      forall a | a in active ensures !Unanimous(m, active[a], a, Sel(d.config)) {
        assert a !in ValidAgents(m, active, SpecSel(spec));
      }
    }
  }

  /** `node: worker$` runs on a single node whose name has the prefix `worker`. */
  lemma PrefixRequestPicksPrefixNode(m: Matcher, hash: Hash, spec: Spec, w: string, current: string,
                                     active: map<string, AgentConfig>, d: Decision)
    requires ExtendsGlob(m) && spec.node == w + "$" && forall i :: 0 <= i < |w| ==> Literal(w[i]) && w[i] != '$'
    requires ValidDecision(m, hash, spec, current, Some(active), d) && d.Publish? && d.deployed
    ensures d.agent in active && w <= active[d.agent].nodeName
  {
    assert spec.node[|w|] == '$';
    assert Relax(spec.node) == w + "*";
    GlobPrefix(w, active[d.agent].nodeName);
    assert NodeVerdict(m, active[d.agent], w + "*") == Accept;
    assert Simple(w + "*");
  }

  // ---------------------------------------------------------------- runs of reconciles

  /** One reconcile of a run: the agents active at the time and the decision taken. */
  datatype Round = Round(active: Option<map<string, AgentConfig>>, decision: Decision)

  function AgentAfter(current: string, rounds: seq<Round>): string
    decreases |rounds|
  {
    if rounds == [] then current else AgentAfter(StatusAfter(current, rounds[0].decision), rounds[1..])
  }

  function DbAfter(db: Db, current: string, raw: string, rounds: seq<Round>): Db
    decreases |rounds|
  {
    if rounds == [] then db
    else
      var d := rounds[0].decision;
      DbAfter(Published(db, current, raw, d), StatusAfter(current, d), raw, rounds[1..])
  }

  /** Every round's decision is open to the controller, given the status the rounds before it left. */
  ghost predicate ValidRounds(m: Matcher, hash: Hash, spec: Spec, current: string, rounds: seq<Round>)
    decreases |rounds|
  {
    rounds == [] ||
    (ValidDecision(m, hash, spec, current, rounds[0].active, rounds[0].decision)
     && ValidRounds(m, hash, spec, StatusAfter(current, rounds[0].decision), rounds[1..]))
  }

  /** Stickiness over whole runs: an assigned agent is kept as long as it stays in the valid set. */
  lemma {:induction false} AssignmentIsSticky(m: Matcher, hash: Hash, spec: Spec, agent: string, rounds: seq<Round>)
    requires NeedsAgent(spec) && !(NeedsNode(spec) && NeedsPod(spec))
    requires ValidRounds(m, hash, spec, agent, rounds)
    requires forall i :: 0 <= i < |rounds| ==>
               rounds[i].active.None? || agent in ValidAgents(m, rounds[i].active.value, SpecSel(spec))
    ensures AgentAfter(agent, rounds) == agent
    decreases |rounds|
  {
    if rounds != [] {
      assert rounds[0].active.None? || agent in ValidAgents(m, rounds[0].active.value, SpecSel(spec));
      assert forall i :: 0 <= i < |rounds[1..]| ==> rounds[1..][i] == rounds[i + 1];
      AssignmentIsSticky(m, hash, spec, agent, rounds[1..]);
    }
  }

  /** The keys agents read: json, raw and summary. */
  ghost predicate SameConfigs(db: Db, other: Db) {
    && Fields(db, ConfigSummary) == Fields(other, ConfigSummary)
    && (forall id :: StoredConfig(db, id) == StoredConfig(other, id))
    && (forall id :: Lookup(db, ConfigRaw(id)) == Lookup(other, ConfigRaw(id)))
  }

  lemma SameDecisionAgain(m: Matcher, hash: Hash, spec: Spec, active: map<string, AgentConfig>, before: string,
                          d: Decision, e: Decision)
    requires d.Publish? && ValidDecision(m, hash, spec, before, Some(active), d)
    requires e.Publish? && ValidDecision(m, hash, spec, d.agent, Some(active), e)
    ensures e == d
  {
  }

  lemma RepublishKeepsConfigs(db: Db, raw: string, d: Decision)
    requires d.Publish? && UpToDate(db, d.agent, d)
    ensures SameConfigs(db, Published(db, d.agent, raw, d))
  {
  }

  /** A published decision is a fixed point: with the same active agents every later reconcile decides the
      same and writes no config key. */
  lemma {:induction false} RepeatedReconcileWritesNothing(m: Matcher, hash: Hash, spec: Spec,
                                                          active: map<string, AgentConfig>,
                                                          before: string, d: Decision, db: Db, rounds: seq<Round>)
    requires d.Publish? && ValidDecision(m, hash, spec, before, Some(active), d)
    requires var c := StoredConfig(db, Id(d.config)); c.Some? && c.value.version == d.config.version
    requires ValidRounds(m, hash, spec, d.agent, rounds)
    requires forall i :: 0 <= i < |rounds| ==> rounds[i].active == Some(active)
    ensures AgentAfter(d.agent, rounds) == d.agent
    ensures SameConfigs(db, DbAfter(db, d.agent, spec.raw, rounds))
    decreases |rounds|
  {
    if rounds != [] {
      var e := rounds[0].decision;
      assert rounds[0].active == Some(active);
      var next := Published(db, d.agent, spec.raw, e);
      if e.Publish? {
        SameDecisionAgain(m, hash, spec, active, before, d, e);
        RepublishKeepsConfigs(db, spec.raw, d);
      }
      assert StoredConfig(next, Id(d.config)) == StoredConfig(db, Id(d.config));
      assert forall i :: 0 <= i < |rounds[1..]| ==> rounds[1..][i] == rounds[i + 1];
      RepeatedReconcileWritesNothing(m, hash, spec, active, before, d, next, rounds[1..]);
    }
  }

  /** The version is the hash of the config without it. */
  predicate Versioned(hash: Hash, c: TestConfig) {
    c.version == hash(c.(version := ""))
  }

  /** The hash tells these two configs apart. */
  predicate HashSeparates(hash: Hash, c: TestConfig, d: TestConfig) {
    hash(c.(version := "")) == hash(d.(version := "")) ==> c.(version := "") == d.(version := "")
  }

  /** The stored config, if any, was published by the controller and does not collide with the new one. */
  predicate HashOk(hash: Hash, db: Db, d: Decision)
    requires d.Publish?
  {
    var stored := StoredConfig(db, Id(d.config));
    stored.Some? ==> Versioned(hash, stored.value) && HashSeparates(hash, stored.value, d.config)
  }

  lemma PublishedIsVersioned(m: Matcher, hash: Hash, spec: Spec, current: string,
                             active: Option<map<string, AgentConfig>>, d: Decision)
    requires ValidDecision(m, hash, spec, current, active, d) && d.Publish?
    ensures Versioned(hash, d.config) && Id(d.config) == ConfigId(spec.name, spec.namespace)
  {
    var c := d.config;
    assert c.(version := "") == TestConfig(spec.name, spec.namespace, "", spec.labels, c.node, c.pods, spec.body);
  }

  /** A published config carries the resource: name, namespace, labels and plugin settings always, the selectors as
      written unless an agent was picked, and otherwise a wildcard for every `$`, no pod name and the agent's id. */
  lemma PublishedCarriesSpec(m: Matcher, hash: Hash, spec: Spec, current: string,
                             active: Option<map<string, AgentConfig>>, d: Decision)
    requires ValidDecision(m, hash, spec, current, active, d) && d.Publish?
    ensures d.config.name == spec.name && d.config.namespace == spec.namespace
    ensures d.config.labels == spec.labels && d.config.body == spec.body
    ensures d.config.version == hash(d.config.(version := ""))
    ensures !d.deployed ==> d.agent == "" && d.config.node == spec.node && d.config.pods == spec.pods
    ensures d.deployed && '$' !in spec.node && !("$podName" in spec.pods && spec.pods["$podName"] == "$") ==>
              d.agent == "multiple" && d.config.node == spec.node && d.config.pods == spec.pods
    ensures d.deployed && '$' in spec.node ==>
              d.config.node == Relax(spec.node) && d.config.pods == spec.pods["$agentId" := d.agent]
    ensures d.deployed && "$podName" in spec.pods && spec.pods["$podName"] == "$" ==>
              d.config.node == spec.node && d.config.pods == (spec.pods - {"$podName"})["$agentId" := d.agent]
  {
    PublishedIsVersioned(m, hash, spec, current, active, d);
  }

  /** When the reconcile reports Deployed: never for two `$` requests, otherwise when an active agent accepts the
      selectors with the requests taken out.  Without the list of agents it is requeued. */
  lemma DeployedIffRequestMet(m: Matcher, hash: Hash, spec: Spec, current: string,
                              active: Option<map<string, AgentConfig>>, d: Decision)
    requires ValidDecision(m, hash, spec, current, active, d)
    ensures var askPod := "$podName" in spec.pods && spec.pods["$podName"] == "$";
            if '$' in spec.node && askPod then d.Publish? && !d.deployed
            else if active.None? then d.Requeue?
            else
              var node := if '$' in spec.node then Relax(spec.node) else spec.node;
              var pods := if askPod then spec.pods - {"$podName"} else spec.pods;
              var sel := Selector(spec.namespace, spec.labels, node, pods);
              d.Publish? ==>
                (d.deployed <==> exists a :: a in active.value && Unanimous(m, active.value[a], a, sel))
  {
    if d.Publish? && active.Some? && !(NeedsNode(spec) && NeedsPod(spec)) {
      var valid := ValidAgents(m, active.value, SpecSel(spec));
      if valid != {} {
        var a :| a in valid;
        assert Unanimous(m, active.value[a], a, SpecSel(spec));
      }
      assert forall a :: a in active.value && Unanimous(m, active.value[a], a, SpecSel(spec)) ==> a in valid;
    }
  }

  /** All configs in the store carry their hash; every reconcile keeps it so. */
  ghost predicate AllVersioned(hash: Hash, db: Db) {
    forall id :: StoredConfig(db, id).Some? ==> Versioned(hash, StoredConfig(db, id).value)
  }

  lemma ReconcileKeepsVersions(m: Matcher, hash: Hash, spec: Spec, current: string,
                               active: Option<map<string, AgentConfig>>, d: Decision, db: Db)
    requires ValidDecision(m, hash, spec, current, active, d) && AllVersioned(hash, db)
    ensures AllVersioned(hash, Published(db, current, spec.raw, d))
  {
    if d.Publish? {
      PublishedIsVersioned(m, hash, spec, current, active, d);
      forall id
        ensures StoredConfig(Published(db, current, spec.raw, d), id) in {Some(d.config), StoredConfig(db, id)}
      {
        PublishedAt(db, current, spec.raw, d, id);
      }
    }
  }

  /** A reconcile touches at most its own config. */
  lemma PublishedAt(db: Db, current: string, raw: string, d: Decision, id: string)
    requires d.Publish?
    ensures var after := Published(db, current, raw, d);
            if id == Id(d.config) && !UpToDate(db, current, d)
            then StoredConfig(after, id) == Some(d.config) && SummaryVersion(after, id) == Some(d.config.version)
            else StoredConfig(after, id) == StoredConfig(db, id) && SummaryVersion(after, id) == SummaryVersion(db, id)
  {
    ConfigRoundTrip(db, d.config, raw);
  }

  /** A reconcile leaves exactly its config in the store, if and only if it does not skip the write because of a
      different config with the same version. */
  lemma PublishingStoresIff(db: Db, current: string, raw: string, d: Decision)
    requires d.Publish?
    ensures StoredConfig(Published(db, current, raw, d), Id(d.config)) == Some(d.config)
       <==> !(UpToDate(db, current, d) && StoredConfig(db, Id(d.config)) != Some(d.config))
  {
    ConfigRoundTrip(db, d.config, raw);
  }

  /** With a version function that separates the two configs it always does. */
  lemma PublishingStores(m: Matcher, hash: Hash, spec: Spec, current: string, active: Option<map<string, AgentConfig>>,
                         d: Decision, db: Db)
    requires ValidDecision(m, hash, spec, current, active, d) && d.Publish? && d.config.version != ""
    requires HashOk(hash, db, d)
    ensures StoredConfig(Published(db, current, spec.raw, d), Id(d.config)) == Some(d.config)
  {
    PublishedIsVersioned(m, hash, spec, current, active, d);
    PublishingStoresIff(db, current, spec.raw, d);
    var stored := StoredConfig(db, Id(d.config));
    if UpToDate(db, current, d) {
      assert stored.Some?;
      assert stored.value == stored.value.(version := "").(version := stored.value.version);
      assert d.config == d.config.(version := "").(version := d.config.version);
    }
  }

  /** An edited resource is never taken for the stored one: a difference in the labels, the selectors or the plugin
      settings makes the stored config out of date, and the store holds the new settings afterwards. */
  lemma EditIsPublished(m: Matcher, hash: Hash, spec: Spec, current: string, active: Option<map<string, AgentConfig>>,
                        d: Decision, db: Db)
    requires ValidDecision(m, hash, spec, current, active, d) && d.Publish? && d.config.version != ""
    requires HashOk(hash, db, d)
    ensures var after := StoredConfig(Published(db, current, spec.raw, d), ConfigId(spec.name, spec.namespace));
            after.Some? && after.value.body == spec.body && after.value.labels == spec.labels
    ensures var stored := StoredConfig(db, ConfigId(spec.name, spec.namespace));
            stored.Some? && (stored.value.body != spec.body || stored.value.labels != spec.labels
                             || stored.value.node != d.config.node || stored.value.pods != d.config.pods) ==>
              !UpToDate(db, current, d)
  {
    PublishedCarriesSpec(m, hash, spec, current, active, d);
    PublishedIsVersioned(m, hash, spec, current, active, d);
    PublishingStores(m, hash, spec, current, active, d, db);
    var stored := StoredConfig(db, Id(d.config));
    if UpToDate(db, current, d) {
      assert stored.value.(version := "") == d.config.(version := "");
    }
  }

  /** After every reconcile that is not requeued the status key holds its outcome and not the reset one, and when the
      config is written the raw key holds the resource's text. */
  lemma PublishedStatus(db: Db, current: string, raw: string, d: Decision)
    requires d.Publish?
    ensures var after := Published(db, current, raw, d);
            && Lookup(after, ConfigStatus(Id(d.config))) == Some(StatusV(TestStatus(d.deployed, d.agent)))
            && Lookup(after, ConfigRaw(Id(d.config))) ==
                 if UpToDate(db, current, d) then Lookup(db, ConfigRaw(Id(d.config))) else Some(RawV(raw))
  {
    var written := Store.Apply(db, WriteConfig(d.config, raw));
    assert Lookup(written, ConfigRaw(Id(d.config))) == Some(RawV(raw));
  }

  lemma PublishingStoresVersion(db: Db, current: string, raw: string, d: Decision)
    requires d.Publish? && d.config.version != ""
    ensures var c := StoredConfig(Published(db, current, raw, d), Id(d.config));
            c.Some? && c.value.version == d.config.version
  {
    ConfigRoundTrip(db, d.config, raw);
  }

  /** Idempotence over whole runs: after one reconcile that published, every further reconcile with the
      same active agents keeps the assignment and writes no config key. */
  lemma ReconcileIsIdempotent(m: Matcher, hash: Hash, spec: Spec, active: map<string, AgentConfig>,
                              db: Db, before: string, d: Decision, rounds: seq<Round>)
    requires d.Publish? && d.config.version != "" && ValidDecision(m, hash, spec, before, Some(active), d)
    requires ValidRounds(m, hash, spec, d.agent, rounds)
    requires forall i :: 0 <= i < |rounds| ==> rounds[i].active == Some(active)
    ensures var first := Published(db, before, spec.raw, d);
            AgentAfter(d.agent, rounds) == d.agent && SameConfigs(first, DbAfter(first, d.agent, spec.raw, rounds))
  {
    PublishingStoresVersion(db, before, spec.raw, d);
    RepeatedReconcileWritesNothing(m, hash, spec, active, before, d, Published(db, before, spec.raw, d), rounds);
  }

  /** The recorded values "" and "multiple" are never an agent id. */
  lemma SentinelsAreNoAgentIds(podName: string, podNs: string)
    ensures AgentId(podName, podNs) != "" && AgentId(podName, podNs) != MULTIPLE
  {
    assert AgentId(podName, podNs)[|podName|] == '/';
    assert '/' !in MULTIPLE;
  }
}
