/** The controller's placement and the agents' syncs together: which agents run a test after a reconcile. */
module Placement {
  import opened Ids
  import opened TestConfigs
  import opened Validity
  import opened Propagation
  import opened Reconciler
  import opened Globs
  import opened Publication
  import Store

  /** Each agent decides with its own configuration. */
  ghost function LocalAcceptance(m: Matcher, local: map<string, AgentConfig>): Acceptance {
    (a, c) => a in local && Unanimous(m, local[a], a, Sel(c))
  }

  /** Agent `g` began a sync somewhere in the run. */
  predicate Synced(acts: seq<Action>, g: string) {
    exists i :: 0 <= i < |acts| && acts[i] == Snapshot(g)
  }

  lemma {:induction false} SplitRun(accepts: Acceptance, s: System, acts: seq<Action>, i: nat)
    requires IsRun(accepts, s, acts) && i <= |acts|
    ensures IsRun(accepts, s, acts[..i]) && IsRun(accepts, Run(accepts, s, acts[..i]), acts[i..])
    ensures Run(accepts, s, acts) == Run(accepts, Run(accepts, s, acts[..i]), acts[i..])
    decreases i
  {
    if i == 0 {
      assert acts[0..] == acts;
    } else {
      SplitRun(accepts, Apply(accepts, s, acts[0]), acts[1..], i - 1);
      assert acts[1..][..i - 1] == acts[..i][1..] && acts[1..][i - 1..] == acts[i..];
    }
  }

  /** Steps that leave a config without a writer alone do not touch it. */
  lemma {:induction false} QuietKeepsView(accepts: Acceptance, s: System, acts: seq<Action>, g: string, id: string)
    requires id !in s.writers && IsRun(accepts, s, acts)
    requires forall i :: 0 <= i < |acts| ==> Quiet(acts[i], g, id)
    ensures ViewAt(Run(accepts, s, acts), id) == ViewAt(s, id)
    decreases |acts|
  {
    if acts != [] {
      QuietStepKeepsView(accepts, s, acts[0], g, id);
      assert Get(Apply(accepts, s, acts[0]).writers, id) == None;
      assert forall i :: 0 <= i < |acts[1..]| ==> acts[1..][i] == acts[i + 1];
      QuietKeepsView(accepts, Apply(accepts, s, acts[0]), acts[1..], g, id);
    }
  }

  /** The agent synced without errors during the quiet period and is idle at its end. */
  ghost predicate Settled(t: System, acts: seq<Action>, g: string, id: string)
    requires g in t.agents
  {
    t.agents[g].sync.Idle? && Synced(acts, g) && forall i :: 0 <= i < |acts| ==> Quiet(acts[i], g, id)
  }

  /** The state in which a settled agent began its sync; the store had not changed for the config. */
  lemma SyncStart(accepts: Acceptance, s: System, acts: seq<Action>, g: string, id: string)
    returns (mid: System, rest: seq<Action>)
    requires InvAt(accepts, s, id) && id !in s.writers && IsRun(accepts, s, acts)
    requires g in Run(accepts, s, acts).agents && Settled(Run(accepts, s, acts), acts, g, id)
    ensures InvAt(accepts, mid, id) && ViewAt(mid, id) == ViewAt(s, id) == ViewAt(Run(accepts, s, acts), id)
    ensures id !in mid.writers && Enabled(mid, Snapshot(g)) && IsRun(accepts, Apply(accepts, mid, Snapshot(g)), rest)
    ensures Run(accepts, Apply(accepts, mid, Snapshot(g)), rest) == Run(accepts, s, acts)
    ensures forall i :: 0 <= i < |rest| ==> Quiet(rest[i], g, id)
  {
    var i :| 0 <= i < |acts| && acts[i] == Snapshot(g);
    SplitRun(accepts, s, acts, i);
    mid, rest := Run(accepts, s, acts[..i]), acts[i + 1..];
    QuietKeepsView(accepts, s, acts, g, id);
    QuietKeepsView(accepts, s, acts[..i], g, id);
    assert Get(mid.writers, id) == None;
    RunKeepsInv(accepts, s, acts[..i], id);
    assert acts[i..][0] == Snapshot(g) && acts[i..][1..] == rest;
  }

  /** A settled agent runs exactly the stored config if it accepts it, at the stored version. */
  lemma SyncedAgentIsExact(accepts: Acceptance, s: System, acts: seq<Action>, g: string, id: string)
    requires InvAt(accepts, s, id) && Safe(accepts, g, History(s, id)) && id !in s.writers && IsRun(accepts, s, acts)
    requires g in Run(accepts, s, acts).agents && Settled(Run(accepts, s, acts), acts, g, id)
    ensures Get(Run(accepts, s, acts).json, id) == Get(s.json, id) && ExactAt(accepts, Run(accepts, s, acts), g, id)
  {
    var mid, rest := SyncStart(accepts, s, acts, g, id);
    SnapshotStartsProgress(accepts, mid, g, id);
    StepKeepsInv(accepts, mid, Snapshot(g), id);
    QuietRunKeepsProgress(accepts, Apply(accepts, mid, Snapshot(g)), rest, g, id);
  }

  /** A settled agent runs the config if and only if the stored one is accepted; a deleted one needs no hypothesis on
      its history. */
  lemma SyncedAgentIsPresent(accepts: Acceptance, s: System, acts: seq<Action>, g: string, id: string)
    requires InvAt(accepts, s, id) && id !in s.writers && IsRun(accepts, s, acts)
    requires id in s.json ==> Places(accepts, g, History(s, id))
    requires g in Run(accepts, s, acts).agents && Settled(Run(accepts, s, acts), acts, g, id)
    ensures Get(Run(accepts, s, acts).json, id) == Get(s.json, id) && PresentAt(accepts, Run(accepts, s, acts), g, id)
  {
    var mid, rest := SyncStart(accepts, s, acts, g, id);
    SnapshotStartsPresence(accepts, mid, g, id);
    StepKeepsInv(accepts, mid, Snapshot(g), id);
    assert Get(mid.json, id) == Get(s.json, id) && History(mid, id) == History(s, id);
    QuietRunKeepsPresence(accepts, Apply(accepts, mid, Snapshot(g)), rest, g, id);
  }

  // ---------------------------------------------------------------- after a reconcile

  /** A run that ends without a write of the config under way; then a run with the steps of a reconcile on the
      config; then a period in which the config is not written. */
  datatype Episode = Episode(before: seq<Action>, publishing: seq<Action>, acts: seq<Action>)

  /** The store shows `db` at the beginning of the reconcile, whose steps are `steps`. */
  ghost predicate Happens(accepts: Acceptance, e: Episode, db: Store.Db, id: string, steps: seq<Action>) {
    && IsRun(accepts, INIT, e.before)
    && var s := Run(accepts, INIT, e.before);
       && Shows(db, ViewAt(s, id), id) && id !in s.writers
       && IsRun(accepts, s, e.publishing) && StepsOn(e.publishing, id) == steps
       && IsRun(accepts, Run(accepts, s, e.publishing), e.acts)
  }

  ghost function Reconciled(accepts: Acceptance, e: Episode, db: Store.Db, id: string, steps: seq<Action>): System
    requires Happens(accepts, e, db, id, steps)
  {
    Run(accepts, Run(accepts, INIT, e.before), e.publishing)
  }

  ghost function Final(accepts: Acceptance, e: Episode, db: Store.Db, id: string, steps: seq<Action>): System
    requires Happens(accepts, e, db, id, steps)
  {
    Run(accepts, Reconciled(accepts, e, db, id, steps), e.acts)
  }

  /** The agent has settled, and it accepts the current config or the history is safe for it. */
  ghost predicate SettledAgent(accepts: Acceptance, e: Episode, db: Store.Db, id: string, steps: seq<Action>, g: string)
    requires Happens(accepts, e, db, id, steps)
  {
    var s, t := Reconciled(accepts, e, db, id, steps), Final(accepts, e, db, id, steps);
    g in t.agents && Settled(t, e.acts, g, id) && (id in s.json ==> Places(accepts, g, History(s, id)))
  }

  ghost predicate AllSettled(accepts: Acceptance, e: Episode, db: Store.Db, id: string, steps: seq<Action>)
    requires Happens(accepts, e, db, id, steps)
  {
    forall g :: g in Final(accepts, e, db, id, steps).agents ==> SettledAgent(accepts, e, db, id, steps, g)
  }

  /** The agents that run a config. */
  function Running(t: System, id: string): set<string> {
    set g | g in t.agents && id in t.agents[g].cache
  }

  /** The decision is one the reconcile of the spec can take, and the version function separates its config from the
      stored one. */
  ghost predicate Publishes(m: Matcher, hash: Hash, spec: Spec, current: string,
                            active: Option<map<string, AgentConfig>>, d: Decision, db: Store.Db) {
    ValidDecision(m, hash, spec, current, active, d) && d.Publish? && d.config.version != "" && HashOk(hash, db, d)
  }

  /** After such a reconcile the system's store holds the decided config. */
  lemma ReconcileStoresDecision(m: Matcher, hash: Hash, spec: Spec, current: string,
                                active: Option<map<string, AgentConfig>>, d: Decision, accepts: Acceptance,
                                db: Store.Db, e: Episode)
    requires Publishes(m, hash, spec, current, active, d, db)
    requires Happens(accepts, e, db, Id(d.config), PublishSteps(db, current, d))
    ensures var t := Reconciled(accepts, e, db, Id(d.config), PublishSteps(db, current, d));
            Get(t.json, Id(d.config)) == Some(d.config) && Id(d.config) !in t.writers && InvAt(accepts, t, Id(d.config))
  {
    var s := Run(accepts, INIT, e.before);
    ReconcileIsSteps(accepts, s, e.publishing, db, current, spec.raw, d);
    PublishingStores(m, hash, spec, current, active, d, db);
    RunKeepsInv(accepts, INIT, e.before, Id(d.config));
    RunKeepsInv(accepts, s, e.publishing, Id(d.config));
  }

  /** After any reconcile, deployed or not, a settled agent runs the test if and only if its own configuration accepts
      the config as published. */
  lemma SettledAgentRunsIff(m: Matcher, hash: Hash, spec: Spec, current: string,
                            active: Option<map<string, AgentConfig>>, d: Decision, local: map<string, AgentConfig>,
                            db: Store.Db, e: Episode, g: string)
    requires Publishes(m, hash, spec, current, active, d, db)
    requires Happens(LocalAcceptance(m, local), e, db, Id(d.config), PublishSteps(db, current, d))
    requires SettledAgent(LocalAcceptance(m, local), e, db, Id(d.config), PublishSteps(db, current, d), g)
    ensures Id(d.config)
              in Final(LocalAcceptance(m, local), e, db, Id(d.config), PublishSteps(db, current, d)).agents[g].cache
       <==> g in local && Unanimous(m, local[g], g, Sel(d.config))
  {
    var accepts, id, steps := LocalAcceptance(m, local), Id(d.config), PublishSteps(db, current, d);
    ReconcileStoresDecision(m, hash, spec, current, active, d, accepts, db, e);
    SyncedAgentIsPresent(accepts, Reconciled(accepts, e, db, id, steps), e.acts, g, id);
    assert Get(Final(accepts, e, db, id, steps).json, id) == Some(d.config);
  }

  /** Once every agent has settled: the running set for every decision. */
  lemma RunningAgentsAccept(m: Matcher, hash: Hash, spec: Spec, current: string,
                            active: Option<map<string, AgentConfig>>, d: Decision, local: map<string, AgentConfig>,
                            db: Store.Db, e: Episode)
    requires Publishes(m, hash, spec, current, active, d, db)
    requires Happens(LocalAcceptance(m, local), e, db, Id(d.config), PublishSteps(db, current, d))
    requires AllSettled(LocalAcceptance(m, local), e, db, Id(d.config), PublishSteps(db, current, d))
    ensures var t := Final(LocalAcceptance(m, local), e, db, Id(d.config), PublishSteps(db, current, d));
            Running(t, Id(d.config)) == Accepting(m, local, t.agents.Keys, Sel(d.config))
  {
    var t := Final(LocalAcceptance(m, local), e, db, Id(d.config), PublishSteps(db, current, d));
    forall g | g in t.agents
      ensures Id(d.config) in t.agents[g].cache <==> g in local && Unanimous(m, local[g], g, Sel(d.config))
    {
      SettledAgentRunsIff(m, hash, spec, current, active, d, local, db, e, g);
    }
  }

  /** The agents whose own configuration accepts. */
  ghost function Accepting(m: Matcher, local: map<string, AgentConfig>, agents: set<string>, sel: Selector)
    : set<string>
  {
    set g | g in agents && g in local && Unanimous(m, local[g], g, sel)
  }

  /** A test without `$` runs exactly on the agents whose own configuration matches it, deployed or not. */
  lemma PlainTestRunsWhereItMatches(m: Matcher, hash: Hash, spec: Spec, current: string,
                                    active: Option<map<string, AgentConfig>>, d: Decision,
                                    local: map<string, AgentConfig>, db: Store.Db, e: Episode)
    requires Publishes(m, hash, spec, current, active, d, db) && !NeedsAgent(spec)
    requires Happens(LocalAcceptance(m, local), e, db, Id(d.config), PublishSteps(db, current, d))
    requires AllSettled(LocalAcceptance(m, local), e, db, Id(d.config), PublishSteps(db, current, d))
    ensures var t := Final(LocalAcceptance(m, local), e, db, Id(d.config), PublishSteps(db, current, d));
            Running(t, Id(d.config))
            == Accepting(m, local, t.agents.Keys, Selector(spec.namespace, spec.labels, spec.node, spec.pods))
  {
    RunningAgentsAccept(m, hash, spec, current, active, d, local, db, e);
  }

  /** A single-agent test that was not deployed runs nowhere. */
  lemma UndeployedRequestRunsNowhere(m: Matcher, hash: Hash, spec: Spec, current: string,
                                     active: Option<map<string, AgentConfig>>, d: Decision,
                                     local: map<string, AgentConfig>, db: Store.Db, e: Episode)
    requires Publishes(m, hash, spec, current, active, d, db) && NeedsAgent(spec) && !d.deployed
    requires ExtendsGlob(m) && Simple(spec.node) && forall g :: g in local ==> DollarFree(local[g])
    requires Happens(LocalAcceptance(m, local), e, db, Id(d.config), PublishSteps(db, current, d))
    requires AllSettled(LocalAcceptance(m, local), e, db, Id(d.config), PublishSteps(db, current, d))
    ensures var t := Final(LocalAcceptance(m, local), e, db, Id(d.config), PublishSteps(db, current, d));
            Running(t, Id(d.config)) == {}
  {
    RunningAgentsAccept(m, hash, spec, current, active, d, local, db, e);
    assert d.config == ConfigFor(hash, spec, spec.node, spec.pods);
    forall g | g in local ensures !Unanimous(m, local[g], g, Sel(d.config)) {
      UnresolvedRequestAcceptedByNone(m, hash, spec, g, local[g]);
    }
  }

  /** A deleted test runs nowhere, whatever was written before. */
  lemma DeletedTestRunsNowhere(accepts: Acceptance, db: Store.Db, id: string, e: Episode)
    requires Happens(accepts, e, db, id, DeleteSteps(id))
    requires var t := Final(accepts, e, db, id, DeleteSteps(id));
             forall g :: g in t.agents ==> Settled(t, e.acts, g, id)
    ensures Running(Final(accepts, e, db, id, DeleteSteps(id)), id) == {}
  {
    var s, t := Run(accepts, INIT, e.before), Final(accepts, e, db, id, DeleteSteps(id));
    DeletionIsSteps(accepts, s, e.publishing, db, id);
    RunKeepsInv(accepts, INIT, e.before, id);
    RunKeepsInv(accepts, s, e.publishing, id);
    forall g | g in t.agents ensures id !in t.agents[g].cache {
      SyncedAgentIsPresent(accepts, Reconciled(accepts, e, db, id, DeleteSteps(id)), e.acts, g, id);
      assert Get(t.json, id) == None;
    }
  }

  // ---------------------------------------------------------------- exactly one

  /** The decision assigns a single-agent test. */
  ghost predicate Deploys(m: Matcher, hash: Hash, spec: Spec, current: string, active: map<string, AgentConfig>,
                          d: Decision, db: Store.Db) {
    Publishes(m, hash, spec, current, Some(active), d, db) && d.deployed && NeedsAgent(spec)
  }

  /** The agent's own configuration meets the test's request. */
  ghost predicate Meets(m: Matcher, local: map<string, AgentConfig>, a: string, spec: Spec) {
    a in local && Unanimous(m, local[a], a, Request(spec))
  }

  /** Exactly-one placement, for every agent that has settled since the reconcile: it runs the test if and only if it
      is the chosen agent and its own configuration meets the request.  The configurations that the controller saw do
      not matter. */
  lemma ExactlyOnePlacement(m: Matcher, hash: Hash, spec: Spec, current: string, active: map<string, AgentConfig>,
                            d: Decision, local: map<string, AgentConfig>, db: Store.Db, e: Episode, g: string)
    requires Deploys(m, hash, spec, current, active, d, db)
    requires g in local ==> AGENT_ID_KEY !in local[g].podLabels
    requires Happens(LocalAcceptance(m, local), e, db, Id(d.config), PublishSteps(db, current, d))
    requires SettledAgent(LocalAcceptance(m, local), e, db, Id(d.config), PublishSteps(db, current, d), g)
    ensures Id(d.config)
              in Final(LocalAcceptance(m, local), e, db, Id(d.config), PublishSteps(db, current, d)).agents[g].cache
       <==> g == d.agent && Meets(m, local, g, spec)
  {
    SettledAgentRunsIff(m, hash, spec, current, Some(active), d, local, db, e, g);
    if g in local {
      OnlyChosenAgentAccepts(m, hash, spec, current, active, d, g, local[g]);
    }
  }

  /** So once every agent has settled, the agents that run the test are the chosen one if its own configuration meets
      the request, and none otherwise; in particular the chosen one if the controller saw its actual configuration. */
  lemma RunningAgentsAreTheChosenOne(m: Matcher, hash: Hash, spec: Spec, current: string,
                                     active: map<string, AgentConfig>, d: Decision, local: map<string, AgentConfig>,
                                     db: Store.Db, e: Episode)
    requires Deploys(m, hash, spec, current, active, d, db)
    requires forall g :: g in local ==> AGENT_ID_KEY !in local[g].podLabels
    requires Happens(LocalAcceptance(m, local), e, db, Id(d.config), PublishSteps(db, current, d))
    requires AllSettled(LocalAcceptance(m, local), e, db, Id(d.config), PublishSteps(db, current, d))
    ensures var t := Final(LocalAcceptance(m, local), e, db, Id(d.config), PublishSteps(db, current, d));
            var running := Running(t, Id(d.config));
            && running == (if d.agent in t.agents && Meets(m, local, d.agent, spec) then {d.agent} else {})
            && (d.agent in t.agents && Get(local, d.agent) == Get(active, d.agent) ==> running == {d.agent})
  {
    var t := Final(LocalAcceptance(m, local), e, db, Id(d.config), PublishSteps(db, current, d));
    forall g | g in t.agents
      ensures Id(d.config) in t.agents[g].cache <==> g == d.agent && Meets(m, local, d.agent, spec)
    {
      ExactlyOnePlacement(m, hash, spec, current, active, d, local, db, e, g);
    }
    RunningSet(t, Id(d.config), d.agent, Meets(m, local, d.agent, spec));
    ChosenAgentMeetsRequest(m, hash, spec, current, active, d);
  }

  lemma RunningSet(t: System, id: string, agent: string, meets: bool)
    requires forall g :: g in t.agents ==> (id in t.agents[g].cache <==> g == agent && meets)
    ensures Running(t, id) == if agent in t.agents && meets then {agent} else {}
  {
  }

  /** Placed right after a sync: the agent runs the stored test if and only if it is the chosen one and meets the
      request. */
  ghost predicate PlacedAt(m: Matcher, local: map<string, AgentConfig>, spec: Spec, d: Decision, t: System, g: string)
    requires d.Publish?
  {
    g in t.agents &&
    (t.agents[g].sync.Idle? ==>
      (Id(d.config) in t.agents[g].cache
       <==> Id(d.config) in t.json && g == d.agent && Meets(m, local, g, spec)))
  }

  /** The exact condition on the write history up to a deployed single-agent config: every quiet sync of the agent, in
      every run with these writes, places it rightly if and only if it is the chosen agent and meets the request, or
      the history is safe for it.  So the chosen agent needs no hypothesis, and every other one needs safety. */
  lemma OnePlacementIff(m: Matcher, hash: Hash, spec: Spec, current: string, active: map<string, AgentConfig>,
                        d: Decision, db: Store.Db, local: map<string, AgentConfig>, h: seq<TestConfig>, g: string)
    requires Deploys(m, hash, spec, current, active, d, db) && (g in local ==> AGENT_ID_KEY !in local[g].podLabels)
    requires h != [] && Last(h) == d.config && forall c :: c in h ==> Id(c) == Id(d.config)
    ensures (g == d.agent && Meets(m, local, g, spec)) || Safe(LocalAcceptance(m, local), g, h)
       <==> forall before, acts ::
              SyncsIn(LocalAcceptance(m, local), before, g, Id(d.config), acts)
              && History(Run(LocalAcceptance(m, local), INIT, before), Id(d.config)) == h
              ==> PlacedAt(m, local, spec, d, AfterSync(LocalAcceptance(m, local), before, g, Id(d.config), acts), g)
  {
    var accepts, id := LocalAcceptance(m, local), Id(d.config);
    AcceptsIff(m, hash, spec, current, active, d, db, local, g);
    if Places(accepts, g, h) {
      forall before, acts | SyncsIn(accepts, before, g, id, acts) && History(Run(accepts, INIT, before), id) == h
        ensures PlacedAt(m, local, spec, d, AfterSync(accepts, before, g, id, acts), g)
      {
        SyncPlaces(accepts, before, g, id, acts);
        StoredIsLast(accepts, before, g, id, acts);
      }
    } else {
      var before, acts := MisplacedSync(accepts, g, id, h);
      assert !PlacedAt(m, local, spec, d, AfterSync(accepts, before, g, id, acts), g);
    }
  }

  lemma AcceptsIff(m: Matcher, hash: Hash, spec: Spec, current: string, active: map<string, AgentConfig>,
                   d: Decision, db: Store.Db, local: map<string, AgentConfig>, g: string)
    requires Deploys(m, hash, spec, current, active, d, db) && (g in local ==> AGENT_ID_KEY !in local[g].podLabels)
    ensures LocalAcceptance(m, local)(g, d.config) <==> g == d.agent && Meets(m, local, g, spec)
  {
    if g in local {
      OnlyChosenAgentAccepts(m, hash, spec, current, active, d, g, local[g]);
    }
  }

  lemma StoredIsLast(accepts: Acceptance, before: seq<Action>, g: string, id: string, acts: seq<Action>)
    requires SyncsIn(accepts, before, g, id, acts)
    ensures var t, h := AfterSync(accepts, before, g, id, acts), History(Run(accepts, INIT, before), id);
            id in t.json ==> h != [] && t.json[id] == Last(h)
  {
    var s := Run(accepts, INIT, before);
    RunKeepsInv(accepts, INIT, before, id);
    OneStepView(accepts, s, Snapshot(g), id);
    var mid := Apply(accepts, s, Snapshot(g));
    assert Get(mid.writers, id) == None;
    QuietKeepsView(accepts, mid, acts, g, id);
    assert Get(AfterSync(accepts, before, g, id, acts).json, id) == Get(s.json, id);
  }

  // ---------------------------------------------------------------- what breaks it

  /** The configs that a run of reconciles writes. */
  function WrittenBy(db: Store.Db, current: string, raw: string, rounds: seq<Round>): seq<TestConfig>
    decreases |rounds|
  {
    if rounds == [] then []
    else
      var d := rounds[0].decision;
      (if d.Requeue? || UpToDate(db, current, d) then [] else [d.config])
      + WrittenBy(Published(db, current, raw, d), StatusAfter(current, d), raw, rounds[1..])
  }

  predicate DeployingRound(r: Round) {
    r.active.Some? && r.decision.Publish? && r.decision.deployed
  }

  /** Three successive reconciles of a single-agent test that assign it to one agent, to a second, and back. */
  ghost predicate MovesBack(m: Matcher, hash: Hash, spec: Spec, r1: Round, r2: Round, r3: Round) {
    && NeedsAgent(spec) && ValidRounds(m, hash, spec, "", [r1, r2, r3])
    && DeployingRound(r1) && DeployingRound(r2) && DeployingRound(r3)
    && r3.decision.agent == r1.decision.agent != r2.decision.agent && r1.decision.agent != ""
  }

  /** Whichever reconciles do it, their writes are an unsafe history for the second agent, and a run with exactly these
      writes ends with nothing under way, the store assigning the test to the first agent, and the second one still
      running it.  By Propagation.StaleForever it keeps running it until the config is written again. */
  lemma MovingBackBreaksPlacement(m: Matcher, hash: Hash, spec: Spec, cfg: AgentConfig, r1: Round, r2: Round, r3: Round,
                                  local: map<string, AgentConfig>) returns (acts: seq<Action>)
    requires MovesBack(m, hash, spec, r1, r2, r3) && AGENT_ID_KEY !in cfg.podLabels
    requires Get(local, r2.decision.agent) == Some(cfg) == Get(r2.active.value, r2.decision.agent)
    ensures var accepts, d, b := LocalAcceptance(m, local), r1.decision, r2.decision.agent;
            && WrittenBy(map[], "", spec.raw, [r1, r2, r3]) == [d.config, r2.decision.config, d.config]
            && IsRun(accepts, INIT, acts)
            && var s := Run(accepts, INIT, acts);
               && History(s, Id(d.config)) == WrittenBy(map[], "", spec.raw, [r1, r2, r3])
               && s.writers == map[] && StaleAt(s, b, Id(d.config)) && s.json[Id(d.config)] == d.config
  {
    var accepts, d1, d2 := LocalAcceptance(m, local), r1.decision, r2.decision;
    ThreeRounds(m, hash, spec, r1, r2, r3);
    assert accepts(d2.agent, d2.config) by {
      ChosenAgentMeetsRequest(m, hash, spec, d1.agent, r2.active.value, d2);
      OnlyChosenAgentAccepts(m, hash, spec, d1.agent, r2.active.value, d2, d2.agent, cfg);
    }
    acts := RecurringVersionBreaksAgreement(accepts, d2.agent, d1.config, d2.config);
  }

  lemma ThreeRounds(m: Matcher, hash: Hash, spec: Spec, r1: Round, r2: Round, r3: Round)
    requires MovesBack(m, hash, spec, r1, r2, r3)
    ensures var d1, d2 := r1.decision, r2.decision;
            && ValidDecision(m, hash, spec, d1.agent, r2.active, d2) && r3.decision == d1
            && d1.config != d2.config && Id(d1.config) == Id(d2.config)
            && WrittenBy(map[], "", spec.raw, [r1, r2, r3]) == [d1.config, d2.config, d1.config]
  {
    var d1, d2, d3 := r1.decision, r2.decision, r3.decision;
    assert [r1, r2, r3][1..] == [r2, r3] && [r2, r3][1..] == [r3] && [r3][1..] == [];
    assert ValidRounds(m, hash, spec, d1.agent, [r2, r3]);
    assert ValidRounds(m, hash, spec, d2.agent, [r3]);
    assert d1.config.pods[AGENT_ID_KEY] == d1.agent && d2.config.pods[AGENT_ID_KEY] == d2.agent;
    RoundsWrite(spec.raw, r1, r2, r3);
  }

  lemma RoundsWrite(raw: string, r1: Round, r2: Round, r3: Round)
    requires DeployingRound(r1) && DeployingRound(r2) && DeployingRound(r3) && r1.decision.agent != ""
    requires r3.decision.agent == r1.decision.agent != r2.decision.agent
    ensures WrittenBy(map[], "", raw, [r1, r2, r3]) == [r1.decision.config, r2.decision.config, r3.decision.config]
  {
    var d1, d2, d3 := r1.decision, r2.decision, r3.decision;
    assert [r1, r2, r3][1..] == [r2, r3] && [r2, r3][1..] == [r3] && [r3][1..] == [];
    var db1 := Published(map[], "", raw, d1);
    var db2 := Published(db1, d1.agent, raw, d2);
    assert WrittenBy(db2, d2.agent, raw, [r3]) == [d3.config];
    assert WrittenBy(db1, d1.agent, raw, [r2, r3]) == [d2.config] + [d3.config];
    assert WrittenBy(map[], "", raw, [r1, r2, r3]) == [d1.config] + ([d2.config] + [d3.config]);
  }

  /** Such reconciles happen for every single-agent test that two agents can run: the first leaves, then the second
      leaves (while its process still syncs) and the first returns. */
  lemma MovingBackHappens(m: Matcher, hash: Hash, spec: Spec, a: string, b: string, cfgA: AgentConfig,
                          cfgB: AgentConfig)
    requires NeedsAgent(spec) && !(NeedsNode(spec) && NeedsPod(spec)) && a != b && a != ""
    requires Unanimous(m, cfgA, a, SpecSel(spec)) && Unanimous(m, cfgB, b, SpecSel(spec))
    ensures var onA := Round(Some(map[a := cfgA]), DecisionFor(hash, spec, a));
            var onB := Round(Some(map[b := cfgB]), DecisionFor(hash, spec, b));
            MovesBack(m, hash, spec, onA, onB, onA)
  {
    var onA := Round(Some(map[a := cfgA]), DecisionFor(hash, spec, a));
    var onB := Round(Some(map[b := cfgB]), DecisionFor(hash, spec, b));
    OnlyChoice(m, hash, spec, "", a, cfgA);
    OnlyChoice(m, hash, spec, a, b, cfgB);
    OnlyChoice(m, hash, spec, b, a, cfgA);
    assert [onA, onB, onA][1..] == [onB, onA] && [onB, onA][1..] == [onA] && [onA][1..] == [];
    assert ValidRounds(m, hash, spec, a, []);
    assert ValidRounds(m, hash, spec, b, [onA]);
    assert ValidRounds(m, hash, spec, a, [onB, onA]);
  }

  function DecisionFor(hash: Hash, spec: Spec, a: string): Decision {
    Publish(ConfigFor(hash, spec, NodePattern(spec), PodPattern(spec)[AGENT_ID_KEY := a]), a, true)
  }

  /** A valid agent that is the only active one gets the test. */
  lemma OnlyChoice(m: Matcher, hash: Hash, spec: Spec, current: string, a: string, cfg: AgentConfig)
    requires NeedsAgent(spec) && !(NeedsNode(spec) && NeedsPod(spec)) && Unanimous(m, cfg, a, SpecSel(spec))
    ensures ValidDecision(m, hash, spec, current, Some(map[a := cfg]), DecisionFor(hash, spec, a))
  {
    assert ValidAgents(m, map[a := cfg], SpecSel(spec)) == {a};
  }

  /** Without the hypothesis on published configurations: a placeholder is a valid agent for a plain `$` test,
      so the test can be assigned to an agent that rejects it, and then no agent runs it. */
  lemma PlaceholderCanBeChosen(m: Matcher, hash: Hash, spec: Spec, current: string, g: string, cfg: AgentConfig)
    requires ExtendsGlob(m) && spec.node == "$" && spec.pods == map[]
    requires !NamespaceWatched(cfg, spec.namespace)
    ensures exists d: Decision ::
              && ValidDecision(m, hash, spec, current, Some(map[g := Store.PLACEHOLDER.config]), d)
              && d.Publish? && d.deployed && d.agent == g && !Unanimous(m, cfg, g, Sel(d.config))
  {
    var d := Publish(ConfigFor(hash, spec, "*", map[AGENT_ID_KEY := g]), g, true);
    var active := map[g := Store.PLACEHOLDER.config];
    assert NodePattern(spec) == "*" && PodPattern(spec) == map[];
    GlobStar("");
    assert Simple("*");
    assert m("*", "") == Yes;
    assert ValidAgents(m, active, SpecSel(spec)) == {g};
    assert PodPattern(spec)[AGENT_ID_KEY := g] == map[AGENT_ID_KEY := g];
    assert !Unanimous(m, cfg, g, Sel(d.config));
    assert ValidDecision(m, hash, spec, current, Some(active), d);
  }
}
