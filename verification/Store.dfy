/** common/storage/redis.go: the Redis key space and the multi-command operations on it.  The flat
    string keys are shown to behave like a typed map, and the "latest" and "last failed" keys to follow
    the history of operations. */
module Store {
  import opened Floats
  import opened Ids
  import opened TestConfigs
  import opened StateMaps
  import opened Summary
  import Validity

  datatype TestRun = TestRun(id: string, agentId: string, config: TestConfig, marks: nat, maxMarks: nat)

  datatype TestStatus = TestStatus(deployed: bool, agent: string)

  /** `statusTime` is None when the published time does not parse. */
  datatype AgentStatus = AgentStatus(synTests: seq<string>, statusTime: Option<int>, config: Validity.AgentConfig)

  /** The empty status the garbage collector registers for a pod that has not reported yet. */
  const PLACEHOLDER := AgentStatus([], None, Validity.AgentConfig(map[], map[], "", "", "", map[]))

  datatype Key =
    | LatestHealth(pluginId: string)
    | LastUnhealthy(pluginId: string)
    | LatestRun(pluginId: string)
    | LastFailedRun(pluginId: string)
    | ConfigJson(configId: string)
    | ConfigRaw(configId: string)
    | ConfigStatus(configId: string)
    | RunStatuses
    | PluginStatuses
    | ConfigSummary
    | AgentsAll

  datatype Field =
    | RatioF(ratio: Stored)
    | PluginF(status: Status)
    | VersionF(version: string)
    | AgentF(agent: AgentStatus)

  datatype Value =
    | RunV(run: TestRun)
    | StateV(state: PluginState)
    | ConfigV(config: TestConfig)
    | RawV(raw: string)
    | StatusV(status: TestStatus)
    | HashV(fields: map<string, Field>)

  function Format(k: Key): string {
    match k
    case LatestHealth(p) => "syntest-plugins/" + p + "/latestHealth"
    case LastUnhealthy(p) => "syntest-plugins/" + p + "/lastUnhealthy"
    case LatestRun(p) => "syntest-plugins/" + p + "/latestRun"
    case LastFailedRun(p) => "syntest-plugins/" + p + "/lastFailedRun"
    case ConfigJson(c) => "configs/syntest/" + c + "/json"
    case ConfigRaw(c) => "configs/syntest/" + c + "/raw"
    case ConfigStatus(c) => "configs/syntest/" + c + "/status"
    case RunStatuses => "syntest-plugins/all/testRunStatus"
    case PluginStatuses => "syntest-plugins/all/pluginStatus"
    case ConfigSummary => "configs/syntests/summary"
    case AgentsAll => "agents/all"
  }

  // ---------------------------------------------------------------- keys never collide

  /** Ordinal of a key's kind. */
  function Kind(k: Key): int {
    match k
    case LatestHealth(_) => 0
    case LastUnhealthy(_) => 1
    case LatestRun(_) => 2
    case LastFailedRun(_) => 3
    case ConfigJson(_) => 4
    case ConfigRaw(_) => 5
    case ConfigStatus(_) => 6
    case RunStatuses => 7
    case PluginStatuses => 8
    case ConfigSummary => 9
    case AgentsAll => 10
  }

  /** Reads the kind back from a formatted key: its first character and a few of its last ones. */
  function KindOf(s: string): int
    requires |s| >= 9
  {
    var n := |s|;
    if s[0] == 'a' then 10
    else if s[0] == 'c' then
      (if s[n - 1] == 'n' then 4 else if s[n - 1] == 'w' then 5 else if s[n - 1] == 's' then 6 else 9)
    else if s[n - 1] == 'h' then 0
    else if s[n - 1] == 'y' then 1
    else if s[n - 1] == 'n' then (if s[n - 4] == 't' then 2 else 3)
    else if s[n - 8] == 'u' then 7
    else 8
  }

  lemma KindIsReadable(k: Key)
    ensures |Format(k)| >= 9 && KindOf(Format(k)) == Kind(k)
  {
  }

  /** For arbitrary ids, without any hypothesis on their characters. */
  lemma FormattedKeysNeverCollide(k: Key, j: Key)
    ensures Format(k) == Format(j) <==> k == j
  {
    if Format(k) == Format(j) {
      KindIsReadable(k);
      KindIsReadable(j);
      match k {
        case LatestHealth(p) => Cancel("syntest-plugins/", p, j.pluginId, "/latestHealth");
        case LastUnhealthy(p) => Cancel("syntest-plugins/", p, j.pluginId, "/lastUnhealthy");
        case LatestRun(p) => Cancel("syntest-plugins/", p, j.pluginId, "/latestRun");
        case LastFailedRun(p) => Cancel("syntest-plugins/", p, j.pluginId, "/lastFailedRun");
        case ConfigJson(c) => Cancel("configs/syntest/", c, j.configId, "/json");
        case ConfigRaw(c) => Cancel("configs/syntest/", c, j.configId, "/raw");
        case ConfigStatus(c) => Cancel("configs/syntest/", c, j.configId, "/status");
        case _ =>
      }
    }
  }

  lemma Cancel(pre: string, x: string, y: string, post: string)
    requires pre + x + post == pre + y + post
    ensures x == y
  {
    assert |x| == |y|;
    assert x == (pre + x + post)[|pre|..|pre| + |x|];
    assert y == (pre + y + post)[|pre|..|pre| + |y|];
  }

  // ---------------------------------------------------------------- the typed store

  type Db = map<Key, Value>

  /** HGETALL: a missing hash reads as empty. */
  function Fields(db: Db, k: Key): map<string, Field> {
    if k in db && db[k].HashV? then db[k].fields else map[]
  }

  function HSet(db: Db, k: Key, f: string, v: Field): Db {
    db[k := HashV(Fields(db, k)[f := v])]
  }

  function HDel(db: Db, k: Key, f: string): Db {
    db[k := HashV(Fields(db, k) - {f})]
  }

  datatype Op =
    | WriteRun(pluginId: string, run: TestRun)
    | DeleteRuns(pluginId: string)
    | WriteHealth(pluginId: string, state: PluginState)
    | WriteConfig(config: TestConfig, raw: string)
    | DeleteConfig(configId: string)
    | WriteStatus(configId: string, status: TestStatus)
    | WriteAgent(agentId: string, agent: AgentStatus)
    | DeleteAgent(agentId: string)

  /** The commands of each operation, in the order the code issues them. */
  function Apply(db: Db, op: Op): Db {
    match op
    case WriteRun(p, run) =>
      var ratio := PassRatio(run.marks, run.maxMarks);
      var written := HSet(db[LatestRun(p) := RunV(run)], RunStatuses, p, RatioF(Format5(ratio)));
      if BelowOne(ratio) then written[LastFailedRun(p) := RunV(run)] else written
    case DeleteRuns(p) =>
      HDel(HDel(db, RunStatuses, p), PluginStatuses, p)
      - {LatestRun(p)} - {LastFailedRun(p)} - {LatestHealth(p)} - {LastUnhealthy(p)}
    case WriteHealth(p, st) =>
      var latest := db[LatestHealth(p) := StateV(st)];
      var written := if st.status != Running then latest[LastUnhealthy(p) := StateV(st)] else latest;
      HSet(written, PluginStatuses, p, PluginF(st.status))
    case WriteConfig(c, raw) =>
      var reset := db[ConfigRaw(Id(c)) := RawV(raw)][ConfigStatus(Id(c)) := StatusV(TestStatus(false, ""))];
      HSet(reset[ConfigJson(Id(c)) := ConfigV(c)], ConfigSummary, Id(c), VersionF(c.version))
    case DeleteConfig(id) => HDel(db - {ConfigRaw(id)} - {ConfigJson(id)} - {ConfigStatus(id)}, ConfigSummary, id)
    case WriteStatus(id, st) => db[ConfigStatus(id) := StatusV(st)]
    case WriteAgent(a, st) => HSet(db, AgentsAll, a, AgentF(st))
    case DeleteAgent(a) => HDel(db, AgentsAll, a)
  }

  function Replay(ops: seq<Op>): Db {
    if ops == [] then map[] else Apply(Replay(ops[..|ops| - 1]), ops[|ops| - 1])
  }

  // ---------------------------------------------------------------- history

  /** The runs of one plugin written since its last deletion, oldest first. */
  function RunsOf(ops: seq<Op>, p: string): seq<TestRun> {
    if ops == [] then []
    else
      var front := RunsOf(ops[..|ops| - 1], p);
      match ops[|ops| - 1]
      case WriteRun(q, run) => if q == p then front + [run] else front
      case DeleteRuns(q) => if q == p then [] else front
      case _ => front
  }

  function StatesOf(ops: seq<Op>, p: string): seq<PluginState> {
    if ops == [] then []
    else
      var front := StatesOf(ops[..|ops| - 1], p);
      match ops[|ops| - 1]
      case WriteHealth(q, st) => if q == p then front + [st] else front
      case DeleteRuns(q) => if q == p then [] else front
      case _ => front
  }

  /** The last element with a property. */
  function Last<T>(s: seq<T>, keep: T -> bool): Option<T> {
    if s == [] then None
    else if keep(s[|s| - 1]) then Some(s[|s| - 1])
    else Last(s[..|s| - 1], keep)
  }

  lemma {:induction false} LastMeaning<T>(s: seq<T>, keep: T -> bool)
    ensures Last(s, keep).None? <==> forall i :: 0 <= i < |s| ==> !keep(s[i])
    ensures forall x :: Last(s, keep) == Some(x) ==>
              exists i :: 0 <= i < |s| && s[i] == x && keep(x) && forall j :: i < j < |s| ==> !keep(s[j])
  {
    if s != [] && !keep(s[|s| - 1]) {
      LastMeaning(s[..|s| - 1], keep);
    }
  }

  predicate AnyRun(r: TestRun) { true }

  /** The float64 ratio is below one. */
  predicate FailedRun(r: TestRun) { BelowOne(PassRatio(r.marks, r.maxMarks)) }

  lemma FailedRunIff(r: TestRun)
    requires r.maxMarks < TWO53
    ensures FailedRun(r) <==> r.marks < r.maxMarks
  {
    LegacyStatusIsExact(r.marks, r.maxMarks);
  }

  predicate AnyState(st: PluginState) { true }

  predicate Unhealthy(st: PluginState) { st.status != Running }

  function RunValue(r: Option<TestRun>): Option<Value> {
    if r.Some? then Some(RunV(r.value)) else None
  }

  function StateValue(st: Option<PluginState>): Option<Value> {
    if st.Some? then Some(StateV(st.value)) else None
  }

  function Lookup(db: Db, k: Key): Option<Value> {
    if k in db then Some(db[k]) else None
  }

  function RatioText(r: TestRun): Field {
    RatioF(Format5(PassRatio(r.marks, r.maxMarks)))
  }

  /** The six places that mention a plugin. */
  datatype PluginView = PluginView(
    latestRun: Option<Value>, lastFailedRun: Option<Value>, latestHealth: Option<Value>, lastUnhealthy: Option<Value>,
    runStatus: Option<Field>, pluginStatus: Option<Field>)

  function ViewOf(db: Db, p: string): PluginView {
    PluginView(Lookup(db, LatestRun(p)), Lookup(db, LastFailedRun(p)),
               Lookup(db, LatestHealth(p)), Lookup(db, LastUnhealthy(p)),
               Get(Fields(db, RunStatuses), p), Get(Fields(db, PluginStatuses), p))
  }

  const NOTHING := PluginView(None, None, None, None, None, None)

  /** What they should hold after these runs and health reports. */
  ghost predicate Reflects(db: Db, p: string, runs: seq<TestRun>, states: seq<PluginState>) {
    ViewOf(db, p) == PluginView(
      RunValue(Last(runs, AnyRun)), RunValue(Last(runs, FailedRun)),
      StateValue(Last(states, AnyState)), StateValue(Last(states, Unhealthy)),
      if runs == [] then None else Some(RatioText(runs[|runs| - 1])),
      if states == [] then None else Some(PluginF(states[|states| - 1].status)))
  }

  lemma LastOfAppend<T>(s: seq<T>, x: T, keep: T -> bool)
    ensures Last(s + [x], keep) == if keep(x) then Some(x) else Last(s, keep)
  {
    assert (s + [x])[..|s|] == s;
  }

  lemma RunReflected(db: Db, p: string, run: TestRun, runs: seq<TestRun>, states: seq<PluginState>)
    requires Reflects(db, p, runs, states)
    ensures Reflects(Apply(db, WriteRun(p, run)), p, runs + [run], states)
  {
    LastOfAppend(runs, run, AnyRun);
    LastOfAppend(runs, run, FailedRun);
  }

  lemma HealthReflected(db: Db, p: string, state: PluginState, runs: seq<TestRun>, states: seq<PluginState>)
    requires Reflects(db, p, runs, states)
    ensures Reflects(Apply(db, WriteHealth(p, state)), p, runs, states + [state])
  {
    LastOfAppend(states, state, AnyState);
    LastOfAppend(states, state, Unhealthy);
  }

  predicate Concerns(op: Op, p: string) {
    (op.WriteRun? || op.WriteHealth? || op.DeleteRuns?) && op.pluginId == p
  }

  lemma OthersUntouched(db: Db, op: Op, p: string)
    requires !Concerns(op, p)
    ensures ViewOf(Apply(db, op), p) == ViewOf(db, p)
  {
    match op {
      case WriteRun(q, run) => RunIsLocal(db, q, run, p);
      case DeleteRuns(q) => DeletionIsLocal(db, q, p);
      case WriteHealth(q, state) => HealthIsLocal(db, q, state, p);
      case _ =>
    }
  }

  lemma RunIsLocal(db: Db, q: string, run: TestRun, p: string)
    requires q != p
    ensures ViewOf(Apply(db, WriteRun(q, run)), p) == ViewOf(db, p)
  {
  }

  lemma HealthIsLocal(db: Db, q: string, state: PluginState, p: string)
    requires q != p
    ensures ViewOf(Apply(db, WriteHealth(q, state)), p) == ViewOf(db, p)
  {
  }

  lemma DeletionIsLocal(db: Db, q: string, p: string)
    requires q != p
    ensures ViewOf(Apply(db, DeleteRuns(q)), p) == ViewOf(db, p)
  {
  }

  lemma DeletionClears(db: Db, q: string, p: string)
    ensures ViewOf(Apply(db, DeleteRuns(q)), p) == if p == q then NOTHING else ViewOf(db, p)
  {
    if p != q {
      DeletionIsLocal(db, q, p);
    }
  }

  lemma OpReflected(db: Db, op: Op, p: string, ops: seq<Op>)
    requires Reflects(db, p, RunsOf(ops, p), StatesOf(ops, p))
    ensures Reflects(Apply(db, op), p, RunsOf(ops + [op], p), StatesOf(ops + [op], p))
  {
    var runs, states := RunsOf(ops, p), StatesOf(ops, p);
    assert (ops + [op])[..|ops|] == ops;
    if !Concerns(op, p) {
      OthersUntouched(db, op, p);
    } else if op.WriteRun? {
      RunReflected(db, p, op.run, runs, states);
    } else if op.WriteHealth? {
      HealthReflected(db, p, op.state, runs, states);
    }
  }

  /** For every sequence of operations and every plugin: since its last deletion, `latestRun` is the last
      run, `lastFailedRun` the last run with marks below the maximum, `latestHealth` the last health
      report, `lastUnhealthy` the last one that was not running, and the two status hashes agree. */
  lemma {:induction false} KeysFollowHistory(ops: seq<Op>, p: string)
    ensures Reflects(Replay(ops), p, RunsOf(ops, p), StatesOf(ops, p))
  {
    if ops != [] {
      var front, op := ops[..|ops| - 1], ops[|ops| - 1];
      KeysFollowHistory(front, p);
      OpReflected(Replay(front), op, p, front);
      assert front + [op] == ops;
    }
  }

  /** Run `i` scored below its maximum and every later one did not. */
  ghost predicate LastBelowMaximum(runs: seq<TestRun>, i: nat)
    requires i < |runs|
  {
    runs[i].marks < runs[i].maxMarks && forall j :: i < j < |runs| ==> runs[j].marks >= runs[j].maxMarks
  }

  /** `lastFailedRun` holds the last run that scored below its maximum, and nothing if there is none. */
  lemma LastFailedMeaning(ops: seq<Op>, p: string, runs: seq<TestRun>)
    requires runs == RunsOf(ops, p) && forall i :: 0 <= i < |runs| ==> runs[i].maxMarks < TWO53
    ensures match Lookup(Replay(ops), LastFailedRun(p))
            case Some(v) => exists i :: 0 <= i < |runs| && v == RunV(runs[i]) && LastBelowMaximum(runs, i)
            case None => forall i :: 0 <= i < |runs| ==> runs[i].marks >= runs[i].maxMarks
  {
    KeysFollowHistory(ops, p);
    forall i | 0 <= i < |runs| ensures FailedRun(runs[i]) <==> runs[i].marks < runs[i].maxMarks {
      FailedRunIff(runs[i]);
    }
    LastMeaning(runs, FailedRun);
    var last := Last(runs, FailedRun);
    if last.Some? {
      var i :| 0 <= i < |runs| && runs[i] == last.value && FailedRun(runs[i])
               && forall j :: i < j < |runs| ==> !FailedRun(runs[j]);
      assert LastBelowMaximum(runs, i);
    }
  }

  /** Report `i` is not `running` and every later one is. */
  ghost predicate LastNotRunning(states: seq<PluginState>, i: nat)
    requires i < |states|
  {
    states[i].status != Running && forall j :: i < j < |states| ==> states[j].status == Running
  }

  /** `lastUnhealthy` holds the last report that was not `running`, and nothing if there is none. */
  lemma LastUnhealthyMeaning(ops: seq<Op>, p: string, states: seq<PluginState>)
    requires states == StatesOf(ops, p)
    ensures match Lookup(Replay(ops), LastUnhealthy(p))
            case Some(v) => exists i :: 0 <= i < |states| && v == StateV(states[i]) && LastNotRunning(states, i)
            case None => forall i :: 0 <= i < |states| ==> states[i].status == Running
  {
    KeysFollowHistory(ops, p);
    LastMeaning(states, Unhealthy);
    var last := Last(states, Unhealthy);
    if last.Some? {
      var i :| 0 <= i < |states| && states[i] == last.value && Unhealthy(states[i])
               && forall j :: i < j < |states| ==> !Unhealthy(states[j]);
      assert LastNotRunning(states, i);
    }
  }

  // ---------------------------------------------------------------- the flat key space

  /** The flat key space holds exactly the typed entries, under their formatted keys. */
  ghost predicate Refines(keyspace: map<string, Value>, db: Db) {
    forall k: Key :: (Format(k) in keyspace <==> k in db) && (k in db ==> keyspace[Format(k)] == db[k])
  }

  class RedisStore {
    var keyspace: map<string, Value>
    ghost var db: Db

    ghost predicate Valid()
      reads this
    {
      Refines(keyspace, db)
    }

    constructor ()
      ensures Valid() && db == map[]
    {
      keyspace, db := map[], map[];
    }

    method SetR(k: Key, v: Value)
      requires Valid()
      modifies this
      ensures Valid() && db == old(db)[k := v]
    {
      keyspace := keyspace[Format(k) := v];
      db := db[k := v];
      forall j: Key ensures Format(j) == Format(k) <==> j == k {
        FormattedKeysNeverCollide(j, k);
      }
    }

    method DelR(k: Key)
      requires Valid()
      modifies this
      ensures Valid() && db == old(db) - {k}
    {
      keyspace := keyspace - {Format(k)};
      db := db - {k};
      forall j: Key ensures Format(j) == Format(k) <==> j == k {
        FormattedKeysNeverCollide(j, k);
      }
    }

    method GetR(k: Key) returns (v: Option<Value>)
      requires Valid()
      ensures v == Lookup(db, k)
    {
      if Format(k) in keyspace {
        return Some(keyspace[Format(k)]);
      }
      return None;
    }

    method HGetAllR(k: Key) returns (fields: map<string, Field>)
      requires Valid()
      ensures fields == Fields(db, k)
    {
      if Format(k) in keyspace && keyspace[Format(k)].HashV? {
        return keyspace[Format(k)].fields;
      }
      return map[];
    }

    method HSetR(k: Key, f: string, v: Field)
      requires Valid()
      modifies this
      ensures Valid() && db == HSet(old(db), k, f, v)
    {
      var fields := HGetAllR(k);
      SetR(k, HashV(fields[f := v]));
    }

    method HDelR(k: Key, f: string)
      requires Valid()
      modifies this
      ensures Valid() && db == HDel(old(db), k, f)
    {
      var fields := HGetAllR(k);
      SetR(k, HashV(fields - {f}));
    }

    method WriteTestRun(pluginId: string, run: TestRun)
      requires Valid()
      modifies this
      ensures Valid() && db == Apply(old(db), WriteRun(pluginId, run))
    {
      SetR(LatestRun(pluginId), RunV(run));
      var passRatio := PassRatio(run.marks, run.maxMarks);
      HSetR(RunStatuses, pluginId, RatioF(Format5(passRatio)));
      if BelowOne(passRatio) {
        SetR(LastFailedRun(pluginId), RunV(run));
      }
    }

    method DeleteAllTestRunInfo(pluginId: string)
      requires Valid()
      modifies this
      ensures Valid() && db == Apply(old(db), DeleteRuns(pluginId))
    {
      HDelR(RunStatuses, pluginId);
      HDelR(PluginStatuses, pluginId);
      DelR(LatestRun(pluginId));
      DelR(LastFailedRun(pluginId));
      DelR(LatestHealth(pluginId));
      DelR(LastUnhealthy(pluginId));
    }

    method WritePluginHealthStatus(pluginId: string, state: PluginState)
      requires Valid()
      modifies this
      ensures Valid() && db == Apply(old(db), WriteHealth(pluginId, state))
      ensures Lookup(db, LatestHealth(pluginId)) == Some(StateV(state))
      ensures Lookup(db, LastUnhealthy(pluginId))
           == if state.status == Running then Lookup(old(db), LastUnhealthy(pluginId)) else Some(StateV(state))
    {
      SetR(LatestHealth(pluginId), StateV(state));
      if state.status != Running {
        SetR(LastUnhealthy(pluginId), StateV(state));
      }
      HSetR(PluginStatuses, pluginId, PluginF(state.status));
    }

    method WriteTestConfig(config: TestConfig, raw: string)
      requires Valid()
      modifies this
      ensures Valid() && db == Apply(old(db), WriteConfig(config, raw))
    {
      var configId := Id(config);
      SetR(ConfigRaw(configId), RawV(raw));
      WriteTestConfigStatus(configId, TestStatus(false, ""));
      SetR(ConfigJson(configId), ConfigV(config));
      HSetR(ConfigSummary, configId, VersionF(config.version));
    }

    method DeleteTestConfig(configId: string)
      requires Valid()
      modifies this
      ensures Valid() && db == Apply(old(db), DeleteConfig(configId))
    {
      DelR(ConfigRaw(configId));
      DelR(ConfigJson(configId));
      DelR(ConfigStatus(configId));
      HDelR(ConfigSummary, configId);
    }

    method WriteTestConfigStatus(configId: string, status: TestStatus)
      requires Valid()
      modifies this
      ensures Valid() && db == Apply(old(db), WriteStatus(configId, status))
    {
      SetR(ConfigStatus(configId), StatusV(status));
    }

    method FetchTestConfig(configId: string) returns (config: Option<TestConfig>)
      requires Valid()
      ensures config == StoredConfig(db, configId)
    {
      var v := GetR(ConfigJson(configId));
      if v.Some? && v.value.ConfigV? {
        return Some(v.value.config);
      }
      return None;
    }

    method WriteAgentStatus(agentId: string, status: AgentStatus)
      requires Valid()
      modifies this
      ensures Valid() && db == Apply(old(db), WriteAgent(agentId, status))
    {
      HSetR(AgentsAll, agentId, AgentF(status));
    }

    method DeleteAgentStatus(agentId: string)
      requires Valid()
      modifies this
      ensures Valid() && db == Apply(old(db), DeleteAgent(agentId))
    {
      HDelR(AgentsAll, agentId);
    }
  }

  function StoredConfig(db: Db, configId: string): Option<TestConfig> {
    var k := ConfigJson(configId);
    if k in db && db[k].ConfigV? then Some(db[k].config) else None
  }

  /** The version the summary gives for a config. */
  function SummaryVersion(db: Db, configId: string): Option<string> {
    var entry := Get(Fields(db, ConfigSummary), configId);
    if entry.Some? && entry.value.VersionF? then Some(entry.value.version) else None
  }

  /** What the service reads from the run-status hash for a run just written is classified as its marks are, and
      counts as failing exactly if they are below the maximum. */
  lemma StoredRatioIsClassified(db: Db, p: string, run: TestRun)
    requires run.marks <= run.maxMarks && FiveDecimalsSuffice(run.maxMarks)
    ensures var f := Get(Fields(Apply(db, WriteRun(p, run)), RunStatuses), p);
            && f.Some? && f.value.RatioF?
            && LegacyStatus(Parse(f.value.ratio)) == ExactStatus(run.marks, run.maxMarks)
            && (BelowOne(Parse(f.value.ratio)) <==> run.marks < run.maxMarks)
  {
    FiveDecimalsAgree(run.marks, run.maxMarks);
  }

  /** A config write touches its own three keys and its own summary field, and makes exactly that config
      fetchable, with its text and a reset status; deletion removes exactly them. */
  lemma ConfigRoundTrip(db: Db, c: TestConfig, raw: string)
    ensures var written := Apply(db, WriteConfig(c, raw));
            && StoredConfig(written, Id(c)) == Some(c)
            && Get(Fields(written, ConfigSummary), Id(c)) == Some(VersionF(c.version))
            && Lookup(written, ConfigRaw(Id(c))) == Some(RawV(raw))
            && Lookup(written, ConfigStatus(Id(c))) == Some(StatusV(TestStatus(false, "")))
            && (forall id :: id != Id(c) ==> StoredConfig(written, id) == StoredConfig(db, id))
            && (forall id :: id != Id(c) ==>
                  Get(Fields(written, ConfigSummary), id) == Get(Fields(db, ConfigSummary), id))
            && Fields(written, AgentsAll) == Fields(db, AgentsAll)
            && Fields(written, RunStatuses) == Fields(db, RunStatuses)
    ensures var gone := Apply(Apply(db, WriteConfig(c, raw)), DeleteConfig(Id(c)));
            && StoredConfig(gone, Id(c)) == None && Id(c) !in Fields(gone, ConfigSummary)
            && Lookup(gone, ConfigRaw(Id(c))) == None && Lookup(gone, ConfigStatus(Id(c))) == None
            && (forall id :: id != Id(c) ==> StoredConfig(gone, id) == StoredConfig(db, id))
  {
    var written := Apply(db, WriteConfig(c, raw));
    assert written[ConfigJson(Id(c))] == ConfigV(c);
    assert Fields(written, ConfigSummary) == Fields(db, ConfigSummary)[Id(c) := VersionF(c.version)];
  }
}
