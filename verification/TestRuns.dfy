/** From a plugin's answer to the store: performTest, runTest and testPlugin of
    agent/pluginmanager/syntest.go, the gRPC pairing of result and error in common/syntestGrpcWrapper.go, and
    the exporter of agent/pluginmanager/storage.go. */
module TestRuns {
  import opened Ids
  import opened TestConfigs
  import opened StateMaps
  import opened Store
  import opened Summary
  import opened Broadcasters
  import opened PluginClients
  import Gc
  import PluginManagers

  /** What comes back over gRPC; an error carries no result. */
  datatype Rpc = RpcError | RpcOk(result: TestResult)

  /** The select of performTest: the context ended first, or the plugin answered. */
  datatype Event = ContextDone | Answered(rpc: Rpc)

  /** SynTestPluginGRPCClient.PerformTest. */
  function ClientResult(rpc: Rpc): (TestResult, bool) {
    match rpc
    case RpcError => (FAILED, true)
    case RpcOk(result) => (result, false)
  }

  method AskPlugin(event: Event) returns (res: TestResult, err: bool)
    ensures err <==> event == ContextDone || event == Answered(RpcError)
    ensures err ==> res == TestResult(0, 1)
    ensures !err ==> event == Answered(RpcOk(res))
  {
    res := FAILED;
    match event {
      case ContextDone => err := true;
      case Answered(rpc) =>
        var pair := ClientResult(rpc);
        res, err := pair.0, pair.1;
    }
  }

  /** One run: exactly one publication, carrying this agent's id, and failing whenever it ended in an error.  With a
      full publish channel the send blocks, and nothing is published yet. */
  method RunTest(bus: Broadcaster<TestRun>, id: string, agentId: string, config: TestConfig, event: Event)
    returns (blocked: bool, err: bool, ghost run: TestRun)
    requires bus.Valid()
    modifies bus
    ensures bus.Valid() && (blocked <==> |old(bus.publishes)| >= PUBLISH_CAPACITY)
    ensures bus.published == old(bus.published) + (if blocked then [] else [run])
    ensures bus.publishes == old(bus.publishes) + (if blocked then [] else [run])
    ensures run.agentId == agentId && run.config == config && run.id == id
    ensures err <==> event == ContextDone || event == Answered(RpcError)
    ensures err ==> FailedRun(run)
    ensures !err ==> event == Answered(RpcOk(TestResult(run.marks, run.maxMarks)))
  {
    var res;
    res, err := AskPlugin(event);
    NothingOfOneFails();
    var t := TestRun(id, agentId, config, res.marks, res.maxMarks);
    run := t;
    blocked := |bus.publishes| >= PUBLISH_CAPACITY;
    if !blocked {
      bus.PublishTestRun(t);
    }
  }

  /** testPlugin: a plugin that cannot be reached or initialised ends in an error without a run. */
  method TestPlugin(bus: Broadcaster<TestRun>, id: string, agentId: string, config: TestConfig, connected: bool,
                    initialised: bool, event: Event)
    returns (blocked: bool, err: bool)
    requires bus.Valid()
    modifies bus
    ensures bus.Valid() && old(bus.published) <= bus.published
    ensures blocked <==> connected && initialised && |old(bus.publishes)| >= PUBLISH_CAPACITY
    ensures |bus.published| == |old(bus.published)| + if connected && initialised && !blocked then 1 else 0
    ensures !(connected && initialised) ==> err
    ensures connected && initialised && !blocked && err ==> FailedRun(bus.published[|old(bus.published)|])
  {
    blocked, err := false, true;
    if connected && initialised {
      ghost var run;
      blocked, err, run := RunTest(bus, id, agentId, config, event);
    }
  }

  // ---------------------------------------------------------------- exporter

  /** The id under which the plugin manager knows the plugin of a run. */
  function RunPluginId(run: TestRun): string {
    PluginManagers.PluginIdOf(run.config, run.agentId)
  }

  /** The store operations for a received stream: runs of other agents are skipped. */
  function ExportOps(stream: seq<TestRun>, agentId: string): seq<Op> {
    if stream == [] then []
    else
      var run := stream[|stream| - 1];
      ExportOps(stream[..|stream| - 1], agentId)
      + if run.agentId == agentId then [WriteRun(RunPluginId(run), run)] else []
  }

  function ApplyAll(db: Db, ops: seq<Op>): Db {
    if ops == [] then db else Store.Apply(ApplyAll(db, ops[..|ops| - 1]), ops[|ops| - 1])
  }

  /** One more received run. */
  lemma ExportOne(db: Db, stream: seq<TestRun>, run: TestRun, agentId: string)
    ensures var front := ApplyAll(db, ExportOps(stream, agentId));
            ApplyAll(db, ExportOps(stream + [run], agentId))
            == if run.agentId == agentId then Store.Apply(front, WriteRun(RunPluginId(run), run)) else front
  {
    assert (stream + [run])[..|stream|] == stream;
    var ops, op := ExportOps(stream, agentId), WriteRun(RunPluginId(run), run);
    assert (ops + [op])[..|ops|] == ops && ops + [] == ops;
  }

  method ExportTestRuns(store: RedisStore, agentId: string, stream: seq<TestRun>)
    requires store.Valid()
    modifies store
    ensures store.Valid() && store.db == ApplyAll(old(store.db), ExportOps(stream, agentId))
  {
    for i := 0 to |stream|
      invariant store.Valid() && store.db == ApplyAll(old(store.db), ExportOps(stream[..i], agentId))
    {
      ExportOne(old(store.db), stream[..i], stream[i], agentId);
      assert stream[..i + 1] == stream[..i] + [stream[i]];
      if stream[i].agentId != agentId {
        continue;
      }
      store.WriteTestRun(RunPluginId(stream[i]), stream[i]);
    }
    assert stream[..|stream|] == stream;
  }

  /** The runs of one plugin in a stream, as this agent exports them. */
  function RunsIn(stream: seq<TestRun>, agentId: string, p: string): seq<TestRun> {
    if stream == [] then []
    else
      var run := stream[|stream| - 1];
      RunsIn(stream[..|stream| - 1], agentId, p) + if run.agentId == agentId && RunPluginId(run) == p then [run] else []
  }

  lemma OneRunReflected(db: Db, run: TestRun, agentId: string, p: string, runs: seq<TestRun>, states: seq<PluginState>)
    requires Reflects(db, p, runs, states)
    ensures Reflects(if run.agentId == agentId then Store.Apply(db, WriteRun(RunPluginId(run), run)) else db,
                     p, runs + (if run.agentId == agentId && RunPluginId(run) == p then [run] else []), states)
  {
    assert runs + [] == runs;
    if run.agentId == agentId {
      if RunPluginId(run) == p {
        RunReflected(db, p, run, runs, states);
      } else {
        OthersUntouched(db, WriteRun(RunPluginId(run), run), p);
      }
    }
  }

  /** From a store without runs of the plugin, the exporter leaves the keys that the exported history demands. */
  lemma {:induction false} ExportReflected(db: Db, stream: seq<TestRun>, agentId: string, p: string,
                                           states: seq<PluginState>)
    requires Reflects(db, p, [], states)
    ensures Reflects(ApplyAll(db, ExportOps(stream, agentId)), p, RunsIn(stream, agentId, p), states)
  {
    if stream != [] {
      var front, run := stream[..|stream| - 1], stream[|stream| - 1];
      assert front + [run] == stream;
      ExportReflected(db, front, agentId, p, states);
      ExportOne(db, front, run, agentId);
      OneRunReflected(ApplyAll(db, ExportOps(front, agentId)), run, agentId, p, RunsIn(front, agentId, p), states);
    }
  }

  /** A run that ended in an error or a timeout, once consumed by the exporter of its own agent, is both the
      latest and the last failed run of its plugin, whatever the store held before and whatever is consumed
      later, until a further run of that plugin is consumed. */
  lemma {:induction false} ErroredRunIsLatestAndLastFailed(db: Db, stream: seq<TestRun>, run: TestRun,
                                                           later: seq<TestRun>)
    requires FailedRun(run)
    requires forall i :: 0 <= i < |later| && later[i].agentId == run.agentId ==>
               RunPluginId(later[i]) != RunPluginId(run)
    ensures var after := ApplyAll(db, ExportOps(stream + [run] + later, run.agentId));
            var p := PluginId(run.config.name, run.config.namespace, run.agentId);
            && Store.Lookup(after, LatestRun(p)) == Some(RunV(run))
            && Store.Lookup(after, LastFailedRun(p)) == Some(RunV(run))
    decreases |later|
  {
    if later == [] {
      assert stream + [run] + later == stream + [run];
      ExportOne(db, stream, run, run.agentId);
    } else {
      var front, last := later[..|later| - 1], later[|later| - 1];
      ErroredRunIsLatestAndLastFailed(db, stream, run, front);
      assert stream + [run] + later == (stream + [run] + front) + [last];
      ExportOne(db, stream + [run] + front, last, run.agentId);
      if last.agentId == run.agentId {
        var mid := ApplyAll(db, ExportOps(stream + [run] + front, run.agentId));
        OthersUntouched(mid, WriteRun(RunPluginId(last), last), RunPluginId(run));
      }
    }
  }

  // ---------------------------------------------------------------- data of a stopped test

  /** A write of the plugin's data without a deletion after it. */
  ghost predicate Leftover(ops: seq<Op>, p: string) {
    exists i :: 0 <= i < |ops| && (ops[i].WriteRun? || ops[i].WriteHealth?) && ops[i].pluginId == p
                && forall j :: i < j < |ops| ==> ops[j] != DeleteRuns(p)
  }

  lemma {:induction false} LeftoverMeaning(ops: seq<Op>, p: string)
    ensures Leftover(ops, p) <==> RunsOf(ops, p) != [] || StatesOf(ops, p) != []
  {
    if ops != [] {
      var n := |ops| - 1;
      var front, op := ops[..n], ops[n];
      LeftoverMeaning(front, p);
      if Leftover(front, p) && op != DeleteRuns(p) {
        var i :| 0 <= i < n && (front[i].WriteRun? || front[i].WriteHealth?) && front[i].pluginId == p
                 && forall j :: i < j < n ==> front[j] != DeleteRuns(p);
        assert ops[i] == front[i] && forall j :: i < j < |ops| ==> ops[j] != DeleteRuns(p);
      }
      if Leftover(ops, p) {
        var i :| 0 <= i < |ops| && (ops[i].WriteRun? || ops[i].WriteHealth?) && ops[i].pluginId == p
                 && forall j :: i < j < |ops| ==> ops[j] != DeleteRuns(p);
        if i < n {
          assert front[i] == ops[i] && forall j :: i < j < n ==> front[j] == ops[j];
        }
      }
    }
  }

  lemma {:induction false} LaterReflected(db: Db, p: string, ops: seq<Op>)
    ensures Reflects(ApplyAll(Store.Apply(db, DeleteRuns(p)), ops), p, RunsOf(ops, p), StatesOf(ops, p))
  {
    if ops == [] {
      DeletionClears(db, p, p);
    } else {
      var front, op := ops[..|ops| - 1], ops[|ops| - 1];
      LaterReflected(db, p, front);
      assert front + [op] == ops;
      OpReflected(ApplyAll(Store.Apply(db, DeleteRuns(p)), front), op, p, front);
    }
  }

  /** Stopping a test deletes its data, but the exporters write to the same store.  Whatever operations follow the
      deletion, some data of the test is back exactly if one of them writes it and none deletes it after that. */
  lemma StoppedDataReappearsIff(db: Db, p: string, ops: seq<Op>)
    ensures ViewOf(ApplyAll(Store.Apply(db, DeleteRuns(p)), ops), p) != NOTHING <==> Leftover(ops, p)
  {
    LaterReflected(db, p, ops);
    LeftoverMeaning(ops, p);
    ReflectsNothing(ApplyAll(Store.Apply(db, DeleteRuns(p)), ops), p, RunsOf(ops, p), StatesOf(ops, p));
  }

  lemma ReflectsNothing(db: Db, p: string, runs: seq<TestRun>, states: seq<PluginState>)
    requires Reflects(db, p, runs, states)
    ensures ViewOf(db, p) == NOTHING <==> runs == [] && states == []
  {
  }

  lemma {:induction false} RunsInMeaning(stream: seq<TestRun>, agentId: string, p: string)
    ensures RunsIn(stream, agentId, p) != []
       <==> exists i :: 0 <= i < |stream| && stream[i].agentId == agentId && RunPluginId(stream[i]) == p
  {
    if stream != [] {
      RunsInMeaning(stream[..|stream| - 1], agentId, p);
    }
  }

  /** So a run that is still queued for the exporter when its test is stopped comes back. */
  lemma QueuedRunReappearsIff(db: Db, p: string, queued: seq<TestRun>, agentId: string)
    ensures ViewOf(ApplyAll(Store.Apply(db, DeleteRuns(p)), ExportOps(queued, agentId)), p) != NOTHING
       <==> exists i :: 0 <= i < |queued| && queued[i].agentId == agentId
                        && PluginId(queued[i].config.name, queued[i].config.namespace, agentId) == p
  {
    DeletionClears(db, p, p);
    var after := ApplyAll(Store.Apply(db, DeleteRuns(p)), ExportOps(queued, agentId));
    ExportReflected(Store.Apply(db, DeleteRuns(p)), queued, agentId, p, []);
    ReflectsNothing(after, p, RunsIn(queued, agentId, p), []);
    RunsInMeaning(queued, agentId, p);
  }

  /** Stopping a config on an agent removes exactly what the exporter wrote for runs of that config on that agent: for
      every run with proper names, whatever was exported before. */
  lemma StopRemovesExported(db: Db, stream: seq<TestRun>, agentId: string, c: TestConfig, run: TestRun)
    requires PluginManagers.ProperNames(c) && PluginManagers.ProperNames(run.config) && run.agentId == agentId
    ensures var exported := ApplyAll(db, ExportOps(stream, agentId));
            var stopped := Store.Apply(exported, DeleteRuns(PluginManagers.PluginIdOf(c, agentId)));
            var p := PluginId(run.config.name, run.config.namespace, agentId);
            ViewOf(stopped, p) == if Id(run.config) == Id(c) then NOTHING else ViewOf(exported, p)
  {
    var exported := ApplyAll(db, ExportOps(stream, agentId));
    DeletionClears(exported, PluginManagers.PluginIdOf(c, agentId), PluginManagers.PluginIdOf(run.config, agentId));
    PluginManagers.DistinctPluginIds(run.config, c, agentId);
  }

  /** The collector reads an exported entry as the run's own agent and test. */
  lemma ExportedEntryIsStaleIff(run: TestRun, podName: string, podNs: string, active: map<string, AgentStatus>)
    requires PluginManagers.ProperNames(run.config) && SlashFree(podName) && SlashFree(podNs)
    requires run.agentId == AgentId(podName, podNs)
    ensures Gc.Stale(active, RunPluginId(run))
       <==> !(run.agentId in active && Id(run.config) in active[run.agentId].synTests)
  {
    PluginIdRoundTrip(run.config.name, run.config.namespace, podName, podNs);
  }

  // ---------------------------------------------------------------- from publication to the store

  lemma {:induction false} DeliveredAt(offers: seq<Offer<TestRun>>, i: nat)
    requires i < |offers| && offers[i].delivered
    ensures |Delivered(offers[..i])| < |Delivered(offers)|
    ensures Delivered(offers)[|Delivered(offers[..i])|] == offers[i].item
  {
    var n := |offers| - 1;
    if i < n {
      DeliveredAt(offers[..n], i);
      assert offers[..n][..i] == offers[..i];
    }
  }

  lemma {:induction false} ExportedAt(stream: seq<TestRun>, agentId: string, j: nat)
    requires j < |stream| && stream[j].agentId == agentId
    ensures WriteRun(RunPluginId(stream[j]), stream[j]) in ExportOps(stream, agentId)
  {
    if j < |stream| - 1 {
      ExportedAt(stream[..|stream| - 1], agentId, j);
    }
  }

  /** No later run of the plugin in the stream. */
  ghost predicate NoneLater(stream: seq<TestRun>, at: nat, run: TestRun) {
    forall j :: at < j < |stream| && stream[j].agentId == run.agentId ==> RunPluginId(stream[j]) != RunPluginId(run)
  }

  /** A received run of this agent is written; a failed one is the latest and the last failed run of its plugin unless a
      later run of the plugin was received as well. */
  ghost predicate StoredAt(db: Db, stream: seq<TestRun>, at: nat)
    requires at < |stream|
  {
    var run := stream[at];
    var p := PluginId(run.config.name, run.config.namespace, run.agentId);
    var after := ApplyAll(db, ExportOps(stream, run.agentId));
    && WriteRun(p, run) in ExportOps(stream, run.agentId)
    && (FailedRun(run) && NoneLater(stream, at, run) ==>
        && Store.Lookup(after, LatestRun(p)) == Some(RunV(run))
        && Store.Lookup(after, LastFailedRun(p)) == Some(RunV(run)))
  }

  lemma ReceivedIsStored(db: Db, stream: seq<TestRun>, at: nat)
    requires at < |stream|
    ensures StoredAt(db, stream, at)
  {
    var run := stream[at];
    ExportedAt(stream, run.agentId, at);
    if FailedRun(run) && NoneLater(stream, at, run) {
      var front, later := stream[..at], stream[at + 1..];
      assert front + [run] + later == stream;
      forall i | 0 <= i < |later| && later[i].agentId == run.agentId ensures RunPluginId(later[i]) != RunPluginId(run) {
        assert later[i] == stream[at + 1 + i];
      }
      ErroredRunIsLatestAndLastFailed(db, front, run, later);
    }
  }

  /** The offer was dropped at a full queue, or the run waits in the queue, or it was received and is stored. */
  ghost predicate Accounted(db: Db, c: Channel<TestRun>, i: nat)
    requires i < |c.offers|
  {
    var at := |Delivered(c.offers[..i])|;
    if !c.offers[i].delivered then c.offers[i].occupancy == c.capacity
    else if at < |c.received| then c.received[at] == c.offers[i].item && StoredAt(db, c.received, at)
    else at - |c.received| < |c.queue| && c.queue[at - |c.received|] == c.offers[i].item
  }

  lemma OfferAccounted(db: Db, c: Channel<TestRun>, processed: seq<TestRun>, subscribed: bool, pending: bool, i: nat)
    requires ChannelOk(c, processed, subscribed, pending) && i < |c.offers|
    ensures Accounted(db, c, i)
  {
    if c.offers[i].delivered {
      DeliveredAt(c.offers, i);
      var at := |Delivered(c.offers[..i])|;
      assert Stream(c)[at] == c.offers[i].item;
      if at < |c.received| {
        ReceivedIsStored(db, c.received, at);
      }
    }
  }

  /** For every schedule of publishers, listeners and the loop, every run processed while the exporter is subscribed is
      accounted for. */
  lemma PublishedRunIsStoredOrDropped(acts: seq<Broadcasters.Action<TestRun>>, ch: nat, db: Db, i: nat)
    requires Broadcasters.IsRun(Empty(), acts) && ch in Broadcasters.Run(Empty(), acts).channels
    requires i < |Broadcasters.Run(Empty(), acts).channels[ch].offers|
    ensures var b := Broadcasters.Run(Empty(), acts);
            var c := b.channels[ch];
            && c.since + i < |b.processed| && c.offers[i].item == b.processed[c.since + i]
            && Accounted(db, c, i)
  {
    var b := Broadcasters.Run(Empty(), acts);
    assert ChannelInv(b, ch) by {
      Broadcasters.RunKeepsInv(Empty(), acts);
    }
    OfferAccounted(db, b.channels[ch], b.processed, ch in b.subscribed, ch in b.subscribes, i);
  }
}
