/** The typed store of common/storage/redis.go and the interleaved system of Propagation are the same store: each
    Redis command of a config write or deletion is one step or none, and a reconcile is its steps. */
module Publication {
  import opened Ids
  import opened TestConfigs
  import opened Propagation
  import opened Reconciler
  import Store

  /** The store holds what the system's view of the config says. */
  predicate Shows(db: Store.Db, v: ConfigView, id: string) {
    v.json == Store.StoredConfig(db, id) && v.summary == Store.SummaryVersion(db, id)
  }

  /** The four commands of WriteTestConfig, seen from any config: raw text and status are no steps, the json key is
      SetJson, the summary field is SetSummary. */
  lemma WriteCommandsAreSteps(db: Store.Db, c: TestConfig, raw: string, status: Store.TestStatus, id: string,
                              v: ConfigView)
    requires Shows(db, v, id)
    ensures var d1 := db[Store.ConfigRaw(Id(c)) := Store.RawV(raw)];
            var d2 := d1[Store.ConfigStatus(Id(c)) := Store.StatusV(status)];
            var d3 := d2[Store.ConfigJson(Id(c)) := Store.ConfigV(c)];
            var d4 := Store.HSet(d3, Store.ConfigSummary, Id(c), Store.VersionF(c.version));
            && (status == Store.TestStatus(false, "") ==> d4 == Store.Apply(db, Store.WriteConfig(c, raw)))
            && Shows(d1, v, id) && Shows(d2, v, id)
            && Shows(d3, if Id(c) == id then StepView(v, SetJson(c)) else v, id)
            && Shows(d4, if Id(c) == id then StepView(StepView(v, SetJson(c)), SetSummary(id)) else v, id)
  {
  }

  /** The four commands of DeleteTestConfig likewise. */
  lemma DeleteCommandsAreSteps(db: Store.Db, c: string, id: string, v: ConfigView)
    requires Shows(db, v, id)
    ensures var d1 := db - {Store.ConfigRaw(c)};
            var d2 := d1 - {Store.ConfigJson(c)};
            var d3 := d2 - {Store.ConfigStatus(c)};
            var d4 := Store.HDel(d3, Store.ConfigSummary, c);
            && d4 == Store.Apply(db, Store.DeleteConfig(c))
            && Shows(d1, v, id)
            && Shows(d2, if c == id then StepView(v, DelJson(c)) else v, id)
            && Shows(d3, if c == id then StepView(v, DelJson(c)) else v, id)
            && Shows(d4, if c == id then StepView(StepView(v, DelJson(c)), DelSummary(c)) else v, id)
  {
  }

  /** No other operation of the store is a step. */
  lemma OtherOperationsAreNoSteps(db: Store.Db, op: Store.Op, id: string, v: ConfigView)
    requires Shows(db, v, id) && !op.WriteConfig? && !op.DeleteConfig?
    ensures Shows(Store.Apply(db, op), v, id)
  {
  }

  /** The steps of a reconcile on its config. */
  function PublishSteps(db: Store.Db, current: string, d: Decision): seq<Action> {
    if d.Requeue? || UpToDate(db, current, d) then [] else [SetJson(d.config), SetSummary(Id(d.config))]
  }

  /** The steps of the reconcile of a resource that no longer exists. */
  function DeleteSteps(id: string): seq<Action> {
    [DelJson(id), DelSummary(id)]
  }

  lemma TwoStepsView(v: ConfigView, a: Action, b: Action)
    ensures ViewAfter(v, [a, b]) == StepView(StepView(v, a), b)
  {
    assert [a, b][1..] == [b] && [b][1..] == [];
    assert ViewAfter(StepView(v, a), [b]) == ViewAfter(StepView(StepView(v, a), b), [b][1..]);
  }

  /** What a reconcile leaves in the store is what its steps leave. */
  lemma PublishedShows(db: Store.Db, current: string, raw: string, d: Decision, v: ConfigView)
    requires d.Publish? && Shows(db, v, Id(d.config))
    ensures Shows(Published(db, current, raw, d), ViewAfter(v, PublishSteps(db, current, d)), Id(d.config))
  {
    var id, written := Id(d.config), db;
    if !UpToDate(db, current, d) {
      WriteCommandsAreSteps(db, d.config, raw, Store.TestStatus(false, ""), id, v);
      TwoStepsView(v, SetJson(d.config), SetSummary(id));
      written := Store.Apply(db, Store.WriteConfig(d.config, raw));
    }
    var status := Store.WriteStatus(id, Store.TestStatus(d.deployed, d.agent));
    OtherOperationsAreNoSteps(written, status, id, ViewAfter(v, PublishSteps(db, current, d)));
  }

  /** A run whose steps on the config are those of a reconcile, interleaved with anything else, leaves the store
      that the reconcile leaves. */
  lemma ReconcileIsSteps(accepts: Acceptance, s: System, acts: seq<Action>, db: Store.Db, current: string, raw: string,
                         d: Decision)
    requires d.Publish? && IsRun(accepts, s, acts)
    requires Shows(db, ViewAt(s, Id(d.config)), Id(d.config)) && Id(d.config) !in s.writers
    requires StepsOn(acts, Id(d.config)) == PublishSteps(db, current, d)
    ensures var t := Run(accepts, s, acts);
            var id := Id(d.config);
            && Shows(Published(db, current, raw, d), ViewAt(t, id), id) && id !in t.writers
            && History(t, id) == History(s, id) + if UpToDate(db, current, d) then [] else [d.config]
  {
    var id, v := Id(d.config), ViewAt(s, Id(d.config));
    RunView(accepts, s, acts, id);
    PublishedShows(db, current, raw, d, v);
    TwoStepsView(v, SetJson(d.config), SetSummary(id));
    assert Get(Run(accepts, s, acts).writers, id) == None;
  }

  /** The same for a resource that no longer exists: its config is gone from the store. */
  lemma DeletionIsSteps(accepts: Acceptance, s: System, acts: seq<Action>, db: Store.Db, id: string)
    requires IsRun(accepts, s, acts) && Shows(db, ViewAt(s, id), id) && StepsOn(acts, id) == DeleteSteps(id)
    ensures var t := Run(accepts, s, acts);
            && Shows(Store.Apply(db, Store.DeleteConfig(id)), ViewAt(t, id), id) && id !in t.writers
            && id !in t.json && id !in t.summary
  {
    var v := ViewAt(s, id);
    RunView(accepts, s, acts, id);
    DeleteCommandsAreSteps(db, id, id, v);
    TwoStepsView(v, DelJson(id), DelSummary(id));
    var w := ViewAt(Run(accepts, s, acts), id);
    assert w.writer == None && w.json == None && w.summary == None;
  }
}
