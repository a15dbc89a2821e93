/** agent/pluginmanager/state.go: the plugin states of one agent, shared between the sync loop, the
    plugin goroutines and the health exporter.  The mutex makes every method one atomic step. */
module StateMaps {
  import opened Ids
  import Validity

  datatype Status = NotRunning | Running | Errored | Restarting | Unknown

  /** `backOff` is the wait before the next restart in nanoseconds (RestartBackOff). */
  datatype PluginState = PluginState(status: Status, restarts: int, totalRestarts: int, backOff: int)

  /** The config id GetAgentStatus reports for a plugin-state key; a malformed key yields the id of
      two empty names. */
  function ReportedId(pluginId: string): string {
    match PluginIdComponents(pluginId)
    case Some(c) => ConfigId(c.testName, c.testNs)
    case None => ConfigId("", "")
  }

  class StateMap {
    var states: map<string, PluginState>

    constructor ()
      ensures states == map[]
    {
      states := map[];
    }

    method SetPluginState(id: string, state: PluginState)
      modifies this
      ensures states == old(states)[id := state]
    {
      states := states[id := state];
    }

    method GetPluginState(id: string) returns (state: Option<PluginState>)
      ensures state == if id in states then Some(states[id]) else None
    {
      if id in states {
        return Some(states[id]);
      }
      return None;
    }

    method DeletePluginState(id: string)
      modifies this
      ensures states == old(states) - {id}
    {
      states := states - {id};
    }

    /** The SynTests list of the published agent status: one reported id per key, in some order. */
    method GetAgentStatus() returns (synTests: seq<string>, ghost order: seq<string>)
      ensures Validity.Enumerates(order, states.Keys)
      ensures |synTests| == |order| && forall i :: 0 <= i < |order| ==> synTests[i] == ReportedId(order[i])
    {
      synTests, order := [], [];
      var rest := states.Keys;
      while rest != {}
        invariant rest <= states.Keys
        invariant Validity.Enumerates(order, states.Keys - rest)
        invariant |synTests| == |order| && forall i :: 0 <= i < |order| ==> synTests[i] == ReportedId(order[i])
        decreases rest
      {
        var k :| k in rest;
        var id := ConfigId("", "");
        match PluginIdComponents(k) {
          case Some(c) => id := ConfigId(c.testName, c.testNs);
          case None =>
        }
        synTests := synTests + [id];
        order := order + [k];
        rest := rest - {k};
      }
      assert states.Keys - rest == states.Keys;
    }

    method GetAllPluginState() returns (copy: map<string, PluginState>)
      ensures copy == states
    {
      copy := map[];
      var rest := states.Keys;
      while rest != {}
        invariant rest <= states.Keys
        invariant copy.Keys == states.Keys - rest
        invariant forall k :: k in copy ==> k in states && copy[k] == states[k]
        decreases rest
      {
        var k :| k in rest;
        copy := copy[k := states[k]];
        rest := rest - {k};
      }
    }
  }
}
