/** IsAgentValidForSynTest of common/helpers.go, the placement predicate that the controller and
    every agent evaluate.  The pattern matcher (filepath.Match) is a parameter: any total function
    that answers yes, no or "malformed pattern". */
module Validity {

  datatype Match = Yes | No | Bad

  type Matcher = (string, string) -> Match

  datatype AgentConfig = AgentConfig(
    matchNamespaces: map<string, bool>,
    matchLabels: map<string, string>,
    nodeName: string,
    podName: string,
    agentNamespace: string,
    podLabels: map<string, string>)

  /** The fields of a test config that placement looks at. */
  datatype Selector = Selector(testNs: string, labels: map<string, string>, node: string, pods: map<string, string>)

  datatype Verdict = Accept | Reject | Error

  const AGENT_ID_KEY := "$agentId"
  const AGENT_NS_KEY := "$agentNamespace"
  const POD_NAME_KEY := "$podName"

  /** An empty namespace set watches every namespace. */
  predicate NamespaceWatched(cfg: AgentConfig, testNs: string) {
    |cfg.matchNamespaces| > 0 ==> testNs in cfg.matchNamespaces && cfg.matchNamespaces[testNs]
  }

  /** Go map lookup: a missing key reads as the empty string. */
  function LabelOf(m: map<string, string>, k: string): string {
    if k in m then m[k] else ""
  }

  predicate LabelsMatch(cfg: AgentConfig, labels: map<string, string>) {
    forall k :: k in cfg.matchLabels ==> LabelOf(labels, k) == cfg.matchLabels[k]
  }

  function NodeVerdict(m: Matcher, cfg: AgentConfig, node: string): Verdict {
    if node == "" then Accept
    else match m(node, cfg.nodeName)
      case Yes => Accept
      case No => Reject
      case Bad => Error
  }

  /** One iteration of the pod-label-selector loop, with its fall-through from the special keys to
      the ordinary label comparison. */
  function EntryVerdict(m: Matcher, cfg: AgentConfig, agentId: string, k: string, v: string): Verdict {
    if k == AGENT_ID_KEY && v == agentId then Accept
    else if k == AGENT_NS_KEY && m(v, cfg.agentNamespace) == Bad then Error
    else if k == AGENT_NS_KEY && m(v, cfg.agentNamespace) == Yes then Accept
    else if k == POD_NAME_KEY && m(v, cfg.podName) == Bad then Error
    else if k == POD_NAME_KEY && m(v, cfg.podName) == Yes then Accept
    else if k !in cfg.podLabels then Reject
    else match m(v, cfg.podLabels[k])
      case Yes => Accept
      case No => Reject
      case Bad => Error
  }

  /** Every stage and every selector entry accepts. */
  ghost predicate Unanimous(m: Matcher, cfg: AgentConfig, agentId: string, sel: Selector) {
    && NamespaceWatched(cfg, sel.testNs)
    && NodeVerdict(m, cfg, sel.node) == Accept
    && LabelsMatch(cfg, sel.labels)
    && forall k :: k in sel.pods ==> EntryVerdict(m, cfg, agentId, k, sel.pods[k]) == Accept
  }

  /** Declarative reading of one selector entry. */
  predicate EntryHolds(m: Matcher, cfg: AgentConfig, agentId: string, k: string, v: string) {
    || (k == AGENT_ID_KEY && v == agentId)
    || (k == AGENT_NS_KEY && m(v, cfg.agentNamespace) == Yes)
    || (k == POD_NAME_KEY && m(v, cfg.podName) == Yes)
    || (k in cfg.podLabels && m(v, cfg.podLabels[k]) == Yes)
  }

  ghost predicate Matches(m: Matcher, cfg: AgentConfig, agentId: string, sel: Selector) {
    && (cfg.matchNamespaces == map[] || (sel.testNs in cfg.matchNamespaces && cfg.matchNamespaces[sel.testNs]))
    && (sel.node == "" || m(sel.node, cfg.nodeName) == Yes)
    && (forall k :: k in cfg.matchLabels ==> LabelOf(sel.labels, k) == cfg.matchLabels[k])
    && (forall k :: k in sel.pods ==> EntryHolds(m, cfg, agentId, k, sel.pods[k]))
  }

  /** No pattern this agent may be asked to match is malformed. */
  ghost predicate WellFormed(m: Matcher, cfg: AgentConfig, sel: Selector) {
    && m(sel.node, cfg.nodeName) != Bad
    && forall k :: k in sel.pods ==>
         && m(sel.pods[k], cfg.agentNamespace) != Bad
         && m(sel.pods[k], cfg.podName) != Bad
         && (k in cfg.podLabels ==> m(sel.pods[k], cfg.podLabels[k]) != Bad)
  }

  /** The code's loop for one iteration order of the selector map. */
  function SelectorVerdict(m: Matcher, cfg: AgentConfig, agentId: string, pods: map<string, string>,
                           order: seq<string>): Verdict
    requires forall i :: 0 <= i < |order| ==> order[i] in pods
  {
    if order == [] then Accept
    else
      var v := EntryVerdict(m, cfg, agentId, order[0], pods[order[0]]);
      if v == Accept then SelectorVerdict(m, cfg, agentId, pods, order[1..]) else v
  }

  /** `order` lists each key once. */
  ghost predicate Enumerates(order: seq<string>, keys: set<string>) {
    && (forall i :: 0 <= i < |order| ==> order[i] in keys)
    && (forall k :: k in keys ==> k in order)
    && (forall i, j :: 0 <= i < j < |order| ==> order[i] != order[j])
  }

  function VerdictInOrder(m: Matcher, cfg: AgentConfig, agentId: string, sel: Selector, order: seq<string>): Verdict
    requires forall i :: 0 <= i < |order| ==> order[i] in sel.pods
  {
    if !NamespaceWatched(cfg, sel.testNs) then Reject
    else if NodeVerdict(m, cfg, sel.node) != Accept then NodeVerdict(m, cfg, sel.node)
    else if !LabelsMatch(cfg, sel.labels) then Reject
    else SelectorVerdict(m, cfg, agentId, sel.pods, order)
  }

  /** When no pattern is malformed, the code's branching is the declarative conjunction. */
  lemma UnanimousIsDeclarative(m: Matcher, cfg: AgentConfig, agentId: string, sel: Selector)
    ensures WellFormed(m, cfg, sel) ==> (Unanimous(m, cfg, agentId, sel) <==> Matches(m, cfg, agentId, sel))
  {
    assert |cfg.matchNamespaces| == 0 <==> cfg.matchNamespaces == map[];
    if WellFormed(m, cfg, sel) {
      forall k | k in sel.pods
        ensures EntryVerdict(m, cfg, agentId, k, sel.pods[k]) == Accept <==> EntryHolds(m, cfg, agentId, k, sel.pods[k])
      {
      }
    }
  }

  lemma {:induction false} SelectorVerdictAccepts(m: Matcher, cfg: AgentConfig, agentId: string,
                                                  pods: map<string, string>, order: seq<string>)
    requires forall i :: 0 <= i < |order| ==> order[i] in pods
    ensures SelectorVerdict(m, cfg, agentId, pods, order) == Accept
       <==> forall i :: 0 <= i < |order| ==> EntryVerdict(m, cfg, agentId, order[i], pods[order[i]]) == Accept
  {
    if order != [] {
      SelectorVerdictAccepts(m, cfg, agentId, pods, order[1..]);
      assert forall i :: 1 <= i < |order| ==> order[i] == order[1..][i - 1];
    }
  }

  /** Accepted under one iteration order if and only if accepted under every order. */
  lemma AcceptanceIgnoresOrder(m: Matcher, cfg: AgentConfig, agentId: string, sel: Selector, order: seq<string>)
    requires Enumerates(order, sel.pods.Keys)
    ensures VerdictInOrder(m, cfg, agentId, sel, order) == Accept <==> Unanimous(m, cfg, agentId, sel)
  {
    SelectorVerdictAccepts(m, cfg, agentId, sel.pods, order);
    if VerdictInOrder(m, cfg, agentId, sel, order) == Accept {
      forall k | k in sel.pods ensures EntryVerdict(m, cfg, agentId, k, sel.pods[k]) == Accept {
        var i :| 0 <= i < |order| && order[i] == k;
      }
    }
  }

  /** The stages before the pod-label selector all pass. */
  ghost predicate ReachesSelector(m: Matcher, cfg: AgentConfig, sel: Selector) {
    NamespaceWatched(cfg, sel.testNs) && NodeVerdict(m, cfg, sel.node) == Accept && LabelsMatch(cfg, sel.labels)
  }

  ghost predicate SomeEntry(m: Matcher, cfg: AgentConfig, agentId: string, pods: map<string, string>, v: Verdict) {
    exists k :: k in pods && EntryVerdict(m, cfg, agentId, k, pods[k]) == v
  }

  /** A malformed and a mismatching entry, where both can decide. */
  ghost predicate Conflict(m: Matcher, cfg: AgentConfig, agentId: string, sel: Selector) {
    && ReachesSelector(m, cfg, sel)
    && SomeEntry(m, cfg, agentId, sel.pods, Reject)
    && SomeEntry(m, cfg, agentId, sel.pods, Error)
  }

  /** Rejection and error are not interchangeable for the controller (an error requeues without a
      status update).  Which of the two comes out depends on the iteration order exactly when one
      entry is malformed and another one mismatches. */
  lemma VerdictIgnoresOrderIff(m: Matcher, cfg: AgentConfig, agentId: string, sel: Selector)
    ensures (forall o1, o2 :: Enumerates(o1, sel.pods.Keys) && Enumerates(o2, sel.pods.Keys) ==>
               VerdictInOrder(m, cfg, agentId, sel, o1) == VerdictInOrder(m, cfg, agentId, sel, o2))
       <==> !Conflict(m, cfg, agentId, sel)
  {
    if Conflict(m, cfg, agentId, sel) {
      var o1 := OrderFor(m, cfg, agentId, sel, Reject);
      var o2 := OrderFor(m, cfg, agentId, sel, Error);
      assert VerdictInOrder(m, cfg, agentId, sel, o1) != VerdictInOrder(m, cfg, agentId, sel, o2);
    } else {
      forall o1, o2 | Enumerates(o1, sel.pods.Keys) && Enumerates(o2, sel.pods.Keys)
        ensures VerdictInOrder(m, cfg, agentId, sel, o1) == VerdictInOrder(m, cfg, agentId, sel, o2)
      {
        OneVerdict(m, cfg, agentId, sel, o1, o2);
      }
    }
  }

  /** Any verdict that some entry has comes out when that entry is looked at first. */
  lemma OrderFor(m: Matcher, cfg: AgentConfig, agentId: string, sel: Selector, v: Verdict) returns (order: seq<string>)
    requires v != Accept && ReachesSelector(m, cfg, sel) && SomeEntry(m, cfg, agentId, sel.pods, v)
    ensures Enumerates(order, sel.pods.Keys) && VerdictInOrder(m, cfg, agentId, sel, order) == v
  {
    var k :| k in sel.pods && EntryVerdict(m, cfg, agentId, k, sel.pods[k]) == v;
    order := [k] + Listing(sel.pods.Keys - {k});
    assert order[0] == k;
  }

  lemma OneVerdict(m: Matcher, cfg: AgentConfig, agentId: string, sel: Selector, o1: seq<string>, o2: seq<string>)
    requires Enumerates(o1, sel.pods.Keys) && Enumerates(o2, sel.pods.Keys) && !Conflict(m, cfg, agentId, sel)
    ensures VerdictInOrder(m, cfg, agentId, sel, o1) == VerdictInOrder(m, cfg, agentId, sel, o2)
  {
    AcceptanceIgnoresOrder(m, cfg, agentId, sel, o1);
    AcceptanceIgnoresOrder(m, cfg, agentId, sel, o2);
    SelectorVerdictHasWitness(m, cfg, agentId, sel.pods, o1);
    SelectorVerdictHasWitness(m, cfg, agentId, sel.pods, o2);
  }

  lemma {:induction false} SelectorVerdictHasWitness(m: Matcher, cfg: AgentConfig, agentId: string,
                                                     pods: map<string, string>, order: seq<string>)
    requires forall i :: 0 <= i < |order| ==> order[i] in pods
    ensures var v := SelectorVerdict(m, cfg, agentId, pods, order); v == Accept || SomeEntry(m, cfg, agentId, pods, v)
  {
    if order != [] {
      SelectorVerdictHasWitness(m, cfg, agentId, pods, order[1..]);
    }
  }

  ghost function Listing(keys: set<string>): (order: seq<string>)
    ensures Enumerates(order, keys)
  {
    if keys == {} then []
    else
      var k :| k in keys;
      [k] + Listing(keys - {k})
  }

  /** A new selector key adds its own condition and nothing else, so it can only shrink the set of
      accepting agents. */
  lemma NewSelectorKeyShrinks(m: Matcher, cfg: AgentConfig, agentId: string, sel: Selector, k: string, v: string)
    requires k !in sel.pods
    ensures Unanimous(m, cfg, agentId, sel.(pods := sel.pods[k := v]))
       <==> Unanimous(m, cfg, agentId, sel) && EntryVerdict(m, cfg, agentId, k, v) == Accept
  {
    var wider := sel.pods[k := v];
    assert wider[k] == v;
    assert forall j :: j in sel.pods ==> j in wider && wider[j] == sel.pods[j];
  }

  // ---------------------------------------------------------------- the code

  /** Entries that accept do not decide. */
  lemma {:induction false} AcceptedPrefix(m: Matcher, cfg: AgentConfig, agentId: string, pods: map<string, string>,
                                          front: seq<string>, tail: seq<string>)
    requires forall i :: 0 <= i < |front| ==>
               front[i] in pods && EntryVerdict(m, cfg, agentId, front[i], pods[front[i]]) == Accept
    requires forall i :: 0 <= i < |tail| ==> tail[i] in pods
    ensures SelectorVerdict(m, cfg, agentId, pods, front + tail) == SelectorVerdict(m, cfg, agentId, pods, tail)
  {
    if front == [] {
      assert front + tail == tail;
    } else {
      AcceptedPrefix(m, cfg, agentId, pods, front[1..], tail);
      assert (front + tail)[1..] == front[1..] + tail;
    }
  }

  /** The pattern of the entry is malformed where the code gets to match it. */
  predicate MalformedEntry(m: Matcher, cfg: AgentConfig, agentId: string, k: string, v: string) {
    || (k == "$agentNamespace" && m(v, cfg.agentNamespace) == Bad)
    || (k == "$podName" && m(v, cfg.podName) == Bad)
    || (k in cfg.podLabels && m(v, cfg.podLabels[k]) == Bad && !(k == "$agentId" && v == agentId)
        && !(k == "$agentNamespace" && m(v, cfg.agentNamespace) == Yes)
        && !(k == "$podName" && m(v, cfg.podName) == Yes))
  }

  lemma {:induction false} SelectorErrorIff(m: Matcher, cfg: AgentConfig, agentId: string, pods: map<string, string>,
                                            order: seq<string>)
    requires forall i :: 0 <= i < |order| ==> order[i] in pods
    ensures SelectorVerdict(m, cfg, agentId, pods, order) == Error
       <==> exists i :: 0 <= i < |order| && MalformedEntry(m, cfg, agentId, order[i], pods[order[i]])
                        && forall j :: 0 <= j < i ==> EntryVerdict(m, cfg, agentId, order[j], pods[order[j]]) == Accept
  {
    if order != [] {
      var tail := order[1..];
      SelectorErrorIff(m, cfg, agentId, pods, tail);
      assert forall i :: 0 <= i < |tail| ==> tail[i] == order[i + 1];
      if SelectorVerdict(m, cfg, agentId, pods, order) == Error {
        if EntryVerdict(m, cfg, agentId, order[0], pods[order[0]]) == Accept {
          var i :| 0 <= i < |tail| && MalformedEntry(m, cfg, agentId, tail[i], pods[tail[i]])
                   && forall j :: 0 <= j < i ==> EntryVerdict(m, cfg, agentId, tail[j], pods[tail[j]]) == Accept;
          assert MalformedEntry(m, cfg, agentId, order[i + 1], pods[order[i + 1]]);
        } else {
          assert MalformedEntry(m, cfg, agentId, order[0], pods[order[0]]);
        }
      }
      forall i | 0 <= i < |order| && MalformedEntry(m, cfg, agentId, order[i], pods[order[i]])
                 && forall j :: 0 <= j < i ==> EntryVerdict(m, cfg, agentId, order[j], pods[order[j]]) == Accept
        ensures SelectorVerdict(m, cfg, agentId, pods, order) == Error
      {
        if i > 0 {
          assert EntryVerdict(m, cfg, agentId, order[0], pods[order[0]]) == Accept;
          assert MalformedEntry(m, cfg, agentId, tail[i - 1], pods[tail[i - 1]]);
        }
      }
    }
  }

  /** An error rather than a rejection comes out exactly when the first stage that does not pass is a malformed
      pattern: the node selector's, or that of the first selector entry that does not accept. */
  lemma ErrorIff(m: Matcher, cfg: AgentConfig, agentId: string, sel: Selector, order: seq<string>)
    requires Enumerates(order, sel.pods.Keys)
    ensures VerdictInOrder(m, cfg, agentId, sel, order) == Error
       <==> && (cfg.matchNamespaces == map[] || (sel.testNs in cfg.matchNamespaces && cfg.matchNamespaces[sel.testNs]))
            && if sel.node != "" && m(sel.node, cfg.nodeName) != Yes then m(sel.node, cfg.nodeName) == Bad
               else && (forall k :: k in cfg.matchLabels ==> LabelOf(sel.labels, k) == cfg.matchLabels[k])
                    && exists i :: 0 <= i < |order| && MalformedEntry(m, cfg, agentId, order[i], sel.pods[order[i]])
                                   && forall j :: 0 <= j < i ==>
                                        EntryVerdict(m, cfg, agentId, order[j], sel.pods[order[j]]) == Accept
  {
    assert |cfg.matchNamespaces| == 0 <==> cfg.matchNamespaces == map[];
    SelectorErrorIff(m, cfg, agentId, sel.pods, order);
  }

  lemma ErrorNeedsMalformed(m: Matcher, cfg: AgentConfig, agentId: string, sel: Selector, order: seq<string>)
    requires Enumerates(order, sel.pods.Keys) && VerdictInOrder(m, cfg, agentId, sel, order) == Error
    ensures !WellFormed(m, cfg, sel)
  {
    if NodeVerdict(m, cfg, sel.node) == Accept {
      SelectorVerdictHasWitness(m, cfg, agentId, sel.pods, order);
    }
  }

  method LabelsAccepted(cfg: AgentConfig, labels: map<string, string>) returns (ok: bool)
    ensures ok <==> LabelsMatch(cfg, labels)
  {
    var expected := cfg.matchLabels.Keys;
    while expected != {}
      invariant expected <= cfg.matchLabels.Keys
      invariant forall k :: k in cfg.matchLabels && k !in expected ==> LabelOf(labels, k) == cfg.matchLabels[k]
      decreases expected
    {
      var k :| k in expected;
      if LabelOf(labels, k) != cfg.matchLabels[k] {
        return false;
      }
      expected := expected - {k};
    }
    return true;
  }

  method PodsVerdict(m: Matcher, cfg: AgentConfig, agentId: string, pods: map<string, string>)
    returns (verdict: Verdict, ghost order: seq<string>)
    ensures Enumerates(order, pods.Keys) && verdict == SelectorVerdict(m, cfg, agentId, pods, order)
  {
    order := [];
    var rest := pods.Keys;
    while rest != {}
      invariant rest <= pods.Keys && Enumerates(order, pods.Keys - rest)
      invariant forall i :: 0 <= i < |order| ==>
                  order[i] in pods && EntryVerdict(m, cfg, agentId, order[i], pods[order[i]]) == Accept
      decreases rest
    {
      var k :| k in rest;
      rest := rest - {k};
      verdict := EntryVerdict(m, cfg, agentId, k, pods[k]);
      if verdict != Accept {
        ghost var tail := [k] + Listing(rest);
        AcceptedPrefix(m, cfg, agentId, pods, order, tail);
        order := order + tail;
        return;
      }
      order := order + [k];
    }
    AcceptedPrefix(m, cfg, agentId, pods, order, []);
    assert order + [] == order && pods.Keys - rest == pods.Keys;
    verdict := Accept;
  }

  /** Go iterates both maps in an unspecified order: the loops pick any remaining key, and `order` is the order of
      the pod-label selectors that this call happens to use. */
  method IsAgentValidForSynTest(m: Matcher, cfg: AgentConfig, agentId: string, sel: Selector)
    returns (verdict: Verdict, ghost order: seq<string>)
    ensures Enumerates(order, sel.pods.Keys) && verdict == VerdictInOrder(m, cfg, agentId, sel, order)
    ensures verdict == Accept <==> Unanimous(m, cfg, agentId, sel)
    ensures verdict == Error ==> !WellFormed(m, cfg, sel)
    ensures WellFormed(m, cfg, sel) ==> (verdict == Accept <==> Matches(m, cfg, agentId, sel))
  {
    order := Listing(sel.pods.Keys);
    verdict := Reject;
    if |cfg.matchNamespaces| == 0 || (sel.testNs in cfg.matchNamespaces && cfg.matchNamespaces[sel.testNs]) {
      verdict := NodeVerdict(m, cfg, sel.node);
      if verdict == Accept {
        var ok := LabelsAccepted(cfg, sel.labels);
        if ok {
          verdict, order := PodsVerdict(m, cfg, agentId, sel.pods);
        } else {
          verdict := Reject;
        }
      }
    }
    AcceptanceIgnoresOrder(m, cfg, agentId, sel, order);
    UnanimousIsDeclarative(m, cfg, agentId, sel);
    if verdict == Error {
      ErrorNeedsMalformed(m, cfg, agentId, sel, order);
    }
  }
}
