/** Identifiers of common/helpers.go: a config id is `name/namespace`, an agent id is
    `pod/podNamespace`, and a plugin id joins the two.  Kubernetes names contain no slash
    (section 2.1 of RFC 1123), which is the hypothesis `SlashFree` below. */
module Ids {

  datatype Option<+T> = None | Some(value: T)

  datatype Components = Components(testName: string, testNs: string, podName: string, podNs: string)

  predicate SlashFree(s: string) {
    '/' !in s
  }

  function ConfigId(testName: string, testNs: string): string {
    testName + "/" + testNs
  }

  function AgentId(podName: string, podNs: string): string {
    podName + "/" + podNs
  }

  function PluginId(testName: string, testNs: string, agentId: string): string {
    testName + "/" + testNs + "/" + agentId
  }

  /** strings.Split(s, "/"): the slash-free pieces between slashes. */
  function Split(s: string): (parts: seq<string>)
    ensures parts != []
    ensures forall i :: 0 <= i < |parts| ==> SlashFree(parts[i])
  {
    if s == [] then [""]
    else
      var rest := Split(s[1..]);
      if s[0] == '/' then [""] + rest else [[s[0]] + rest[0]] + rest[1..]
  }

  /** GetPluginIdComponents: the first four pieces; fewer than four is an error. */
  function PluginIdComponents(pluginId: string): Option<Components> {
    var comp := Split(pluginId);
    if |comp| < 4 then None else Some(Components(comp[0], comp[1], comp[2], comp[3]))
  }

  /** Inverse of Split. */
  function Join(parts: seq<string>): string
    requires parts != []
  {
    if |parts| == 1 then parts[0] else parts[0] + "/" + Join(parts[1..])
  }

  lemma {:induction false} JoinSplit(s: string)
    ensures Join(Split(s)) == s
  {
    if s != [] {
      JoinSplit(s[1..]);
      var rest := Split(s[1..]);
      if s[0] == '/' {
        assert ([""] + rest)[1..] == rest;
      } else {
        JoinLonger(s[0], rest);
        assert [s[0]] + s[1..] == s;
      }
    }
  }

  lemma JoinLonger(c: char, rest: seq<string>)
    requires rest != []
    ensures Join([[c] + rest[0]] + rest[1..]) == [c] + Join(rest)
  {
    var parts := [[c] + rest[0]] + rest[1..];
    assert parts[1..] == rest[1..];
    if |rest| > 1 {
      Cons(c, rest[0], Join(rest[1..]));
    }
  }

  lemma Cons(c: char, head: string, tail: string)
    ensures [c] + head + "/" + tail == [c] + (head + "/" + tail)
  {
  }

  lemma {:induction false} SplitAtom(s: string)
    requires SlashFree(s)
    ensures Split(s) == [s]
  {
    if s != [] {
      SplitAtom(s[1..]);
      assert [s[0]] + s[1..] == s;
    }
  }

  lemma {:induction false} SplitHead(a: string, b: string)
    requires SlashFree(a)
    ensures Split(a + "/" + b) == [a] + Split(b)
  {
    var s := a + "/" + b;
    if a == [] {
      assert s[1..] == b;
    } else {
      SplitHead(a[1..], b);
      assert s[1..] == a[1..] + "/" + b;
      assert [s[0]] + a[1..] == a;
    }
  }

  /** Splitting a plugin id returns exactly the names it was built from. */
  lemma PluginIdRoundTrip(testName: string, testNs: string, podName: string, podNs: string)
    requires SlashFree(testName) && SlashFree(testNs) && SlashFree(podName) && SlashFree(podNs)
    ensures PluginIdComponents(PluginId(testName, testNs, AgentId(podName, podNs)))
         == Some(Components(testName, testNs, podName, podNs))
  {
    var agentId := AgentId(podName, podNs);
    SplitAtom(podNs);
    SplitHead(podName, podNs);
    SplitHead(testNs, agentId);
    SplitHead(testName, testNs + "/" + agentId);
    assert PluginId(testName, testNs, agentId) == testName + "/" + (testNs + "/" + agentId);
    assert Split(PluginId(testName, testNs, agentId)) == [testName, testNs, podName, podNs];
  }

  /** The other direction: the components rebuild the id up to its fourth piece, hence the whole id exactly when
      it has four. */
  lemma ComponentsRebuildPluginId(pluginId: string)
    requires PluginIdComponents(pluginId).Some?
    ensures var c := PluginIdComponents(pluginId).value;
            var rebuilt := PluginId(c.testName, c.testNs, AgentId(c.podName, c.podNs));
            rebuilt <= pluginId && (rebuilt == pluginId <==> |Split(pluginId)| == 4)
  {
    JoinSplit(pluginId);
    JoinFour(Split(pluginId));
  }

  /** What follows the first `n` pieces. */
  function Rest(p: seq<string>, n: nat): string
    requires n <= |p|
  {
    if |p| == n then "" else "/" + Join(p[n..])
  }

  lemma JoinTwo(p: seq<string>)
    requires |p| >= 2
    ensures Join(p) == ConfigId(p[0], p[1]) + Rest(p, 2)
  {
    JoinOne(p[1..]);
    assert p[1..][1..] == p[2..];
    Regroup(p[0], p[1], Rest(p, 2));
  }

  lemma JoinOne(p: seq<string>)
    requires p != []
    ensures Join(p) == p[0] + Rest(p, 1)
  {
    if |p| == 1 {
      assert p[0] + "" == p[0];
    } else {
      assert p[0] + "/" + Join(p[1..]) == p[0] + ("/" + Join(p[1..]));
    }
  }

  lemma Regroup(a: string, b: string, rest: string)
    ensures a + "/" + (b + rest) == a + "/" + b + rest
  {
  }

  lemma JoinFour(p: seq<string>)
    requires |p| >= 4
    ensures Join(p) == PluginId(p[0], p[1], AgentId(p[2], p[3])) + Rest(p, 4)
  {
    var q := p[2..];
    assert Join(p) == ConfigId(p[0], p[1]) + ("/" + Join(q)) by {
      JoinTwo(p);
    }
    assert Join(q) == AgentId(p[2], p[3]) + Rest(p, 4) by {
      JoinTwo(q);
      assert q[2..] == p[4..];
    }
    Assemble(p[0], p[1], AgentId(p[2], p[3]), Rest(p, 4), Join(q));
  }

  lemma Assemble(a: string, b: string, agentId: string, rest: string, tail: string)
    requires tail == agentId + rest
    ensures ConfigId(a, b) + ("/" + tail) == PluginId(a, b, agentId) + rest
  {
  }

  /** The ids spell out name, slash, namespace; a plugin id is the config id, a slash and the agent id. */
  lemma IdPieces(name: string, namespace: string, agentId: string)
    requires SlashFree(name) && SlashFree(namespace)
    ensures Split(ConfigId(name, namespace)) == [name, namespace]
    ensures Split(AgentId(name, namespace)) == [name, namespace]
    ensures PluginId(name, namespace, agentId) == ConfigId(name, namespace) + "/" + agentId
  {
    SplitHead(name, namespace);
    SplitAtom(namespace);
  }

  /** Parsing fails exactly on fewer than four pieces. */
  lemma ParsesIff(pluginId: string)
    ensures PluginIdComponents(pluginId).Some? <==> |Split(pluginId)| >= 4
    ensures PluginIdComponents(pluginId).Some? ==>
              var c := PluginIdComponents(pluginId).value;
              [c.testName, c.testNs, c.podName, c.podNs] == Split(pluginId)[..4]
  {
  }

  lemma ConfigIdInjective(n1: string, ns1: string, n2: string, ns2: string)
    requires SlashFree(n1) && SlashFree(n2)
    requires ConfigId(n1, ns1) == ConfigId(n2, ns2)
    ensures n1 == n2 && ns1 == ns2
  {
    var s := ConfigId(n1, ns1);
    assert s[|n1|] == '/' && s[|n2|] == '/';
    assert forall i :: 0 <= i < |n1| ==> s[i] == n1[i];
    assert forall i :: 0 <= i < |n2| ==> s[i] == n2[i];
    assert n1 == s[..|n1|] && n2 == s[..|n2|];
    assert ns1 == s[|n1| + 1..] && ns2 == s[|n2| + 1..];
  }

  /** On one agent, plugin ids and config ids are in bijection. */
  lemma PluginIdInjective(n1: string, ns1: string, n2: string, ns2: string, agentId: string)
    requires SlashFree(n1) && SlashFree(n2) && SlashFree(ns1) && SlashFree(ns2)
    ensures PluginId(n1, ns1, agentId) == PluginId(n2, ns2, agentId) <==> ConfigId(n1, ns1) == ConfigId(n2, ns2)
  {
    if PluginId(n1, ns1, agentId) == PluginId(n2, ns2, agentId) {
      assert PluginId(n1, ns1, agentId) == ConfigId(n1, ns1 + "/" + agentId);
      assert PluginId(n2, ns2, agentId) == ConfigId(n2, ns2 + "/" + agentId);
      ConfigIdInjective(n1, ns1 + "/" + agentId, n2, ns2 + "/" + agentId);
      ConfigIdInjective(ns1, agentId, ns2, agentId);
    }
    if ConfigId(n1, ns1) == ConfigId(n2, ns2) {
      ConfigIdInjective(n1, ns1, n2, ns2);
    }
  }
}
