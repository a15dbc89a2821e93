/** StartPlugin of agent/pluginmanager/pluginManager.go: run, restart and back off. */
module Lifecycle {
  import opened Ids
  import opened Powers
  import opened StateMaps

  // ---------------------------------------------------------------- back-off in wrapping int64

  const SECOND := 1_000_000_000

  const TWO64 := 0x1_0000_0000_0000_0000

  /** Two's-complement int64 arithmetic. */
  function Wrap64(x: int): (w: int)
    ensures -TWO64 / 2 <= w < TWO64 / 2 && (x - w) % TWO64 == 0
  {
    var y := x % TWO64;
    if y >= TWO64 / 2 then y - TWO64 else y
  }

  /** Converting a float64 beyond the int64 range is implementation-dependent: amd64 yields the minimum,
      arm64 saturates. */
  datatype Conversion = Indefinite | Saturating

  function ToInt64(x: nat, conv: Conversion): int {
    if x < TWO64 / 2 then x
    else match conv
      case Indefinite => -TWO64 / 2
      case Saturating => TWO64 / 2 - 1
  }

  /** time.Duration(10*math.Pow(2, r)) * time.Second */
  function Doubled(r: nat, conv: Conversion): int {
    Wrap64(ToInt64(10 * Pow2(r), conv) * SECOND)
  }

  /** The wait before a restart, with the clamps to 5 minutes and to a positive value. */
  function BackOff(restarts: int, conv: Conversion): int {
    var wait := Doubled(if restarts > 0 then restarts else 0, conv);
    var capped := if wait > 300 * SECOND then 300 * SECOND else wait;
    if capped <= 0 then SECOND else capped
  }

  /** Binary digit `i` of `x`. */
  predicate Bit(x: nat, i: nat) {
    x % (2 * Pow2(i)) >= Pow2(i)
  }

  /** The intended doubling from 10 seconds up to 5 minutes lasts while the product fits into int64; then
      the binary digits of 5^10 = 9765625 decide between 5 minutes and 1 second; then it is 1 second. */
  function BackOffSeconds(restarts: int): int {
    if restarts <= 0 then 10
    else if restarts <= 29 then (if 10 * Pow2(restarts) < 300 then 10 * Pow2(restarts) else 300)
    else if restarts <= 53 then (if Bit(9765625, 53 - restarts) then 1 else 300)
    else 1
  }

  lemma Pow2Values()
    ensures Pow2(10) == 1024 && Pow2(23) == 0x80_0000 && Pow2(29) == 0x2000_0000 && Pow2(40) == 0x100_0000_0000
    ensures Pow2(59) == 0x800_0000_0000_0000 && Pow2(60) == 0x1000_0000_0000_0000 && Pow2(64) == TWO64
  {
    assert Pow2(3) == 8 && Pow2(4) == 16 && Pow2(9) == 512;
    assert Pow2(10) == 2 * Pow2(9);
    Pow2Sum(10, 10);
    Pow2Sum(20, 3);
    Pow2Sum(20, 9);
    Pow2Sum(20, 20);
    Pow2Sum(40, 20);
    assert Pow2(60) == 2 * Pow2(59);
    Pow2Sum(60, 4);
  }

  /** 10 * 2^r seconds in nanoseconds is 5^10 * 2^(10 + r). */
  lemma ProductAsPowers(r: nat)
    ensures 10 * Pow2(r) * SECOND == 9765625 * Pow2(10 + r)
  {
    Pow2Sum(10, r);
    Pow2Values();
  }

  lemma RemainderOfMultiple(q: int, y: int)
    requires 0 <= y < TWO64
    ensures (q * TWO64 + y) % TWO64 == y
  {
  }

  /** Scaling by `low` moves the lower digits of `a` to the top of the word: the highest of them is the sign. */
  lemma WrapScaled(a: nat, low: nat, half: nat)
    requires low * half == TWO64 / 2 && low > 300 * SECOND && half >= 1 && a % (2 * half) >= 1
    ensures var w := Wrap64(a * low); if a % (2 * half) >= half then w < 0 else w > 300 * SECOND
  {
    var q, rem := a / (2 * half), a % (2 * half);
    calc {
      a * low;
      (q * (2 * half) + rem) * low;
      q * (2 * (low * half)) + rem * low;
      q * TWO64 + rem * low;
    }
    ScaledBounds(rem, low, half);
    RemainderOfMultiple(q, rem * low);
  }

  lemma ScaledBounds(rem: nat, low: nat, half: nat)
    requires low * half == TWO64 / 2 && 1 <= rem < 2 * half
    ensures low <= rem * low < TWO64
    ensures rem >= half <==> rem * low >= TWO64 / 2
  {
    assert low >= 1;
    assert rem * low - low == (rem - 1) * low;
    assert TWO64 - rem * low == (2 * half - rem) * low;
    assert rem * low - TWO64 / 2 == (rem - half) * low;
    assert rem < half ==> (half - rem) * low >= 1;
  }

  /** 5^10 is odd, so its remainder by an even number is not zero. */
  lemma OddRemainder(a: nat, half: nat)
    requires a % 2 == 1 && half >= 1
    ensures a % (2 * half) >= 1
  {
    var q, rem := a / (2 * half), a % (2 * half);
    assert a == 2 * (half * q) + rem;
  }

  /** For 30 <= r <= 53 the wrapped product is a multiple of 2^40 ns whose sign is one digit of 5^10. */
  lemma WrappedMiddle(r: nat)
    requires 30 <= r <= 53
    ensures var w := Wrap64(9765625 * Pow2(10 + r));
            if Bit(9765625, 53 - r) then w < 0 else w > 300 * SECOND
  {
    Pow2Values();
    Pow2Sum(10 + r, 53 - r);
    assert Pow2(64) == 2 * Pow2(63);
    Pow2Grows(40, 10 + r);
    OddRemainder(9765625, Pow2(53 - r));
    WrapScaled(9765625, Pow2(10 + r), Pow2(53 - r));
  }

  lemma DoubledExactly(r: nat, conv: Conversion)
    requires r <= 29
    ensures Doubled(r, conv) == 10 * Pow2(r) * SECOND
  {
    assert Pow2(r) <= 0x2000_0000 by {
      Pow2Values();
      Pow2Grows(r, 29);
    }
    FitsExactly(10 * Pow2(r), conv);
  }

  lemma FitsExactly(x: nat, conv: Conversion)
    requires x <= 10 * 0x2000_0000
    ensures Wrap64(ToInt64(x, conv) * SECOND) == x * SECOND
  {
  }

  lemma DoubledWraps(r: nat, conv: Conversion)
    requires 30 <= r <= 53
    ensures if Bit(9765625, 53 - r) then Doubled(r, conv) < 0 else Doubled(r, conv) > 300 * SECOND
  {
    Pow2Values();
    Pow2Grows(r, 59);
    ProductAsPowers(r);
    WrappedMiddle(r);
  }

  /** From 54 on the product is a multiple of 2^64; from 60 on the conversion itself overflows. */
  lemma DoubledVanishes(r: nat, conv: Conversion)
    requires r >= 54
    ensures Doubled(r, conv) <= 0
  {
    var x := 10 * Pow2(r);
    if r <= 59 {
      assert x < TWO64 / 2 by {
        Pow2Values();
        Pow2Grows(r, 59);
      }
      MultipleOfWord(r);
    } else {
      assert x >= TWO64 / 2 by {
        Pow2Values();
        Pow2Grows(60, r);
      }
      Overflow(x, conv);
    }
  }

  lemma Overflow(x: nat, conv: Conversion)
    requires x >= TWO64 / 2
    ensures Wrap64(ToInt64(x, conv) * SECOND) <= 0
  {
  }

  lemma MultipleOfWord(r: nat)
    requires r >= 54
    ensures Wrap64(10 * Pow2(r) * SECOND) == 0
  {
    var q := 9765625 * Pow2(r - 54);
    assert 10 * Pow2(r) * SECOND == q * TWO64 by {
      ProductAsPowers(r);
      assert Pow2(10 + r) == TWO64 * Pow2(r - 54) by {
        Pow2Values();
        Pow2Sum(64, r - 54);
      }
    }
    WrapOfMultiple(10 * Pow2(r) * SECOND, q);
  }

  lemma WrapOfMultiple(x: int, q: int)
    requires x == q * TWO64
    ensures Wrap64(x) == 0
  {
    RemainderOfMultiple(q, 0);
  }

  /** For every restart count and both conversions. */
  lemma BackOffClosedForm(restarts: int, conv: Conversion)
    ensures BackOff(restarts, conv) == BackOffSeconds(restarts) * SECOND
    ensures SECOND <= BackOff(restarts, conv) <= 300 * SECOND
  {
    var r := if restarts > 0 then restarts else 0;
    if r <= 29 {
      DoubledExactly(r, conv);
    } else if r <= 53 {
      DoubledWraps(r, conv);
    } else {
      DoubledVanishes(r, conv);
    }
  }

  /** The wait grows with the restart count exactly as far as 29 restarts. */
  lemma BackOffMonotoneIff(limit: nat, conv: Conversion)
    ensures (forall r, s :: 0 <= r <= s <= limit ==> BackOff(r, conv) <= BackOff(s, conv)) <==> limit <= 29
  {
    if limit <= 29 {
      forall r, s | 0 <= r <= s <= limit ensures BackOff(r, conv) <= BackOff(s, conv) {
        BackOffClosedForm(r, conv);
        BackOffClosedForm(s, conv);
        Pow2Grows(r, s);
      }
    } else {
      DropAt30(conv);
    }
  }

  /** The waits themselves: 10, 20, 40, 80 and 160 seconds, then five minutes as long as the product fits. */
  lemma BackOffValues(restarts: int, conv: Conversion)
    ensures restarts <= 0 ==> BackOff(restarts, conv) == 10 * SECOND
    ensures restarts == 1 ==> BackOff(restarts, conv) == 20 * SECOND
    ensures restarts == 2 ==> BackOff(restarts, conv) == 40 * SECOND
    ensures restarts == 3 ==> BackOff(restarts, conv) == 80 * SECOND
    ensures restarts == 4 ==> BackOff(restarts, conv) == 160 * SECOND
    ensures 5 <= restarts <= 29 ==> BackOff(restarts, conv) == 300 * SECOND
    ensures restarts == 30 || restarts >= 54 ==> BackOff(restarts, conv) == SECOND
  {
    BackOffClosedForm(restarts, conv);
    assert Pow2(1) == 2 && Pow2(2) == 4 && Pow2(3) == 8 && Pow2(4) == 16 && Pow2(5) == 32;
    if restarts >= 5 {
      Pow2Grows(5, restarts);
    }
    if restarts == 30 {
      DropAt30(conv);
    }
  }

  lemma DropAt30(conv: Conversion)
    ensures BackOff(29, conv) == 300 * SECOND && BackOff(30, conv) == SECOND
  {
    BackOffClosedForm(29, conv);
    BackOffClosedForm(30, conv);
    Pow2Values();
  }

  // ---------------------------------------------------------------- lifecycle

  datatype Policy = Always | Never | OnError

  /** How one call of Run ended, whether it had lasted over ten minutes, and whether cancellation was seen
      before the loop came round again. */
  datatype RunOutcome = RunOutcome(err: bool, overTenMinutes: bool, cancelled: bool)

  /** The policy lets the plugin start again. */
  predicate Restarts(policy: Policy, o: RunOutcome) {
    policy == Always || (policy == OnError && o.err)
  }

  /** Number of calls of Run: up to and including the first one that is not followed by a restart. */
  function RunCount(policy: Policy, env: seq<RunOutcome>): nat {
    if env == [] then 0
    else if Restarts(policy, env[0]) && !env[0].cancelled then 1 + RunCount(policy, env[1..])
    else 1
  }

  /** The restart counter at call `i`: it starts over after a run of more than ten minutes. */
  function RestartsAt(first: int, env: seq<RunOutcome>, i: nat): int
    requires i <= |env|
  {
    if i == 0 then first
    else if env[i - 1].overTenMinutes then 1
    else RestartsAt(first, env, i - 1) + 1
  }

  /** The plugin state left by a run that began in state `called`. */
  function EndState(policy: Policy, backOff: int -> int, called: PluginState, o: RunOutcome): PluginState {
    if !Restarts(policy, o) then called.(status := if o.err then Errored else NotRunning)
    else
      var restarts := if o.overTenMinutes then 0 else called.restarts;
      called.(status := Restarting, restarts := restarts, backOff := backOff(restarts))
  }

  /** One pass of the loop for a plugin whose state was fetched.  `called` is the shared state at the call of Run,
      `again` whether the policy restarts it. */
  method RunOnce(sm: StateMap, id: string, fetched: PluginState, policy: Policy, backOff: int -> int, o: RunOutcome)
    returns (called: PluginState, again: bool)
    modifies sm
    ensures called == PluginState(Running, fetched.restarts + 1, fetched.totalRestarts + 1, 0)
    ensures sm.states == old(sm.states)[id := EndState(policy, backOff, called, o)]
    ensures again <==> policy == Always || (policy == OnError && o.err)
    ensures policy == Always ==> sm.states[id].status == Restarting
    ensures policy == OnError ==> sm.states[id].status == if o.err then Restarting else NotRunning
    ensures policy == Never ==> sm.states[id].status == if o.err then Errored else NotRunning
  {
    var s := PluginState(Running, fetched.restarts + 1, fetched.totalRestarts + 1, 0);
    sm.SetPluginState(id, s);
    called := sm.states[id];
    if o.err {
      if policy == Never {
        sm.SetPluginState(id, s.(status := Errored));
        return called, false;
      }
    } else {
      if policy == Never || policy == OnError {
        sm.SetPluginState(id, s.(status := NotRunning));
        return called, false;
      }
    }
    s := s.(status := Restarting);
    sm.SetPluginState(id, s);
    if o.overTenMinutes {
      s := s.(restarts := 0);
      sm.SetPluginState(id, s);
    }
    s := s.(backOff := backOff(s.restarts));
    sm.SetPluginState(id, s);
    again := true;
  }

  /** The shared state at call `i`. */
  function CallState(start: PluginState, env: seq<RunOutcome>, i: nat): PluginState
    requires i <= |env|
  {
    PluginState(Running, RestartsAt(start.restarts + 1, env, i), start.totalRestarts + 1 + i, 0)
  }

  /** The restart loop for any back-off rule.  `env` is any finite prefix of what the plugin and the clock do;
      `calls` records the shared plugin state at each call of Run. */
  method RestartLoop(sm: StateMap, id: string, policy: Policy, backOff: int -> int, cancelled: bool,
                     env: seq<RunOutcome>)
    returns (calls: seq<PluginState>)
    modifies sm
    ensures |calls| == if cancelled || id !in old(sm.states) then 0 else RunCount(policy, env)
    ensures |calls| <= |env|
    ensures id in old(sm.states) ==> forall i :: 0 <= i < |calls| ==> calls[i] == CallState(old(sm.states[id]), env, i)
    ensures sm.states == if calls == [] then old(sm.states)
                         else old(sm.states)[id := EndState(policy, backOff, calls[|calls| - 1], env[|calls| - 1])]
  {
    calls := [];
    var ctxDone := cancelled;
    ghost var rest := env;
    while !ctxDone && |calls| < |env|
      invariant |calls| <= |env| && rest == env[|calls|..]
      invariant cancelled ==> ctxDone && calls == []
      invariant id !in old(sm.states) ==> calls == []
      invariant !cancelled ==> RunCount(policy, env) == |calls| + if ctxDone then 0 else RunCount(policy, rest)
      invariant forall i :: 0 <= i < |calls| ==>
                  id in old(sm.states) && calls[i] == CallState(old(sm.states[id]), env, i)
      invariant sm.states == if calls == [] then old(sm.states)
                             else old(sm.states)[id := EndState(policy, backOff, calls[|calls| - 1], env[|calls| - 1])]
      invariant calls != [] ==> Restarts(policy, env[|calls| - 1])
      decreases |env| - |calls|
    {
      var fetched := sm.GetPluginState(id);
      if fetched.None? {
        break;
      }
      var o := env[|calls|];
      var called, again := RunOnce(sm, id, fetched.value, policy, backOff, o);
      assert rest[0] == o && rest[1..] == env[|calls| + 1..];
      assert called == CallState(old(sm.states[id]), env, |calls|) by {
        assert calls != [] ==> fetched.value == EndState(policy, backOff, calls[|calls| - 1], env[|calls| - 1]);
      }
      calls := calls + [called];
      rest := rest[1..];
      if !again {
        break;
      }
      ctxDone := o.cancelled;
    }
  }

  /** StartPlugin waits by the wrapping rule above. */
  function WaitRule(conv: Conversion): int -> int {
    restarts => BackOff(restarts, conv)
  }

  method StartPlugin(sm: StateMap, id: string, policy: Policy, conv: Conversion, cancelled: bool, env: seq<RunOutcome>)
    returns (calls: seq<PluginState>)
    modifies sm
    ensures |calls| == if cancelled || id !in old(sm.states) then 0 else RunCount(policy, env)
    ensures |calls| <= |env|
    ensures id in old(sm.states) ==> forall i :: 0 <= i < |calls| ==> calls[i] == CallState(old(sm.states[id]), env, i)
    ensures sm.states == if calls == [] then old(sm.states)
                         else var n := |calls| - 1;
                              old(sm.states)[id := EndState(policy, WaitRule(conv), calls[n], env[n])]
    ensures calls != [] ==>
              var status, err := sm.states[id].status, env[|calls| - 1].err;
              && (policy == Always ==> status == Restarting)
              && (policy == OnError ==> status == if err then Restarting else NotRunning)
              && (policy == Never ==> status == if err then Errored else NotRunning)
    ensures !cancelled && id in old(sm.states) && |calls| < |env| ==>
              && calls != []
              && var last := env[|calls| - 1];
                 last.cancelled || policy == Never || (policy == OnError && !last.err)
    ensures forall i :: 0 <= i < |calls| - 1 ==>
              !env[i].cancelled && (policy == Always || (policy == OnError && env[i].err))
  {
    calls := RestartLoop(sm, id, policy, WaitRule(conv), cancelled, env);
    RunCountMeaning(policy, env);
  }

  /** What the number of calls means: nothing restarts after the last one, everything before it did. */
  lemma {:induction false} RunCountMeaning(policy: Policy, env: seq<RunOutcome>)
    ensures RunCount(policy, env) <= |env| && (env != [] ==> RunCount(policy, env) >= 1)
    ensures forall i :: 0 <= i < RunCount(policy, env) - 1 ==>
              !env[i].cancelled && (policy == Always || (policy == OnError && env[i].err))
    ensures RunCount(policy, env) < |env| ==>
              var last := env[RunCount(policy, env) - 1];
              last.cancelled || policy == Never || (policy == OnError && !last.err)
    ensures policy == Never ==> RunCount(policy, env) <= 1
  {
    if env != [] {
      RunCountMeaning(policy, env[1..]);
      assert forall i :: 1 <= i < |env| ==> env[i] == env[1..][i - 1];
    }
  }

  lemma {:induction false} RestartsBounded(env: seq<RunOutcome>, i: nat)
    requires i <= |env|
    ensures 0 <= RestartsAt(0, env, i) <= i
  {
    if i > 0 {
      RestartsBounded(env, i - 1);
    }
  }

  /** After the run the plugin is shown as restarting, with a wait by its restart counter (by 0 after a long run) of
      between one second and five minutes. */
  ghost predicate WaitedAfter(policy: Policy, conv: Conversion, called: PluginState, o: RunOutcome) {
    var left := EndState(policy, WaitRule(conv), called, o);
    && left.status == Restarting && left.totalRestarts == called.totalRestarts
    && left.restarts == (if o.overTenMinutes then 0 else called.restarts)
    && left.backOff == BackOff(if o.overTenMinutes then 0 else called.restarts, conv)
    && SECOND <= left.backOff <= 300 * SECOND
  }

  /** The restart counter counts the runs since the last one of more than ten minutes, or since the start. */
  lemma {:induction false} RestartsMeaning(first: int, env: seq<RunOutcome>, i: nat, since: nat)
    requires since <= i <= |env| && forall k :: since <= k < i ==> !env[k].overTenMinutes
    ensures since == 0 ==> RestartsAt(first, env, i) == first + i
    ensures since > 0 && env[since - 1].overTenMinutes ==> RestartsAt(first, env, i) == i - since + 1
  {
    if since < i {
      RestartsMeaning(first, env, i - 1, since);
    }
  }

  /** Lifecycle traces of a plugin that starts with both counters at -1, as StartTestRoutine sets them, for
      every policy, outcome sequence and cancellation point: at call `i` the plugin is shown as running, the
      total counts the calls before, and the restart counter never exceeds the total; a call is preceded only
      by restartable, uncancelled runs; `never` calls once; `onError` calls again only after an error. */
  lemma LifecycleTrace(policy: Policy, conv: Conversion, start: PluginState, env: seq<RunOutcome>, i: nat)
    requires start.restarts == -1 && start.totalRestarts == -1 && i < RunCount(policy, env)
    ensures i < |env|
    ensures var s := CallState(start, env, i);
            s.status == Running && s.totalRestarts == i && 0 <= s.restarts <= i && s.backOff == 0
    ensures forall j :: 0 <= j < i ==> !env[j].cancelled && policy != Never && (policy == OnError ==> env[j].err)
    ensures forall j :: 0 <= j < i ==> WaitedAfter(policy, conv, CallState(start, env, j), env[j])
  {
    RunCountMeaning(policy, env);
    RestartsBounded(env, i);
    forall j | 0 <= j < i ensures WaitedAfter(policy, conv, CallState(start, env, j), env[j]) {
      assert Restarts(policy, env[j]);
      BackOffClosedForm(if env[j].overTenMinutes then 0 else CallState(start, env, j).restarts, conv);
    }
  }
}
