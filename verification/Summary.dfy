/** The pass-ratio summary: WriteTestRun stores marks/maxMarks with five decimals
    (common/storage/redis.go), and the REST service classifies the stored ratios and folds them into
    one overall status (restapi/main.go). */
module Summary {
  import opened Floats
  import opened Ids
  import opened Validity

  /** A float64. */
  datatype Ratio = NaN | Infinite | Finite(value: real)

  /** float64(marks) / float64(maxMarks) */
  function PassRatio(marks: nat, maxMarks: nat): Ratio {
    if maxMarks != 0 then Finite(Quotient(marks, maxMarks))
    else if marks != 0 then Infinite
    else NaN
  }

  /** passRatio < 1; false for NaN and +Inf. */
  predicate BelowOne(r: Ratio) {
    r.Finite? && r.value < 1.0
  }

  function LegacyStatus(r: Ratio): int {
    if r == Finite(1.0) then 3
    else if r == Finite(0.0) then 1
    else if r.Finite? && r.value < 1.0 && r.value > 0.5 then 2
    else 0
  }

  /** What a run with these marks should be classified as, without any division. */
  function ExactStatus(marks: nat, maxMarks: nat): int {
    if maxMarks == 0 then 0
    else if marks == maxMarks then 3
    else if marks == 0 then 1
    else if marks < maxMarks && 2 * marks > maxMarks then 2
    else 0
  }

  /** The classification of the float64 ratio is the exact one, for every maximum below 2^53. */
  lemma LegacyStatusIsExact(marks: nat, maxMarks: nat)
    requires maxMarks < TWO53
    ensures LegacyStatus(PassRatio(marks, maxMarks)) == ExactStatus(marks, maxMarks)
    ensures BelowOne(PassRatio(marks, maxMarks)) <==> marks < maxMarks
    ensures maxMarks == 0 ==> PassRatio(marks, maxMarks) == if marks == 0 then NaN else Infinite
  {
    if maxMarks != 0 {
      BelowOneIff(marks, maxMarks);
      IsOneIff(marks, maxMarks);
      PositiveQuotient(marks, maxMarks);
      if 0 < marks < maxMarks {
        AboveHalfIff(marks, maxMarks);
      }
    }
  }

  lemma NothingOfOneFails()
    ensures BelowOne(PassRatio(0, 1))
  {
  }

  // ---------------------------------------------------------------- five decimals

  /** fmt "%.5f", in units of 1/100000: the nearest value, ties to even. */
  function RoundTo5(x: real): (k: int)
    ensures x >= 0.0 ==> k >= 0
  {
    var t := x * 100000.0;
    var f := t.Floor;
    var d := t - f as real;
    if d < 0.5 || (d == 0.5 && f % 2 == 0) then f else f + 1
  }

  /** It is the integer within one half, and in a tie the even one. */
  lemma RoundTo5IsNearest(x: real, k: int)
    ensures RoundTo5(x) == k
       <==> var d := x * 100000.0 - k as real; -0.5 < d < 0.5 || ((d == 0.5 || d == -0.5) && k % 2 == 0)
  {
    var t := x * 100000.0;
    var f := t.Floor;
    assert f as real <= t < f as real + 1.0;
    if t - k as real == 0.5 {
      assert f == k;
    } else if t - k as real == -0.5 {
      assert f == k - 1;
    }
  }

  /** The text stored in the run-status hash. */
  datatype Stored = StoredNaN | StoredInfinite | Decimal(hundredThousandths: int)

  function Format5(r: Ratio): Stored {
    match r
    case NaN => StoredNaN
    case Infinite => StoredInfinite
    case Finite(x) => Decimal(RoundTo5(x))
  }

  /** strconv.ParseFloat of that text. */
  function Parse(s: Stored): Ratio {
    match s
    case StoredNaN => NaN
    case StoredInfinite => Infinite
    case Decimal(k) => Finite(if k >= 0 then Quotient(k, 100000) else -Quotient(-k, 100000))
  }

  /** The stored text of a result with these marks, parsed back. */
  function ParsedBack(marks: nat, maxMarks: nat): Ratio {
    Parse(Format5(PassRatio(marks, maxMarks)))
  }

  /** The maximum marks for which storing five decimals loses nothing. */
  predicate FiveDecimalsSuffice(maxMarks: nat) {
    maxMarks <= 100000 || (maxMarks % 2 == 0 && maxMarks <= 200000)
  }

  /** Stored and parsed back, the result is classified as the exact marks are. */
  predicate StoredAgrees(marks: nat, maxMarks: nat) {
    && LegacyStatus(ParsedBack(marks, maxMarks)) == ExactStatus(marks, maxMarks)
    && (BelowOne(ParsedBack(marks, maxMarks)) <==> marks < maxMarks)
  }

  /** The class of a stored decimal. */
  function DecimalClass(k: int): int {
    if k == 100000 then 3 else if k == 0 then 1 else if k > 50000 then 2 else 0
  }

  /** What the rounded ratio has to be, without float64. */
  lemma StoredAgreesIff(marks: nat, maxMarks: nat)
    requires 0 < maxMarks && RoundTo5(Quotient(marks, maxMarks)) <= 100000
    ensures StoredAgrees(marks, maxMarks)
       <==> var k := RoundTo5(Quotient(marks, maxMarks));
            DecimalClass(k) == ExactStatus(marks, maxMarks) && (k < 100000 <==> marks < maxMarks)
  {
    var k := RoundTo5(Quotient(marks, maxMarks));
    LegacyStatusIsExact(k, 100000);
  }

  lemma RoundBetween(x: real, lo: int, hi: int)
    requires lo as real - 0.5 < x * 100000.0 < hi as real + 0.5
    ensures lo <= RoundTo5(x) <= hi
  {
  }

  /** Bounds on the ratio away from the ties. */
  lemma RatioBounds(marks: nat, maxMarks: nat)
    requires 0 < marks < maxMarks && FiveDecimalsSuffice(maxMarks)
    requires maxMarks == 200000 ==> marks != 1 && marks != 100001 && marks != 199999
    ensures var x := marks as real / maxMarks as real;
            && 0.000005000025 <= x <= 0.999994999975
            && (2 * marks > maxMarks ==> x >= 0.500005000025)
            && (2 * marks == maxMarks ==> x == 0.5)
            && (2 * marks < maxMarks ==> x < 0.5)
  {
    var m, n := marks as real, maxMarks as real;
    QuotientOrder(m, n, 0.000005000025);
    QuotientOrder(m, n, 0.999994999975);
    QuotientOrder(m, n, 0.500005000025);
    QuotientOrder(m, n, 0.5);
    assert maxMarks % 2 == 0 && 2 * marks > maxMarks ==> 2 * marks >= maxMarks + 2;
  }

  /** The rounded ratio of a partial result lies in the right class. */
  lemma RoundedClass(marks: nat, maxMarks: nat)
    requires 0 < marks < maxMarks && FiveDecimalsSuffice(maxMarks)
    ensures var k := RoundTo5(Quotient(marks, maxMarks)); 1 <= k <= 99999 && (k > 50000 <==> 2 * marks > maxMarks)
  {
    if maxMarks == 200000 && (marks == 1 || marks == 100001 || marks == 199999) {
      RoundedTie(marks, maxMarks);
    } else {
      QuotientIsClose(marks, maxMarks);
      RatioBounds(marks, maxMarks);
      var upper := 2 * marks > maxMarks;
      RoundBetween(Quotient(marks, maxMarks), if upper then 50001 else 1, if upper then 99999 else 50000);
    }
  }

  lemma RoundedTie(marks: nat, maxMarks: nat)
    requires maxMarks == 200000 && (marks == 1 || marks == 100001 || marks == 199999)
    ensures RoundTo5(Quotient(marks, maxMarks)) == if marks == 1 then 1 else if marks == 100001 then 50001 else 99999
  {
    TieAt200000(marks, maxMarks);
    QuotientIsClose(marks, maxMarks);
    TieRounds(marks, maxMarks, Quotient(marks, maxMarks));
  }

  lemma TieRounds(marks: nat, maxMarks: nat, q: real)
    requires maxMarks == 200000 && (marks == 1 || marks == 100001 || marks == 199999)
    requires IsClose(q, marks as real / maxMarks as real)
    requires if marks == 199999 then q < marks as real / maxMarks as real else q > marks as real / maxMarks as real
    ensures RoundTo5(q) == if marks == 1 then 1 else if marks == 100001 then 50001 else 99999
  {
    var k := if marks == 1 then 1 else if marks == 100001 then 50001 else 99999;
    RoundBetween(q, k, k);
  }

  /** For all marks within such a maximum. */
  lemma FiveDecimalsAgree(marks: nat, maxMarks: nat)
    requires marks <= maxMarks && FiveDecimalsSuffice(maxMarks)
    ensures StoredAgrees(marks, maxMarks)
  {
    if maxMarks == 0 {
      return;
    }
    if marks == maxMarks {
      IsOneIff(marks, maxMarks);
      assert RoundTo5(1.0) == 100000;
    } else if marks > 0 {
      RoundedClass(marks, maxMarks);
    }
    StoredAgreesIff(marks, maxMarks);
  }

  /** Exactly those maxima: beyond them some result is misclassified. */
  lemma FiveDecimalsSufficeIff(maxMarks: nat)
    requires maxMarks < TWO53
    ensures FiveDecimalsSuffice(maxMarks) <==> forall marks :: 0 <= marks <= maxMarks ==> StoredAgrees(marks, maxMarks)
  {
    if FiveDecimalsSuffice(maxMarks) {
      forall marks | 0 <= marks <= maxMarks ensures StoredAgrees(marks, maxMarks) {
        FiveDecimalsAgree(marks, maxMarks);
      }
    } else {
      Misclassified(if maxMarks > 200000 then maxMarks - 1 else maxMarks / 2 + 1, maxMarks);
    }
  }

  lemma Misclassified(marks: nat, maxMarks: nat)
    requires maxMarks < TWO53
    requires || (maxMarks > 200000 && marks == maxMarks - 1)
             || (100000 < maxMarks < 200000 && maxMarks % 2 == 1 && marks == maxMarks / 2 + 1)
    ensures !StoredAgrees(marks, maxMarks)
  {
    var m, n := marks as real, maxMarks as real;
    QuotientIsClose(marks, maxMarks);
    if maxMarks > 200000 {
      QuotientOrder(m, n, 0.9999950000025);
      QuotientOrder(m, n, 1.0);
      RoundBetween(Quotient(marks, maxMarks), 100000, 100000);
    } else {
      QuotientOrder(m, n, 0.500004999951);
      QuotientOrder(m, n, 0.5);
      RoundBetween(Quotient(marks, maxMarks), 50000, 50000);
    }
    StoredAgreesIff(marks, maxMarks);
  }

  // ---------------------------------------------------------------- overall ping status

  /** A field of the run-status hash after strconv.ParseFloat. */
  datatype Reading = Unparsable | Parsed(ratio: Ratio)

  /** The entries the fold looks at: readable, well-formed id, ratio below 1. */
  predicate Failing(pluginId: string, r: Reading) {
    r.Parsed? && PluginIdComponents(pluginId).Some? && BelowOne(r.ratio)
  }

  /** One step of the fold; a failing test of unknown status counts as a warning. */
  function Worsen(overall: int, legacy: int): int {
    if legacy < overall then (if legacy != 0 then legacy else 2) else overall
  }

  function Overall(statuses: seq<int>): int {
    if statuses == [] then 3 else Worsen(Overall(statuses[..|statuses| - 1]), statuses[|statuses| - 1])
  }

  /** Legacy statuses of the failing entries, in iteration order. */
  function FailingStatuses(all: map<string, Reading>, order: seq<string>): seq<int>
    requires forall i :: 0 <= i < |order| ==> order[i] in all
  {
    if order == [] then []
    else
      var k := order[|order| - 1];
      var front := FailingStatuses(all, order[..|order| - 1]);
      if Failing(k, all[k]) then front + [LegacyStatus(all[k].ratio)] else front
  }

  datatype FailedTest = FailedTest(testNs: string, configId: string, displayName: string, status: int)

  /** What a failing entry contributes; `names` are the display names of the config summaries. */
  function Entry(names: map<string, string>, c: Components, status: int): FailedTest {
    var configId := ConfigId(c.testName, c.testNs);
    FailedTest(c.testNs, configId, LabelOf(names, configId), status)
  }

  /** `ft` is what the failing entry `k` contributes under `name`, in terms of the parts of its plugin id. */
  predicate Reports(all: map<string, Reading>, names: map<string, string>, k: string, name: string, ft: FailedTest)
    requires k in all
  {
    && all[k].Parsed? && all[k].ratio.Finite? && all[k].ratio.value < 1.0
    && |Split(k)| >= 4
    && name == Split(k)[0]
    && ft.testNs == Split(k)[1]
    && ft.configId == Split(k)[0] + "/" + Split(k)[1]
    && ft.displayName == (if ft.configId in names then names[ft.configId] else "")
    && ft.status == LegacyStatus(all[k].ratio)
  }

  /** The same in terms of the fold. */
  predicate Contributes(all: map<string, Reading>, names: map<string, string>, k: string, name: string, ft: FailedTest)
    requires k in all
  {
    && Failing(k, all[k])
    && var c := PluginIdComponents(k).value;
       name == c.testName && ft == Entry(names, c, LegacyStatus(all[k].ratio))
  }

  lemma ContributionIsReported(all: map<string, Reading>, names: map<string, string>, k: string, name: string,
                               ft: FailedTest)
    requires k in all
    ensures Contributes(all, names, k, name, ft) <==> Reports(all, names, k, name, ft)
  {
    ParsesIff(k);
  }

  /** The response after one more failing entry: the first entry of a test name stays. */
  function Listed(failedTests: map<string, FailedTest>, names: map<string, string>, c: Components, status: int)
    : map<string, FailedTest>
  {
    if c.testName in failedTests then failedTests else failedTests[c.testName := Entry(names, c, status)]
  }

  /** The failed tests of the response, in iteration order. */
  function FailedTests(all: map<string, Reading>, names: map<string, string>,
                       order: seq<string>): map<string, FailedTest>
    requires forall i :: 0 <= i < |order| ==> order[i] in all
  {
    if order == [] then map[]
    else
      var k := order[|order| - 1];
      var front := FailedTests(all, names, order[..|order| - 1]);
      if Failing(k, all[k]) then Listed(front, names, PluginIdComponents(k).value, LegacyStatus(all[k].ratio))
      else front
  }

  /** They are the test names of the failing entries, each with the data of one of them. */
  lemma {:induction false} FailedTestsAreTheFailing(all: map<string, Reading>, names: map<string, string>,
                                                    order: seq<string>)
    requires forall i :: 0 <= i < |order| ==> order[i] in all
    ensures forall i :: 0 <= i < |order| && Failing(order[i], all[order[i]]) ==>
              PluginIdComponents(order[i]).value.testName in FailedTests(all, names, order)
    ensures forall name :: name in FailedTests(all, names, order) ==>
              exists i :: 0 <= i < |order|
                          && Contributes(all, names, order[i], name, FailedTests(all, names, order)[name])
  {
    if order != [] {
      var n := |order| - 1;
      var front := order[..n];
      FailedTestsAreTheFailing(all, names, front);
      var failed := FailedTests(all, names, order);
      forall name | name in failed
        ensures exists i :: 0 <= i < |order| && Contributes(all, names, order[i], name, failed[name])
      {
        if name in FailedTests(all, names, front) {
          var i :| 0 <= i < n && Contributes(all, names, front[i], name, FailedTests(all, names, front)[name]);
          assert front[i] == order[i] && failed[name] == FailedTests(all, names, front)[name];
        } else {
          assert Contributes(all, names, order[n], name, failed[name]);
        }
      }
    }
  }

  lemma {:induction false} NoFailingStatuses(all: map<string, Reading>, order: seq<string>)
    requires forall i :: 0 <= i < |order| ==> order[i] in all
    ensures FailingRange(FailingStatuses(all, order))
    ensures FailingStatuses(all, order) == [] <==> forall i :: 0 <= i < |order| ==> !Failing(order[i], all[order[i]])
  {
    if order != [] {
      NoFailingStatuses(all, order[..|order| - 1]);
    }
  }

  lemma OneMore(all: map<string, Reading>, order: seq<string>, k: string, names: map<string, string>)
    requires k in all && forall i :: 0 <= i < |order| ==> order[i] in all
    ensures var front, next := FailingStatuses(all, order), FailingStatuses(all, order + [k]);
            if Failing(k, all[k]) then Overall(next) == Worsen(Overall(front), LegacyStatus(all[k].ratio))
            else next == front
    ensures var front, next := FailedTests(all, names, order), FailedTests(all, names, order + [k]);
            if Failing(k, all[k])
            then next == Listed(front, names, PluginIdComponents(k).value, LegacyStatus(all[k].ratio))
            else next == front
  {
    assert (order + [k])[..|order|] == order;
    var front, next := FailingStatuses(all, order), FailingStatuses(all, order + [k]);
    if Failing(k, all[k]) {
      assert next[..|next| - 1] == front;
    }
  }

  /** UpdatePingResponse without the details text. */
  method PingStatus(all: map<string, Reading>, names: map<string, string>)
    returns (overall: int, failedTests: map<string, FailedTest>, ghost order: seq<string>)
    ensures Enumerates(order, all.Keys)
    ensures overall == Overall(FailingStatuses(all, order)) && failedTests == FailedTests(all, names, order)
    ensures overall == 3 <==> forall k :: k in all && all[k].Parsed? && |Split(k)| >= 4 ==>
                                !(all[k].ratio.Finite? && all[k].ratio.value < 1.0)
    ensures forall name :: name in failedTests ==>
              exists k :: k in all && Reports(all, names, k, name, failedTests[name])
  {
    overall, failedTests, order := 3, map[], [];
    var rest := all.Keys;
    while rest != {}
      invariant rest <= all.Keys
      invariant Enumerates(order, all.Keys - rest)
      invariant overall == Overall(FailingStatuses(all, order)) && failedTests == FailedTests(all, names, order)
      decreases rest
    {
      var k :| k in rest;
      rest := rest - {k};
      OneMore(all, order, k, names);
      order := order + [k];
      if all[k].Unparsable? || PluginIdComponents(k).None? {
        continue;
      }
      if BelowOne(all[k].ratio) {
        var legacy := LegacyStatus(all[k].ratio);
        failedTests := Listed(failedTests, names, PluginIdComponents(k).value, legacy);
        if legacy < overall {
          overall := if legacy != 0 then legacy else 2;
        }
      }
    }
    ResponseMeaning(all, names, order);
  }

  /** The result is 3 exactly if no well-formed entry holds a ratio below one, and every failed test is reported with
      its own data. */
  lemma ResponseMeaning(all: map<string, Reading>, names: map<string, string>, order: seq<string>)
    requires Enumerates(order, all.Keys)
    ensures Overall(FailingStatuses(all, order)) == 3
       <==> forall k :: k in all && all[k].Parsed? && |Split(k)| >= 4 ==>
              !(all[k].ratio.Finite? && all[k].ratio.value < 1.0)
    ensures var failed := FailedTests(all, names, order);
            forall name :: name in failed ==> exists k :: k in all && Reports(all, names, k, name, failed[name])
  {
    NoFailingStatuses(all, order);
    OverallMeaning(FailingStatuses(all, order));
    FailedTestsAreTheFailing(all, names, order);
    var failed := FailedTests(all, names, order);
    forall name | name in failed ensures exists k :: k in all && Reports(all, names, k, name, failed[name]) {
      var i :| 0 <= i < |order| && Contributes(all, names, order[i], name, failed[name]);
      ContributionIsReported(all, names, order[i], name, failed[name]);
    }
    forall k | k in all
      ensures Failing(k, all[k])
         <==> all[k].Parsed? && |Split(k)| >= 4 && all[k].ratio.Finite? && all[k].ratio.value < 1.0
    {
      ParsesIff(k);
    }
  }

  /** Failing entries have status 0, 1 or 2. */
  predicate FailingRange(statuses: seq<int>) {
    forall i :: 0 <= i < |statuses| ==> 0 <= statuses[i] <= 2
  }

  /** A status 1 with no status 0 after it. */
  ghost predicate FinalOne(statuses: seq<int>, i: nat)
    requires i < |statuses|
  {
    statuses[i] == 1 && forall j :: i < j < |statuses| ==> statuses[j] != 0
  }

  /** What the fold computes: 3 without failures, and 1 exactly when some failing test of status 1 comes
      after every failing test of status 0. */
  lemma {:induction false} OverallMeaning(statuses: seq<int>)
    requires FailingRange(statuses)
    ensures Overall(statuses) in {1, 2, 3}
    ensures Overall(statuses) == 3 <==> statuses == []
    ensures Overall(statuses) == 1 <==> exists i :: 0 <= i < |statuses| && FinalOne(statuses, i)
  {
    if statuses != [] {
      var n := |statuses| - 1;
      var front := statuses[..n];
      OverallMeaning(front);
      assert FinalOne(statuses, n) <==> statuses[n] == 1;
      forall i | 0 <= i < n ensures FinalOne(statuses, i) <==> FinalOne(front, i) && statuses[n] != 0 {
      }
    }
  }

  /** Without a failing test of status 0 the result is the worst legacy status, in every order. */
  lemma OverallIsWorst(statuses: seq<int>)
    requires FailingRange(statuses) && 0 !in statuses && statuses != []
    ensures Overall(statuses) in statuses && forall i :: 0 <= i < |statuses| ==> Overall(statuses) <= statuses[i]
  {
    OverallMeaning(statuses);
    if 1 in statuses {
      var i :| 0 <= i < |statuses| && statuses[i] == 1;
      assert FinalOne(statuses, i);
    } else {
      assert statuses[0] == 2;
    }
  }

  lemma OverallWithoutConflict(statuses: seq<int>)
    requires FailingRange(statuses) && !(0 in statuses && 1 in statuses)
    ensures Overall(statuses) == if statuses == [] then 3 else if 1 in statuses then 1 else 2
  {
    OverallMeaning(statuses);
    if 1 in statuses {
      var i :| 0 <= i < |statuses| && statuses[i] == 1;
      assert FinalOne(statuses, i);
    }
  }

  /** Some failing entry has this legacy status. */
  ghost predicate SomeFailing(all: map<string, Reading>, status: int) {
    exists k :: k in all && Failing(k, all[k]) && LegacyStatus(all[k].ratio) == status
  }

  /** In every order the folded statuses are those of the failing entries. */
  lemma {:induction false} StatusesOfEntries(all: map<string, Reading>, order: seq<string>, status: int)
    requires forall i :: 0 <= i < |order| ==> order[i] in all
    ensures status in FailingStatuses(all, order)
       <==> exists k :: k in order && Failing(k, all[k]) && LegacyStatus(all[k].ratio) == status
  {
    if order != [] {
      var front := order[..|order| - 1];
      StatusesOfEntries(all, front, status);
      assert order == front + [order[|order| - 1]];
      assert forall k :: k in order <==> k in front || k == order[|order| - 1];
    }
  }

  /** The result depends on Go's map iteration order exactly when a failing test of status 0 (ratio above
      0 and at most 1/2) meets one of status 1 (ratio 0). */
  lemma OverallIgnoresOrderIff(all: map<string, Reading>)
    ensures (forall o1, o2 :: Enumerates(o1, all.Keys) && Enumerates(o2, all.Keys) ==>
               Overall(FailingStatuses(all, o1)) == Overall(FailingStatuses(all, o2)))
       <==> !(SomeFailing(all, 0) && SomeFailing(all, 1))
  {
    if SomeFailing(all, 0) && SomeFailing(all, 1) {
      var o1, o2 := ConflictingOrders(all);
    } else {
      forall o1, o2 | Enumerates(o1, all.Keys) && Enumerates(o2, all.Keys)
        ensures Overall(FailingStatuses(all, o1)) == Overall(FailingStatuses(all, o2))
      {
        OverallOfEntries(all, o1);
        OverallOfEntries(all, o2);
      }
    }
  }

  lemma OverallOfEntries(all: map<string, Reading>, order: seq<string>)
    requires Enumerates(order, all.Keys) && !(SomeFailing(all, 0) && SomeFailing(all, 1))
    ensures Overall(FailingStatuses(all, order))
         == if forall k :: k in all ==> !Failing(k, all[k]) then 3 else if SomeFailing(all, 1) then 1 else 2
  {
    NoFailingStatuses(all, order);
    StatusesOfEntries(all, order, 0);
    StatusesOfEntries(all, order, 1);
    OverallWithoutConflict(FailingStatuses(all, order));
  }

  /** Entries of status 1 and 0 at the end give 2, the other way round they give 1. */
  lemma ConflictingOrders(all: map<string, Reading>) returns (o1: seq<string>, o2: seq<string>)
    requires SomeFailing(all, 0) && SomeFailing(all, 1)
    ensures Enumerates(o1, all.Keys) && Enumerates(o2, all.Keys)
    ensures Overall(FailingStatuses(all, o1)) == 2 && Overall(FailingStatuses(all, o2)) == 1
  {
    var k0 :| k0 in all && Failing(k0, all[k0]) && LegacyStatus(all[k0].ratio) == 0;
    var k1 :| k1 in all && Failing(k1, all[k1]) && LegacyStatus(all[k1].ratio) == 1;
    var rest := Listing(all.Keys - {k0, k1});
    o1, o2 := rest + [k1] + [k0], rest + [k0] + [k1];
    LastTwo(all, rest, k1, k0);
    LastTwo(all, rest, k0, k1);
  }

  lemma LastTwo(all: map<string, Reading>, rest: seq<string>, j: string, k: string)
    requires j in all && k in all && j != k && Enumerates(rest, all.Keys - {j, k})
    requires Failing(j, all[j]) && Failing(k, all[k])
    ensures Enumerates(rest + [j] + [k], all.Keys)
    ensures Overall(FailingStatuses(all, rest)) in {1, 2, 3}
    ensures Overall(FailingStatuses(all, rest + [j] + [k]))
         == Worsen(Worsen(Overall(FailingStatuses(all, rest)), LegacyStatus(all[j].ratio)), LegacyStatus(all[k].ratio))
  {
    NoFailingStatuses(all, rest);
    OverallMeaning(FailingStatuses(all, rest));
    TwoMoreKeys(rest, all.Keys, j, k);
    assert j in rest + [j] && k !in rest + [j];
    OneMore(all, rest, j, map[]);
    OneMore(all, rest + [j], k, map[]);
  }

  lemma TwoMoreKeys(rest: seq<string>, keys: set<string>, j: string, k: string)
    requires j in keys && k in keys && j != k && Enumerates(rest, keys - {j, k})
    ensures Enumerates(rest + [j] + [k], keys)
  {
    var order := rest + [j] + [k];
    forall x | x in keys ensures x in order {
      assert x in rest || x == j || x == k;
    }
  }
}
