/** The worker-pool clients agent/plugins/syntests/{dns,httpPing,netDial}: what one job scores, and how the
    collection loop adds the scores up whatever order the pool returns them in. */
module PluginClients {
  import opened WorkerPools

  /** A job together with what its work function will return: marks and whether an error came with them. */
  datatype Job = Job(target: string, marks: nat, err: bool)

  datatype TestResult = TestResult(marks: nat, maxMarks: nat)

  /** FailedTestResult of common/helpers.go. */
  const FAILED := TestResult(0, 1)

  function Score(j: Job): nat {
    if j.err then 0 else j.marks
  }

  function SumScores(js: seq<Job>): nat {
    if js == [] then 0 else SumScores(js[..|js| - 1]) + Score(js[|js| - 1])
  }

  /** No job scores more than `cap`. */
  predicate Capped(js: seq<Job>, cap: nat) {
    forall i :: 0 <= i < |js| ==> Score(js[i]) <= cap
  }

  lemma {:induction false} SumBound(js: seq<Job>, cap: nat)
    requires Capped(js, cap)
    ensures SumScores(js) <= |js| * cap
    ensures SumScores(js) == |js| * cap <==> forall i :: 0 <= i < |js| ==> Score(js[i]) == cap
  {
    if js != [] {
      var front := js[..|js| - 1];
      SumBound(front, cap);
      assert |js| * cap == |front| * cap + cap;
      assert forall i :: 0 <= i < |front| ==> js[i] == front[i];
    }
  }

  lemma {:induction false} SumWithout(js: seq<Job>, i: nat)
    requires i < |js|
    ensures SumScores(js) == SumScores(js[..i] + js[i + 1..]) + Score(js[i])
  {
    var rest := js[..i] + js[i + 1..];
    if i == |js| - 1 {
      assert rest == js[..|js| - 1];
    } else {
      var front := js[..|js| - 1];
      SumWithout(front, i);
      assert rest[..|rest| - 1] == front[..i] + front[i + 1..];
    }
  }

  /** The total does not depend on the order of completion. */
  lemma {:induction false} SumIgnoresOrder(js: seq<Job>, ks: seq<Job>)
    requires multiset(js) == multiset(ks)
    ensures SumScores(js) == SumScores(ks) && |js| == |ks|
  {
    assert |js| == |multiset(js)| && |ks| == |multiset(ks)|;
    if js != [] {
      var n := |js| - 1;
      JobsWithout(js, n);
      assert js[..n] + js[n + 1..] == js[..n];
      assert js[n] in multiset(ks);
      var i :| 0 <= i < |ks| && ks[i] == js[n];
      JobsWithout(ks, i);
      SumWithout(ks, i);
      SumIgnoresOrder(js[..n], ks[..i] + ks[i + 1..]);
    }
  }

  lemma JobsWithout(js: seq<Job>, i: nat)
    requires i < |js|
    ensures multiset(js[..i] + js[i + 1..]) == multiset(js) - multiset{js[i]}
  {
    assert js == js[..i] + [js[i]] + js[i + 1..];
  }

  /** The collection loop of all three plugins. */
  method CollectMarks(results: seq<Job>) returns (marks: nat)
    ensures marks == SumScores(results)
  {
    marks := 0;
    for i := 0 to |results|
      invariant marks == SumScores(results[..i])
    {
      assert results[..i + 1][..i] == results[..i];
      if !results[i].err {
        marks := marks + results[i].marks;
      }
    }
    assert results[..|results|] == results;
  }

  /** PerformTest: a plugin-specific answer when there is nothing to do, else `cap` marks per job. */
  method PerformTest(jobs: seq<Job>, collected: seq<Job>, cap: nat, whenEmpty: TestResult) returns (res: TestResult)
    requires Capped(jobs, cap) && multiset(collected) == multiset(jobs)
    requires whenEmpty.marks <= whenEmpty.maxMarks
    ensures res.marks <= res.maxMarks
    ensures jobs == [] ==> res == whenEmpty
    ensures jobs != [] ==> res == TestResult(SumScores(jobs), |jobs| * cap)
    ensures jobs != [] ==> (res.marks == res.maxMarks <==> forall i :: 0 <= i < |jobs| ==> Score(jobs[i]) == cap)
  {
    SumIgnoresOrder(jobs, collected);
    SumBound(jobs, cap);
    if jobs == [] {
      return whenEmpty;
    }
    var marks := CollectMarks(collected);
    res := TestResult(marks, |jobs| * cap);
  }

  /** A schedule of a plugin's pool that runs to its end. */
  ghost predicate Completes(jobs: seq<Job>, workers: nat, acts: seq<Action>) {
    && IsRun(Start(jobs, |jobs|, workers), |jobs|, acts)
    && Stuck(Run(Start(jobs, |jobs|, workers), |jobs|, acts), |jobs|)
  }

  /** Under every schedule of a plugin's pool that runs to its end, the marks are those of the submitted jobs
      and never exceed the maximum. */
  lemma MarksUnderEverySchedule(jobs: seq<Job>, workers: nat, cap: nat, acts: seq<Action>)
    requires workers >= 1 && Capped(jobs, cap) && Completes(jobs, workers, acts)
    ensures var marks := SumScores(Run(Start(jobs, |jobs|, workers), |jobs|, acts).collected);
            && marks == SumScores(jobs) <= |jobs| * cap
            && (marks == |jobs| * cap <==> forall i :: 0 <= i < |jobs| ==> Score(jobs[i]) == cap)
  {
    PoolCompletes(jobs, workers, acts);
    SumIgnoresOrder(Run(Start(jobs, |jobs|, workers), |jobs|, acts).collected, jobs);
    SumBound(jobs, cap);
  }

  // ---------------------------------------------------------------- one job

  function Successes(lookups: seq<bool>): nat {
    if lookups == [] then 0 else Successes(lookups[..|lookups| - 1]) + if lookups[|lookups| - 1] then 1 else 0
  }

  lemma {:induction false} SuccessesCount(lookups: seq<bool>)
    ensures Successes(lookups) == |set i | 0 <= i < |lookups| && lookups[i]|
  {
    if lookups != [] {
      var n := |lookups| - 1;
      SuccessesCount(lookups[..n]);
      var front := set i | 0 <= i < n && lookups[..n][i];
      assert (set i | 0 <= i < |lookups| && lookups[i]) == if lookups[n] then front + {n} else front;
    }
  }

  /** dnsTest: one mark per successful lookup out of `repeats`. */
  method DnsTest(lookups: seq<bool>) returns (marks: nat)
    ensures marks == Successes(lookups) == |set i | 0 <= i < |lookups| && lookups[i]| && marks <= |lookups|
    ensures marks == |lookups| <==> forall i :: 0 <= i < |lookups| ==> lookups[i]
  {
    marks := 0;
    for i := 0 to |lookups|
      invariant marks == Successes(lookups[..i]) && marks <= i
      invariant marks == i <==> forall k :: 0 <= k < i ==> lookups[k]
    {
      assert lookups[..i + 1][..i] == lookups[..i];
      if lookups[i] {
        marks := marks + 1;
      }
    }
    assert lookups[..|lookups|] == lookups;
    SuccessesCount(lookups);
  }

  /** One HTTP ping: whether the deadline had passed before it and after it, and how it ended.  An error never
      comes with a match. */
  datatype Ping = Ping(lateBefore: bool, lateAfter: bool, match_: bool, err: bool)

  predicate Clean(p: Ping) {
    p.match_ && !p.err && !p.lateAfter
  }

  ghost predicate FirstUnclean(pings: seq<Ping>, i: nat)
    requires i < |pings|
  {
    !Clean(pings[i]) && forall k :: 0 <= k < i ==> Clean(pings[k])
  }

  /** With repeatsWithoutFail: every one of the pings has to succeed in time. */
  method RepeatWithoutFail(pings: seq<Ping>) returns (marks: nat, err: bool)
    requires forall i :: 0 <= i < |pings| ==> pings[i].err ==> !pings[i].match_
    ensures marks <= 1 && (err ==> marks == 0)
    ensures marks == 1 <==> forall i :: 0 <= i < |pings| ==> pings[i].match_ && !pings[i].err && !pings[i].lateAfter
    ensures err <==> exists i :: 0 <= i < |pings| && FirstUnclean(pings, i) && (pings[i].lateAfter || pings[i].err)
  {
    for i := 0 to |pings|
      invariant forall k :: 0 <= k < i ==> Clean(pings[k])
    {
      assert !Clean(pings[i]) ==> FirstUnclean(pings, i);
      if pings[i].lateAfter {
        return 0, true;
      }
      if pings[i].err {
        return 0, true;
      }
      if !pings[i].match_ {
        return 0, false;
      }
    }
    return 1, false;
  }

  /** A retry is given up when the deadline has passed and the timeout retries are used up. */
  predicate GivesUp(pings: seq<Ping>, maxTimeoutRetries: int, i: nat)
    requires i < |pings|
  {
    i > maxTimeoutRetries && pings[i].lateBefore
  }

  /** Attempt `i` takes place: all earlier ones failed and none of the attempts up to it was given up. */
  ghost predicate Attempted(pings: seq<Ping>, maxRetries: int, maxTimeoutRetries: int, i: nat)
    requires i < |pings|
  {
    && i <= maxRetries
    && (forall k :: 0 <= k < i ==> pings[k].err)
    && (forall k :: 0 <= k <= i ==> !GivesUp(pings, maxTimeoutRetries, k))
  }

  /** Which attempts take place: all up to the retry limit until one answers, and once the deadline has passed only
      those within the timeout retries. */
  lemma AttemptsByDeadline(pings: seq<Ping>, maxRetries: int, maxTimeoutRetries: int, i: nat)
    requires i < |pings|
    ensures (forall k :: 0 <= k <= i ==> !pings[k].lateBefore) ==>
              (Attempted(pings, maxRetries, maxTimeoutRetries, i)
               <==> i <= maxRetries && forall k :: 0 <= k < i ==> pings[k].err)
    ensures (forall k :: 0 <= k <= i ==> pings[k].lateBefore) ==>
              (Attempted(pings, maxRetries, maxTimeoutRetries, i)
               <==> i <= maxRetries && i <= maxTimeoutRetries && forall k :: 0 <= k < i ==> pings[k].err)
  {
    if forall k :: 0 <= k <= i ==> pings[k].lateBefore {
      assert GivesUp(pings, maxTimeoutRetries, i) <==> i > maxTimeoutRetries;
    }
  }

  /** The retry loop: one mark exactly when some attempt that takes place answers without error and matches. */
  method RetryPing(pings: seq<Ping>, maxRetries: int, maxTimeoutRetries: int) returns (marks: nat, err: bool)
    requires maxRetries < |pings|
    requires forall i :: 0 <= i < |pings| ==> pings[i].err ==> !pings[i].match_
    ensures marks <= 1 && (err ==> marks == 0)
    ensures marks == 1 <==> exists i :: 0 <= i < |pings| && Attempted(pings, maxRetries, maxTimeoutRetries, i)
                                        && !pings[i].err && pings[i].match_
    ensures err <==> (exists i :: 0 <= i < |pings| && Attempted(pings, maxRetries, maxTimeoutRetries, i))
                     && forall i :: 0 <= i < |pings| && Attempted(pings, maxRetries, maxTimeoutRetries, i)
                                    ==> pings[i].err
  {
    var match_ := false;
    err := false;
    var i := 0;
    while i <= maxRetries
      invariant 0 <= i <= |pings| && (i <= maxRetries + 1 || i == 0)
      invariant forall k :: 0 <= k < i ==> pings[k].err && !GivesUp(pings, maxTimeoutRetries, k)
      invariant !match_ && (err <==> i > 0)
    {
      if i > maxTimeoutRetries && pings[i].lateBefore {
        assert GivesUp(pings, maxTimeoutRetries, i);
        break;
      }
      assert Attempted(pings, maxRetries, maxTimeoutRetries, i);
      match_, err := pings[i].match_, pings[i].err;
      if !err {
        break;
      }
      i := i + 1;
    }
    assert i > 0 ==> i - 1 <= maxRetries && Attempted(pings, maxRetries, maxTimeoutRetries, i - 1);
    if err {
      return 0, true;
    }
    marks := if match_ then 1 else 0;
  }

  // ---------------------------------------------------------------- the clients with their work functions

  /** A domain and how its lookups go. */
  datatype DnsTarget = DnsTarget(domain: string, lookups: seq<bool>)

  function DnsJobs(targets: seq<DnsTarget>): (jobs: seq<Job>)
    ensures |jobs| == |targets|
  {
    seq(|targets|, i requires 0 <= i < |targets| => Job(targets[i].domain, Successes(targets[i].lookups), false))
  }

  lemma {:induction false} SuccessesBound(lookups: seq<bool>)
    ensures Successes(lookups) <= |lookups|
    ensures Successes(lookups) == |lookups| <==> forall i :: 0 <= i < |lookups| ==> lookups[i]
  {
    if lookups != [] {
      var front := lookups[..|lookups| - 1];
      SuccessesBound(front);
      assert forall i :: 0 <= i < |front| ==> front[i] == lookups[i];
    }
  }

  /** The dns client ends with marks within its maximum under every schedule, and reaches it exactly if every lookup
      of every domain succeeds. */
  lemma DnsMarks(targets: seq<DnsTarget>, repeats: nat, workers: nat, acts: seq<Action>)
    requires workers >= 1 && forall i :: 0 <= i < |targets| ==> |targets[i].lookups| == repeats
    requires Completes(DnsJobs(targets), workers, acts)
    ensures var jobs := DnsJobs(targets);
            var marks := SumScores(Run(Start(jobs, |jobs|, workers), |jobs|, acts).collected);
            && marks <= |targets| * repeats
            && (marks == |targets| * repeats <==> forall i :: 0 <= i < |targets| ==> AllTrue(targets[i].lookups))
  {
    var jobs := DnsJobs(targets);
    forall i | 0 <= i < |jobs|
      ensures Score(jobs[i]) <= repeats && (Score(jobs[i]) == repeats <==> AllTrue(targets[i].lookups))
    {
      SuccessesBound(targets[i].lookups);
    }
    MarksUnderEverySchedule(jobs, workers, repeats, acts);
  }

  predicate AllTrue(s: seq<bool>) {
    forall i :: 0 <= i < |s| ==> s[i]
  }

  /** An endpoint, whether its request could be set up, its settings and how its pings go. */
  datatype HttpTarget = HttpTarget(
    address: string,
    setUp: bool,
    repeats: int,
    maxRetries: int,
    maxTimeoutRetries: int,
    pings: seq<Ping>)

  /** There is an outcome for every ping the code may make, and an error never comes with a match. */
  predicate Provided(t: HttpTarget) {
    && (if t.repeats > 0 then |t.pings| == t.repeats else t.maxRetries < |t.pings|)
    && forall i :: 0 <= i < |t.pings| ==> t.pings[i].err ==> !t.pings[i].match_
  }

  ghost predicate HttpSucceeds(t: HttpTarget) {
    && t.setUp
    && if t.repeats > 0 then forall i :: 0 <= i < |t.pings| ==> Clean(t.pings[i])
       else exists i :: 0 <= i < |t.pings| && Attempted(t.pings, t.maxRetries, t.maxTimeoutRetries, i)
                        && !t.pings[i].err && t.pings[i].match_
  }

  /** httpPingTest: one mark exactly if the endpoint succeeds, and none with an error. */
  method HttpPingTest(t: HttpTarget) returns (marks: nat, err: bool)
    requires Provided(t)
    ensures marks == (if HttpSucceeds(t) then 1 else 0) && (err ==> marks == 0)
    ensures !t.setUp ==> err
  {
    if !t.setUp {
      return 0, true;
    }
    if t.repeats > 0 {
      marks, err := RepeatWithoutFail(t.pings);
    } else {
      marks, err := RetryPing(t.pings, t.maxRetries, t.maxTimeoutRetries);
    }
  }

  /** The jobs with what HttpPingTest returns for them. */
  ghost predicate HttpJobs(targets: seq<HttpTarget>, jobs: seq<Job>) {
    |jobs| == |targets| && forall i :: 0 <= i < |jobs| ==> Score(jobs[i]) == if HttpSucceeds(targets[i]) then 1 else 0
  }

  /** The http client likewise: the maximum is reached exactly if every endpoint succeeds. */
  lemma HttpMarks(targets: seq<HttpTarget>, jobs: seq<Job>, workers: nat, acts: seq<Action>)
    requires workers >= 1 && HttpJobs(targets, jobs) && Completes(jobs, workers, acts)
    ensures var marks := SumScores(Run(Start(jobs, |jobs|, workers), |jobs|, acts).collected);
            && marks <= |targets|
            && (marks == |targets| <==> forall i :: 0 <= i < |targets| ==> HttpSucceeds(targets[i]))
  {
    MarksUnderEverySchedule(jobs, workers, 1, acts);
    assert forall i :: 0 <= i < |jobs| ==> (Score(jobs[i]) == 1 <==> HttpSucceeds(targets[i]));
  }

  /** An address and whether it can be dialled. */
  datatype DialTarget = DialTarget(address: string, reachable: bool)

  function DialJobs(targets: seq<DialTarget>): (jobs: seq<Job>)
    ensures |jobs| == |targets|
  {
    seq(|targets|, i requires 0 <= i < |targets| => Job(targets[i].address, 1, !targets[i].reachable))
  }

  /** The netDial client likewise: one mark per address that can be dialled. */
  lemma DialMarks(targets: seq<DialTarget>, workers: nat, acts: seq<Action>)
    requires workers >= 1
    requires Completes(DialJobs(targets), workers, acts)
    ensures var jobs := DialJobs(targets);
            var marks := SumScores(Run(Start(jobs, |jobs|, workers), |jobs|, acts).collected);
            && marks <= |targets|
            && (marks == |targets| <==> forall i :: 0 <= i < |targets| ==> targets[i].reachable)
  {
    var jobs := DialJobs(targets);
    MarksUnderEverySchedule(jobs, workers, 1, acts);
    assert forall i :: 0 <= i < |jobs| ==> (Score(jobs[i]) == 1 <==> targets[i].reachable);
  }
}
