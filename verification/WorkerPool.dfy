/** common/utils/workerPool.go and its use by the test plugins: a client submits all its jobs, then collects one
    result per job, then closes the pool.  Job and result channels have the same buffer size.  All schedules of
    the client and the workers are considered; jobs are not nil. */
module WorkerPools {

  /** `Idle` is blocked on the job channel, `Busy` inside the work function, `Sending` blocked on the result
      channel. */
  datatype Worker<J> = Idle | Busy(job: J) | Sending(job: J) | Exited

  datatype Pool<J> = Pool(
    buffer: nat,
    todo: seq<J>,
    queue: seq<J>,
    workers: seq<Worker<J>>,
    results: seq<J>,
    collected: seq<J>,
    closed: bool)

  /** HandJob and HandResult are the rendezvous with a receiver that is already blocked on an empty channel, the
      only way through an unbuffered channel. */
  datatype Action =
    | AddJob
    | HandJob(w: nat)
    | Take(w: nat)
    | Finish(w: nat)
    | Send(w: nat)
    | HandResult(w: nat)
    | Collect
    | Close
    | Exit(w: nat)

  function Start<J>(jobs: seq<J>, buffer: nat, workers: nat): Pool<J> {
    Pool(buffer, jobs, [], seq(workers, _ => Idle), [], [], false)
  }

  /** The client is in its collection loop and still expects results. */
  predicate Collecting<J>(p: Pool<J>, n: nat) {
    p.todo == [] && |p.collected| < n
  }

  predicate Enabled<J>(p: Pool<J>, n: nat, a: Action) {
    match a
    case AddJob => p.todo != [] && |p.queue| < p.buffer
    case HandJob(w) => p.todo != [] && p.queue == [] && w < |p.workers| && p.workers[w].Idle?
    case Take(w) => p.queue != [] && w < |p.workers| && p.workers[w].Idle?
    case Finish(w) => w < |p.workers| && p.workers[w].Busy?
    case Send(w) => w < |p.workers| && p.workers[w].Sending? && |p.results| < p.buffer
    case HandResult(w) => w < |p.workers| && p.workers[w].Sending? && p.results == [] && Collecting(p, n)
    case Collect => p.results != [] && Collecting(p, n)
    case Close => p.todo == [] && !Collecting(p, n) && !p.closed
    case Exit(w) => p.closed && p.queue == [] && w < |p.workers| && p.workers[w].Idle?
  }

  function Apply<J>(p: Pool<J>, n: nat, a: Action): Pool<J>
    requires Enabled(p, n, a)
  {
    match a
    case AddJob => p.(todo := p.todo[1..], queue := p.queue + [p.todo[0]])
    case HandJob(w) => p.(todo := p.todo[1..], workers := p.workers[w := Busy(p.todo[0])])
    case Take(w) => p.(queue := p.queue[1..], workers := p.workers[w := Busy(p.queue[0])])
    case Finish(w) => p.(workers := p.workers[w := Sending(p.workers[w].job)])
    case Send(w) => p.(results := p.results + [p.workers[w].job], workers := p.workers[w := Idle])
    case HandResult(w) => p.(collected := p.collected + [p.workers[w].job], workers := p.workers[w := Idle])
    case Collect => p.(results := p.results[1..], collected := p.collected + [p.results[0]])
    case Close => p.(closed := true)
    case Exit(w) => p.(workers := p.workers[w := Exited])
  }

  ghost predicate IsRun<J>(p: Pool<J>, n: nat, acts: seq<Action>)
    decreases |acts|
  {
    acts == [] || (Enabled(p, n, acts[0]) && IsRun(Apply(p, n, acts[0]), n, acts[1..]))
  }

  ghost function Run<J>(p: Pool<J>, n: nat, acts: seq<Action>): Pool<J>
    requires IsRun(p, n, acts)
    decreases |acts|
  {
    if acts == [] then p else Run(Apply(p, n, acts[0]), n, acts[1..])
  }

  ghost predicate Stuck<J>(p: Pool<J>, n: nat) {
    forall a :: !Enabled(p, n, a)
  }

  /** The client has all its results and every worker has returned. */
  predicate Finished<J>(p: Pool<J>, n: nat) {
    p.closed && |p.collected| == n && forall w :: 0 <= w < |p.workers| ==> p.workers[w].Exited?
  }

  // ---------------------------------------------------------------- sums over the workers

  predicate Holds<J>(w: Worker<J>) {
    w.Busy? || w.Sending?
  }

  /** Number of workers that hold a job, and of those that hold job `j`. */
  function HeldCount<J>(ws: seq<Worker<J>>): nat {
    if ws == [] then 0 else (if Holds(ws[0]) then 1 else 0) + HeldCount(ws[1..])
  }

  ghost function Tally<J>(x: J, j: J): nat {
    if x == j then 1 else 0
  }

  ghost function CountIn<J>(s: seq<J>, j: J): nat {
    if s == [] then 0 else Tally(s[0], j) + CountIn(s[1..], j)
  }

  ghost function One<J>(w: Worker<J>, j: J): nat {
    if Holds(w) then Tally(w.job, j) else 0
  }

  ghost function HeldOf<J>(ws: seq<Worker<J>>, j: J): nat {
    if ws == [] then 0 else One(ws[0], j) + HeldOf(ws[1..], j)
  }

  function Weight<J>(w: Worker<J>): nat {
    match w
    case Exited => 0
    case Idle => 1
    case Sending(_) => 3
    case Busy(_) => 4
  }

  function Load<J>(ws: seq<Worker<J>>): nat {
    if ws == [] then 0 else Weight(ws[0]) + Load(ws[1..])
  }

  lemma {:induction false} AfterUpdate<J>(ws: seq<Worker<J>>, w: nat, x: Worker<J>)
    requires w < |ws|
    ensures Load(ws[w := x]) + Weight(ws[w]) == Load(ws) + Weight(x)
    ensures HeldCount(ws[w := x]) + (if Holds(ws[w]) then 1 else 0) == HeldCount(ws) + if Holds(x) then 1 else 0
  {
    var vs := ws[w := x];
    if w == 0 {
      assert vs[1..] == ws[1..];
    } else {
      AfterUpdate(ws[1..], w - 1, x);
      assert vs[1..] == ws[1..][w - 1 := x];
    }
  }

  lemma {:induction false} HeldOfAfterUpdate<J>(ws: seq<Worker<J>>, w: nat, x: Worker<J>, j: J)
    requires w < |ws|
    ensures HeldOf(ws[w := x], j) + One(ws[w], j) == HeldOf(ws, j) + One(x, j)
  {
    var vs := ws[w := x];
    if w == 0 {
      assert vs[1..] == ws[1..];
    } else {
      HeldOfAfterUpdate(ws[1..], w - 1, x, j);
      assert vs[1..] == ws[1..][w - 1 := x];
    }
  }

  lemma {:induction false} HeldBounds<J>(ws: seq<Worker<J>>)
    ensures HeldCount(ws) <= |ws|
    ensures (forall w :: 0 <= w < |ws| ==> Holds(ws[w])) <==> HeldCount(ws) == |ws|
    ensures (forall w :: 0 <= w < |ws| ==> !Holds(ws[w])) <==> HeldCount(ws) == 0
  {
    if ws != [] {
      HeldBounds(ws[1..]);
      assert forall w :: 1 <= w < |ws| ==> ws[w] == ws[1..][w - 1];
      assert forall w :: 0 <= w < |ws[1..]| ==> ws[1..][w] == ws[w + 1];
    }
  }

  lemma {:induction false} NoneHeld<J>(ws: seq<Worker<J>>, j: J)
    requires forall w :: 0 <= w < |ws| ==> !Holds(ws[w])
    ensures HeldOf(ws, j) == 0
  {
    if ws != [] {
      NoneHeld(ws[1..], j);
    }
  }

  // ---------------------------------------------------------------- invariant and termination

  /** Occurrences of a job, wherever it is. */
  ghost function Occurrences<J>(p: Pool<J>, j: J): nat {
    CountIn(p.todo, j) + CountIn(p.queue, j) + HeldOf(p.workers, j) + CountIn(p.results, j) + CountIn(p.collected, j)
  }

  function Total<J>(p: Pool<J>): nat {
    |p.todo| + |p.queue| + HeldCount(p.workers) + |p.results| + |p.collected|
  }

  ghost predicate Orderly<J>(p: Pool<J>, n: nat) {
    && Total(p) == n
    && |p.queue| <= p.buffer && |p.results| <= p.buffer
    && (p.todo != [] ==> p.collected == [])
    && (p.closed ==> p.todo == [] && |p.collected| == n)
    && (forall w :: 0 <= w < |p.workers| && p.workers[w].Exited? ==> p.closed)
  }

  ghost predicate Inv<J(!new)>(p: Pool<J>, jobs: seq<J>) {
    Orderly(p, |jobs|) && forall j :: Occurrences(p, j) == CountIn(jobs, j)
  }

  /** Every step moves a job forward, closes the pool or ends a worker. */
  function Measure<J>(p: Pool<J>): nat {
    5 * |p.todo| + 4 * |p.queue| + Load(p.workers) + |p.results| + if p.closed then 0 else 1
  }

  /** The worker a step changes, and what it becomes. */
  function Changed<J>(p: Pool<J>, n: nat, a: Action): Worker<J>
    requires Enabled(p, n, a)
  {
    match a
    case HandJob(_) => Busy(p.todo[0])
    case Take(_) => Busy(p.queue[0])
    case Finish(w) => Sending(p.workers[w].job)
    case Exit(_) => Exited
    case _ => Idle
  }

  lemma {:induction false} Append<J>(s: seq<J>, x: J, j: J)
    ensures CountIn(s + [x], j) == CountIn(s, j) + Tally(x, j)
  {
    if s == [] {
      assert s + [x] == [x];
    } else {
      Append(s[1..], x, j);
      assert (s + [x])[1..] == s[1..] + [x];
    }
  }

  lemma {:induction false} CountIsMultiplicity<J>(s: seq<J>, j: J)
    ensures CountIn(s, j) == multiset(s)[j]
  {
    if s != [] {
      CountIsMultiplicity(s[1..], j);
      assert s == [s[0]] + s[1..];
    }
  }

  predicate ChangesWorker(a: Action) {
    !(a.AddJob? || a.Collect? || a.Close?)
  }

  /** No step loses or duplicates a job. */
  lemma StepKeepsJob<J>(p: Pool<J>, n: nat, a: Action, j: J)
    requires Enabled(p, n, a)
    ensures Occurrences(Apply(p, n, a), j) == Occurrences(p, j)
  {
    if ChangesWorker(a) {
      HeldOfAfterUpdate(p.workers, a.w, Changed(p, n, a), j);
    }
    match a {
      case AddJob => Append(p.queue, p.todo[0], j);
      case Send(w) => Append(p.results, p.workers[w].job, j);
      case HandResult(w) => Append(p.collected, p.workers[w].job, j);
      case Collect => Append(p.collected, p.results[0], j);
      case _ =>
    }
  }

  lemma StepKeepsOrder<J>(p: Pool<J>, n: nat, a: Action)
    requires Enabled(p, n, a) && Orderly(p, n)
    ensures Orderly(Apply(p, n, a), n)
    ensures Measure(Apply(p, n, a)) < Measure(p)
  {
    if ChangesWorker(a) {
      AfterUpdate(p.workers, a.w, Changed(p, n, a));
    }
  }

  lemma StepKeepsInv<J(!new)>(p: Pool<J>, jobs: seq<J>, a: Action)
    requires Inv(p, jobs) && Enabled(p, |jobs|, a)
    ensures Inv(Apply(p, |jobs|, a), jobs) && Measure(Apply(p, |jobs|, a)) < Measure(p)
  {
    StepKeepsOrder(p, |jobs|, a);
    forall j ensures Occurrences(Apply(p, |jobs|, a), j) == CountIn(jobs, j) {
      StepKeepsJob(p, |jobs|, a, j);
    }
  }

  lemma {:induction false} RunKeepsInv<J(!new)>(p: Pool<J>, jobs: seq<J>, acts: seq<Action>)
    requires Inv(p, jobs) && IsRun(p, |jobs|, acts)
    ensures var q := Run(p, |jobs|, acts); Inv(q, jobs) && q.buffer == p.buffer && |q.workers| == |p.workers|
    ensures |acts| + Measure(Run(p, |jobs|, acts)) <= Measure(p)
    decreases |acts|
  {
    if acts != [] {
      StepKeepsInv(p, jobs, acts[0]);
      RunKeepsInv(Apply(p, |jobs|, acts[0]), jobs, acts[1..]);
    }
  }

  lemma StartInv<J(!new)>(jobs: seq<J>, buffer: nat, workers: nat)
    ensures Inv(Start(jobs, buffer, workers), jobs)
  {
    var p := Start(jobs, buffer, workers);
    HeldBounds(p.workers);
    forall j ensures HeldOf(p.workers, j) == 0 {
      NoneHeld(p.workers, j);
    }
  }

  // ---------------------------------------------------------------- deadlock

  /** Exactly these sizes are safe: the client submits everything before it collects, so all jobs must fit into
      the two channels and the workers. */
  predicate Fits(n: nat, buffer: nat, workers: nat) {
    n == 0 || (workers >= 1 && n <= 2 * buffer + workers)
  }

  lemma SubmittingIsNotStuck<J>(p: Pool<J>, n: nat)
    requires Orderly(p, n) && p.todo != [] && Fits(n, p.buffer, |p.workers|)
    ensures !Stuck(p, n)
  {
    if |p.queue| < p.buffer {
      assert Enabled(p, n, AddJob);
    } else if w :| 0 <= w < |p.workers| && !p.workers[w].Sending? {
      assert Enabled(p, n, if p.workers[w].Busy? then Finish(w) else if p.queue == [] then HandJob(w) else Take(w));
    } else {
      HeldBounds(p.workers);
      assert Enabled(p, n, Send(0));
    }
  }

  lemma CollectingIsNotStuck<J>(p: Pool<J>, n: nat)
    requires Orderly(p, n) && Collecting(p, n) && Fits(n, p.buffer, |p.workers|)
    ensures !Stuck(p, n)
  {
    if p.results != [] {
      assert Enabled(p, n, Collect);
    } else if w :| 0 <= w < |p.workers| && !p.workers[w].Idle? {
      assert Enabled(p, n, if p.workers[w].Busy? then Finish(w) else HandResult(w));
    } else {
      HeldBounds(p.workers);
      assert Enabled(p, n, Take(0));
    }
  }

  lemma ClosingIsNotStuck<J>(p: Pool<J>, n: nat)
    requires Orderly(p, n) && p.todo == [] && !Collecting(p, n) && !Finished(p, n)
    ensures !Stuck(p, n)
  {
    if !p.closed {
      assert Enabled(p, n, Close);
    } else {
      HeldBounds(p.workers);
      var w :| 0 <= w < |p.workers| && !p.workers[w].Exited?;
      assert Enabled(p, n, Exit(w));
    }
  }

  lemma StuckMeansFinished<J>(p: Pool<J>, n: nat)
    requires Orderly(p, n) && Fits(n, p.buffer, |p.workers|) && Stuck(p, n)
    ensures Finished(p, n)
  {
    if p.todo != [] {
      SubmittingIsNotStuck(p, n);
    } else if Collecting(p, n) {
      CollectingIsNotStuck(p, n);
    } else if !Finished(p, n) {
      ClosingIsNotStuck(p, n);
    }
  }

  /** When every worker has returned, the collected results are the submitted jobs. */
  lemma FinishedCollectsAll<J(!new)>(p: Pool<J>, jobs: seq<J>)
    requires Inv(p, jobs) && Finished(p, |jobs|)
    ensures multiset(p.collected) == multiset(jobs)
  {
    HeldBounds(p.workers);
    forall j ensures multiset(p.collected)[j] == multiset(jobs)[j] {
      NoneHeld(p.workers, j);
      CountIsMultiplicity(p.collected, j);
      CountIsMultiplicity(jobs, j);
      assert Occurrences(p, j) == CountIn(jobs, j);
    }
  }

  /** With too many jobs the client never finishes submitting; without a worker it never gets a result. */
  ghost predicate Jammed<J>(p: Pool<J>) {
    if |p.workers| == 0 then p.results == [] && p.collected == [] else p.todo != []
  }

  lemma StepKeepsJam<J>(p: Pool<J>, n: nat, a: Action)
    requires Orderly(p, n) && Enabled(p, n, a) && !Fits(n, p.buffer, |p.workers|) && Jammed(p)
    ensures Jammed(Apply(p, n, a))
  {
    StepKeepsOrder(p, n, a);
    HeldBounds(Apply(p, n, a).workers);
  }

  lemma {:induction false} RunKeepsJam<J>(p: Pool<J>, n: nat, acts: seq<Action>)
    requires Orderly(p, n) && IsRun(p, n, acts) && !Fits(n, p.buffer, |p.workers|) && Jammed(p)
    ensures !Finished(Run(p, n, acts), n)
    decreases |acts|
  {
    if acts != [] {
      StepKeepsOrder(p, n, acts[0]);
      StepKeepsJam(p, n, acts[0]);
      RunKeepsJam(Apply(p, n, acts[0]), n, acts[1..]);
    }
  }

  /** Any schedule can be continued until nothing is enabled. */
  lemma {:induction false} RunUntilStuck<J>(p: Pool<J>, n: nat) returns (acts: seq<Action>)
    requires Orderly(p, n)
    ensures IsRun(p, n, acts) && Stuck(Run(p, n, acts), n)
    decreases Measure(p)
  {
    if Stuck(p, n) {
      acts := [];
    } else {
      var a :| Enabled(p, n, a);
      StepKeepsOrder(p, n, a);
      var rest := RunUntilStuck(Apply(p, n, a), n);
      acts := [a] + rest;
      assert acts[1..] == rest;
    }
  }

  /** No schedule deadlocks, for any jobs, if and only if the sizes fit. */
  lemma DeadlockFreeIff<J(!new)>(jobs: seq<J>, buffer: nat, workers: nat)
    ensures (forall acts :: IsRun(Start(jobs, buffer, workers), |jobs|, acts) ==>
               var p := Run(Start(jobs, buffer, workers), |jobs|, acts); Stuck(p, |jobs|) ==> Finished(p, |jobs|))
       <==> Fits(|jobs|, buffer, workers)
  {
    var p, n := Start(jobs, buffer, workers), |jobs|;
    StartInv(jobs, buffer, workers);
    if Fits(n, buffer, workers) {
      forall acts | IsRun(p, n, acts) && Stuck(Run(p, n, acts), n) ensures Finished(Run(p, n, acts), n) {
        RunKeepsInv(p, jobs, acts);
        StuckMeansFinished(Run(p, n, acts), n);
      }
    } else {
      var acts := RunUntilStuck(p, n);
      RunKeepsJam(p, n, acts);
    }
  }

  /** A plugin's pool (at least one worker, buffers as large as the number of jobs): every schedule is finite,
      and when it can go no further the client holds the result of every job exactly once. */
  lemma PoolCompletes<J(!new)>(jobs: seq<J>, workers: nat, acts: seq<Action>)
    requires workers >= 1 && IsRun(Start(jobs, |jobs|, workers), |jobs|, acts)
    ensures |acts| <= Measure(Start(jobs, |jobs|, workers))
    ensures var p := Run(Start(jobs, |jobs|, workers), |jobs|, acts);
            Stuck(p, |jobs|) ==> Finished(p, |jobs|) && multiset(p.collected) == multiset(jobs)
  {
    StartInv(jobs, |jobs|, workers);
    RunKeepsInv(Start(jobs, |jobs|, workers), jobs, acts);
    var p := Run(Start(jobs, |jobs|, workers), |jobs|, acts);
    if Stuck(p, |jobs|) {
      StuckMeansFinished(p, |jobs|);
      FinishedCollectsAll(p, jobs);
    }
  }
}
