/**
 Dispatching many invocations: one after the other, or by workers that share an index and write into one array. What a worker does
 between two awaits is one step; which worker moves next is arbitrary. A single dispatch answers every call, failures included.
 */
module ToolsDispatcher {
  import opened Wrappers

  type Invocation = string
  type Outcome = string

  /** How many workers are started: four unless said otherwise, at least one, no more than there are invocations. */
  function WorkerCount(wanted: Option<int>, n: nat): (c: nat)
    ensures c <= n && (n > 0 ==> c > 0) && (wanted.Some? && wanted.value >= 1 ==> c <= wanted.value) && (wanted.None? ==> c <= 4)
  {
    Min(Max(1, if wanted.Some? then wanted.value else 4), n)
  }

  // ---------------------------------------------------------------- the pool

  datatype Worker = Ready | InFlight(index: nat) | Done | Failed(index: nat)

  /** `taken` and `returned` are history: the indices in the order they were taken, and what dispatching each one answered. */
  datatype Pool = Pool(
    nextIndex: nat,
    results: seq<Option<Outcome>>,
    workers: seq<Worker>,
    taken: seq<nat>,
    returned: map<nat, Outcome>)

  function Start(n: nat, workers: nat): Pool {
    Pool(0, seq(n, _ => None), seq(workers, _ => Ready), [], map[])
  }

  datatype Step = Take(worker: nat, aborted: bool) | Return(worker: nat, outcome: Outcome)

  predicate Enabled(p: Pool, step: Step) {
    step.worker < |p.workers| && (if step.Take? then p.workers[step.worker].Ready? else p.workers[step.worker].InFlight?)
  }

  function Next(p: Pool, step: Step): Pool
    requires Enabled(p, step)
    requires step.Return? ==> p.workers[step.worker].index < |p.results|
  {
    match step
    case Take(k, aborted) =>
      var i := p.nextIndex;
      if i >= |p.results| then p.(nextIndex := i + 1, workers := p.workers[k := Done])
      else if aborted then p.(nextIndex := i + 1, workers := p.workers[k := Failed(i)], taken := p.taken + [i])
      else p.(nextIndex := i + 1, workers := p.workers[k := InFlight(i)], taken := p.taken + [i])
    case Return(k, outcome) =>
      var i := p.workers[k].index;
      p.(results := p.results[i := Some(outcome)], workers := p.workers[k := Ready], returned := p.returned[i := outcome])
  }

  function TakenCount(p: Pool): nat {
    Min(p.nextIndex, |p.results|)
  }

  predicate WorkerFits(p: Pool, k: nat)
    requires k < |p.workers|
  {
    match p.workers[k]
    case InFlight(i) => i < TakenCount(p) && i !in p.returned
    case Failed(i) => i < TakenCount(p) && i !in p.returned
    case Done => p.nextIndex >= |p.results|
    case Ready => true
  }

  /** A worker keeps the index it took until its dispatch answers; a failed worker keeps it for good. */
  predicate Holds(p: Pool, k: nat, i: nat)
    requires k < |p.workers|
  {
    p.workers[k] == InFlight(i) || p.workers[k] == Failed(i)
  }

  predicate Held(p: Pool, i: nat) {
    exists k :: 0 <= k < |p.workers| && Holds(p, k, i)
  }

  ghost predicate NoIndexTwice(p: Pool) {
    forall j, k, i: nat :: 0 <= j < |p.workers| && 0 <= k < |p.workers| && Holds(p, j, i) && Holds(p, k, i) ==> j == k
  }

  /** Every index below the shared counter was taken once, and is answered or still with its worker. */
  ghost predicate Inv(p: Pool) {
    && p.taken == seq(TakenCount(p), i => i)
    && (forall k :: 0 <= k < |p.workers| ==> WorkerFits(p, k))
    && NoIndexTwice(p)
    && (forall i :: 0 <= i < TakenCount(p) ==> i in p.returned || Held(p, i))
    && (forall i <- p.returned :: i < TakenCount(p))
    && (forall i :: 0 <= i < |p.results| ==> p.results[i] == if i in p.returned then Some(p.returned[i]) else None)
  }

  predicate AllDone(p: Pool) {
    forall k :: 0 <= k < |p.workers| ==> p.workers[k].Done?
  }

  lemma StartInv(n: nat, workers: nat)
    ensures Inv(Start(n, workers))
  {
  }

  lemma TakeKeepsInv(p: Pool, k: nat, aborted: bool)
    requires Inv(p) && Enabled(p, Take(k, aborted))
    ensures Inv(Next(p, Take(k, aborted)))
  {
    var q, i := Next(p, Take(k, aborted)), p.nextIndex;
    forall j | 0 <= j < |q.workers| ensures WorkerFits(q, j) {
      assert WorkerFits(p, j);
    }
    forall j | 0 <= j < TakenCount(q) ensures j in q.returned || Held(q, j) {
      if j == i {
        assert Holds(q, k, i);
      } else if j !in p.returned {
        var h :| 0 <= h < |p.workers| && Holds(p, h, j);
        assert Holds(q, h, j);
      }
    }
    forall j: nat, h: nat, x: nat | j < |q.workers| && h < |q.workers| && Holds(q, j, x) && Holds(q, h, x) ensures j == h {
      assert WorkerFits(p, j) && WorkerFits(p, h);
      assert j != k ==> Holds(p, j, x);
      assert h != k ==> Holds(p, h, x);
    }
  }

  lemma ReturnKeepsInv(p: Pool, k: nat, outcome: Outcome)
    requires Inv(p) && Enabled(p, Return(k, outcome))
    ensures p.workers[k].index < |p.results|
    ensures Inv(Next(p, Return(k, outcome)))
  {
    assert WorkerFits(p, k);
    var i := p.workers[k].index;
    var q := Next(p, Return(k, outcome));
    assert Holds(p, k, i);
    forall j | 0 <= j < |q.workers| ensures WorkerFits(q, j) {
      assert WorkerFits(p, j);
      assert j != k ==> !Holds(p, j, i);
    }
    forall j | 0 <= j < TakenCount(q) ensures j in q.returned || Held(q, j) {
      if j !in q.returned {
        var h :| 0 <= h < |p.workers| && Holds(p, h, j);
        assert Holds(q, h, j);
      }
    }
    forall j: nat, h: nat, x: nat | j < |q.workers| && h < |q.workers| && Holds(q, j, x) && Holds(q, h, x) ensures j == h {
      assert Holds(p, j, x) && Holds(p, h, x);
    }
  }

  lemma StepKeepsInv(p: Pool, step: Step)
    requires Inv(p) && Enabled(p, step)
    ensures step.Return? ==> p.workers[step.worker].index < |p.results|
    ensures Inv(Next(p, step)) && |Next(p, step).results| == |p.results| && |Next(p, step).workers| == |p.workers|
  {
    match step
    case Take(k, aborted) => TakeKeepsInv(p, k, aborted);
    case Return(k, outcome) => ReturnKeepsInv(p, k, outcome);
  }

  // ---------------------------------------------------------------- what the pool promises

  /** A pool whose workers are all done has dispatched every invocation once, in order of index, and kept every answer in its place. */
  lemma DoneMeansAllAnswered(p: Pool)
    requires Inv(p) && AllDone(p) && (p.results == [] || p.workers != [])
    ensures p.taken == seq(|p.results|, i => i)
    ensures forall i :: 0 <= i < |p.results| ==> i in p.returned && p.results[i] == Some(p.returned[i])
  {
    if p.results != [] {
      assert WorkerFits(p, 0);
      forall i | 0 <= i < |p.results| ensures i in p.returned {
        assert !Held(p, i);
      }
    }
  }

  lemma InFlightIsInRange(p: Pool, k: nat)
    requires Inv(p) && k < |p.workers| && p.workers[k].InFlight?
    ensures p.workers[k].index < |p.results|
  {
    assert WorkerFits(p, k);
  }

  lemma DoneMeansAllTaken(p: Pool)
    requires Inv(p) && AllDone(p) && (p.results == [] || p.workers != [])
    ensures p.nextIndex >= |p.results|
  {
    if p.results != [] {
      assert WorkerFits(p, 0);
    }
  }

  /** The indices whose dispatch is under way. */
  ghost function InFlightIndices(workers: seq<Worker>): set<nat> {
    if workers == [] then {}
    else (if workers[0].InFlight? then {workers[0].index} else {}) + InFlightIndices(workers[1..])
  }

  /** No more than one dispatch per worker is under way. */
  lemma {:induction false} InFlightIsBounded(workers: seq<Worker>)
    ensures |InFlightIndices(workers)| <= |workers|
  {
    if workers != [] {
      InFlightIsBounded(workers[1..]);
    }
  }

  function Weight(worker: Worker): nat {
    if worker.InFlight? then 2 else if worker.Ready? then 1 else 0
  }

  function Weights(workers: seq<Worker>): nat {
    if workers == [] then 0 else Weight(workers[0]) + Weights(workers[1..])
  }

  lemma {:induction false} WeightsUpdate(workers: seq<Worker>, k: nat, worker: Worker)
    requires k < |workers|
    ensures Weights(workers[k := worker]) == Weights(workers) - Weight(workers[k]) + Weight(worker)
  {
    if k == 0 {
      assert workers[k := worker][1..] == workers[1..];
    } else {
      WeightsUpdate(workers[1..], k - 1, worker);
      assert workers[k := worker][1..] == workers[1..][k - 1 := worker];
    }
  }

  /** Steps left at most. */
  function Measure(p: Pool): nat {
    2 * (|p.results| - TakenCount(p)) + Weights(p.workers)
  }

  lemma StepsRunOut(p: Pool, step: Step)
    requires Inv(p) && Enabled(p, step)
    ensures step.Return? ==> p.workers[step.worker].index < |p.results|
    ensures Measure(Next(p, step)) < Measure(p)
  {
    StepKeepsInv(p, step);
    WeightsUpdate(p.workers, step.worker, Next(p, step).workers[step.worker]);
  }

  /** A pool is stuck only when every worker is done or has failed. */
  lemma StuckMeansSettled(p: Pool)
    ensures (forall step: Step :: !Enabled(p, step)) <==> forall k :: 0 <= k < |p.workers| ==> p.workers[k].Done? || p.workers[k].Failed?
  {
    forall k | 0 <= k < |p.workers|
      ensures p.workers[k].Ready? ==> Enabled(p, Take(k, false))
      ensures p.workers[k].InFlight? ==> Enabled(p, Return(k, ""))
    {
    }
  }

  ghost predicate Reaches(p: Pool, steps: seq<Step>, q: Pool)
    decreases |steps|
  {
    if steps == [] then p == q
    else
      && Enabled(p, steps[0])
      && (steps[0].Return? ==> p.workers[steps[0].worker].index < |p.results|)
      && Reaches(Next(p, steps[0]), steps[1..], q)
  }

  lemma {:induction false} RunsKeepInv(p: Pool, steps: seq<Step>, q: Pool)
    requires Inv(p) && Reaches(p, steps, q)
    ensures Inv(q) && |q.results| == |p.results| && |q.workers| == |p.workers|
    ensures Measure(q) + |steps| <= Measure(p)
    decreases |steps|
  {
    hide Inv, Measure;
    if steps != [] {
      StepKeepsInv(p, steps[0]);
      StepsRunOut(p, steps[0]);
      RunsKeepInv(Next(p, steps[0]), steps[1..], q);
    }
  }

  /** A check that finds the signal aborted, while there is an invocation to take, fails the worker; and so the whole pool, for good. */
  lemma {:induction false} AbortFailsThePool(p: Pool, k: nat, steps: seq<Step>, q: Pool)
    requires Inv(p) && Enabled(p, Take(k, true)) && p.nextIndex < |p.results| && Reaches(Next(p, Take(k, true)), steps, q)
    ensures k < |q.workers| && q.workers[k] == Failed(p.nextIndex) && p.nextIndex !in q.returned && !AllDone(q)
  {
    StepKeepsInv(p, Take(k, true));
    FailedStaysFailed(Next(p, Take(k, true)), k, p.nextIndex, steps, q);
  }

  lemma {:induction false} FailedStaysFailed(p: Pool, k: nat, i: nat, steps: seq<Step>, q: Pool)
    requires Inv(p) && k < |p.workers| && p.workers[k] == Failed(i) && Reaches(p, steps, q)
    ensures k < |q.workers| && q.workers[k] == Failed(i) && i !in q.returned && !AllDone(q)
    decreases |steps|
  {
    if steps == [] {
      assert WorkerFits(p, k);
    } else {
      StepKeepsInv(p, steps[0]);
      hide Inv;
      FailedStaysFailed(Next(p, steps[0]), k, i, steps[1..], q);
    }
  }

  lemma {:induction false} ReadyWeights(workers: seq<Worker>)
    requires forall k :: 0 <= k < |workers| ==> workers[k].Ready?
    ensures Weights(workers) == |workers|
  {
    if workers != [] {
      ReadyWeights(workers[1..]);
    }
  }

  /**
   Every interleaving of the workers: at most the configured number of dispatches is under way, there are at most three steps for
   each invocation, and once the workers are done each index was dispatched exactly once and its answer is in its place.
   */
  lemma EveryInterleavingAnswersAll(n: nat, wanted: Option<int>, steps: seq<Step>, q: Pool)
    requires Reaches(Start(n, WorkerCount(wanted, n)), steps, q)
    ensures |InFlightIndices(q.workers)| <= WorkerCount(wanted, n)
    ensures |steps| <= 3 * n && |q.results| == n
    ensures AllDone(q) ==> q.taken == seq(n, i => i)
    ensures AllDone(q) ==> forall i :: 0 <= i < n ==> i in q.returned && q.results[i] == Some(q.returned[i])
  {
    hide Reaches, AllDone;
    var p := Start(n, WorkerCount(wanted, n));
    StartInv(n, WorkerCount(wanted, n));
    RunsKeepInv(p, steps, q);
    ReadyWeights(p.workers);
    InFlightIsBounded(q.workers);
    if AllDone(q) {
      DoneMeansAllAnswered(q);
    }
  }

  // ---------------------------------------------------------------- dispatching, in place

  /** What a sequence of single dispatches answers. */
  function Outcomes(dispatch: Invocation -> Outcome, invocations: seq<Invocation>): (r: seq<Outcome>)
    ensures |r| == |invocations| && forall i :: 0 <= i < |r| ==> r[i] == dispatch(invocations[i])
  {
    seq(|invocations|, i requires 0 <= i < |invocations| => dispatch(invocations[i]))
  }

  /** `abortedAt` is the first check at which the signal is found aborted, if any. */
  method DispatchSequential(dispatch: Invocation -> Outcome, invocations: seq<Invocation>, abortedAt: Option<nat>)
    returns (r: Option<seq<Outcome>>, dispatched: seq<Invocation>)
    ensures r.Some? <==> abortedAt.None? || abortedAt.value >= |invocations|
    ensures r.Some? ==> r.value == Outcomes(dispatch, invocations)
    ensures dispatched == if r.Some? then invocations else invocations[..abortedAt.value]
  {
    var results: seq<Outcome> := [];
    var i := 0;
    while i < |invocations|
      invariant i <= |invocations| && (abortedAt.Some? ==> i <= abortedAt.value)
      invariant results == Outcomes(dispatch, invocations[..i])
    {
      if abortedAt == Some(i) {
        return None, invocations[..i];
      }
      results := results + [dispatch(invocations[i])];
      i := i + 1;
    }
    assert invocations[..i] == invocations;
    return Some(results), invocations;
  }

  /** The variables that the workers share. */
  class ParallelRun {
    var nextIndex: nat
    var results: seq<Option<Outcome>>
    var workers: seq<Worker>
    ghost var taken: seq<nat>
    ghost var returned: map<nat, Outcome>

    ghost function View(): Pool
      reads this
    {
      Pool(nextIndex, results, workers, taken, returned)
    }

    constructor (n: nat, wanted: Option<int>)
      ensures View() == Start(n, WorkerCount(wanted, n))
    {
      nextIndex, results := 0, seq(n, _ => None);
      workers := seq(WorkerCount(wanted, n), _ => Ready);
      taken, returned := [], map[];
    }

    /** A worker takes the next index; `proceeds` tells whether it dispatches. */
    method Take(k: nat, aborted: bool) returns (proceeds: bool)
      requires Enabled(View(), Step.Take(k, aborted))
      modifies this
      ensures View() == Next(old(View()), Step.Take(k, aborted))
      ensures proceeds <==> workers[k] == InFlight(old(nextIndex))
    {
      var index := nextIndex;
      nextIndex := nextIndex + 1;
      if index >= |results| {
        workers := workers[k := Done];
        return false;
      }
      taken := taken + [index];
      if aborted {
        workers := workers[k := Failed(index)];
        return false;
      }
      workers := workers[k := InFlight(index)];
      return true;
    }

    /** A dispatch answers, and its worker stores the answer. */
    method Return(k: nat, outcome: Outcome)
      requires Enabled(View(), Step.Return(k, outcome)) && workers[k].index < |results|
      modifies this
      ensures View() == Next(old(View()), Step.Return(k, outcome))
    {
      var index := workers[k].index;
      results := results[index := Some(outcome)];
      workers := workers[k := Ready];
      returned := returned[index := outcome];
    }
  }

  /** The worker that moves next is arbitrary. */
  method Schedule(workers: seq<Worker>) returns (k: nat)
    requires exists i :: 0 <= i < |workers| && !workers[i].Done?
    ensures k < |workers| && !workers[k].Done?
  {
    k :| 0 <= k < |workers| && !workers[k].Done?;
  }

  /**
   Whatever the schedule, the parallel mode answers exactly when the sequential mode does, and the same: unless one of the checks, of
   which there is one before each invocation, finds the signal aborted. It never answers with a place left empty.
   */
  method DispatchParallel(dispatch: Invocation -> Outcome, invocations: seq<Invocation>, wanted: Option<int>, abortedAt: Option<nat>)
    returns (r: Option<seq<Outcome>>)
    ensures r.Some? <==> abortedAt.None? || abortedAt.value >= |invocations|
    ensures r.Some? ==> r.value == Outcomes(dispatch, invocations)
  {
    hide Inv, Measure, WorkerFits, TakenCount;
    var pool := new ParallelRun(|invocations|, wanted);
    StartInv(|invocations|, WorkerCount(wanted, |invocations|));
    var checks: nat := 0;
    while exists k :: 0 <= k < |pool.workers| && !pool.workers[k].Done?
      invariant fresh(pool) && Inv(pool.View())
      invariant |pool.results| == |invocations| && |pool.workers| == WorkerCount(wanted, |invocations|)
      invariant forall i <- pool.returned :: i < |invocations| && pool.returned[i] == dispatch(invocations[i])
      invariant forall k :: 0 <= k < |pool.workers| ==> !pool.workers[k].Failed?
      invariant checks == Min(pool.nextIndex, |invocations|)
      invariant abortedAt.Some? ==> checks <= abortedAt.value
      decreases Measure(pool.View())
    {
      var k := Schedule(pool.workers);
      if pool.workers[k].Ready? {
        var aborted := abortedAt.Some? && checks >= abortedAt.value;
        StepKeepsInv(pool.View(), Step.Take(k, aborted));
        StepsRunOut(pool.View(), Step.Take(k, aborted));
        var proceeds := pool.Take(k, aborted);
        if pool.workers[k].Failed? {
          return None;
        }
        checks := if pool.workers[k].InFlight? then checks + 1 else checks;
      } else {
        InFlightIsInRange(pool.View(), k);
        var index := pool.workers[k].index;
        var outcome := dispatch(invocations[index]);
        StepsRunOut(pool.View(), Step.Return(k, outcome));
        StepKeepsInv(pool.View(), Step.Return(k, outcome));
        pool.Return(k, outcome);
      }
    }
    DoneMeansAllTaken(pool.View());
    DoneMeansAllAnswered(pool.View());
    var answers := Stored(pool.results);
    assert answers == Outcomes(dispatch, invocations);
    return Some(answers);
  }

  function Stored(results: seq<Option<Outcome>>): (answers: seq<Outcome>)
    ensures |answers| == |results| && forall i :: 0 <= i < |results| && results[i].Some? ==> answers[i] == results[i].value
  {
    seq(|results|, i requires 0 <= i < |results| => if results[i].Some? then results[i].value else "")
  }
}
