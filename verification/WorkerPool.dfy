/** mapWithConcurrency: runners that share an index and a result array and interleave at their awaits. */
module WorkerPool {
  import opened Basics

  datatype Runner = Ready | Working(index: nat) | Done | Failed(index: nat)

  datatype Claim = Claim(runner: nat, index: nat)

  /** idx and results are the shared variables; claims records who took which index, in order. */
  datatype State<R> = State(idx: nat, results: map<nat, R>, runners: seq<Runner>, claims: seq<Claim>)

  /** The items and what the one call for each yields; None is a rejection. */
  datatype Job<!T, !R> = Job(items: seq<T>, worker: (T, nat) -> Option<R>)

  datatype Step = Take(runner: nat) | Settle(runner: nat)

  function Width(concurrency: int): nat {
    if concurrency > 1 then concurrency else 1
  }

  function Start<R>(concurrency: int): State<R> {
    State(0, map[], seq(Width(concurrency), _ => Ready), [])
  }

  predicate Enabled<T, R>(job: Job<T, R>, s: State<R>, step: Step) {
    step.runner < |s.runners|
    && match s.runners[step.runner]
       case Ready => step.Take?
       case Working(i) => step.Settle? && i < |job.items|
       case _ => false
  }

  /** From one await to the next: test idx and take it, or leave the loop. */
  function Taken<T, R>(job: Job<T, R>, s: State<R>, r: nat): State<R>
    requires r < |s.runners|
  {
    if s.idx < |job.items| then
      s.(idx := s.idx + 1, runners := s.runners[r := Working(s.idx)], claims := s.claims + [Claim(r, s.idx)])
    else
      s.(runners := s.runners[r := Done])
  }

  /** The awaited call settles. */
  function Settled<T, R>(job: Job<T, R>, s: State<R>, r: nat): State<R>
    requires r < |s.runners| && s.runners[r].Working? && s.runners[r].index < |job.items|
  {
    var i := s.runners[r].index;
    match job.worker(job.items[i], i)
    case Some(v) => s.(results := s.results[i := v], runners := s.runners[r := Ready])
    case None => s.(runners := s.runners[r := Failed(i)])
  }

  function After<T, R>(job: Job<T, R>, s: State<R>, step: Step): State<R>
    requires Enabled(job, s, step)
  {
    if step.Take? then Taken(job, s, step.runner) else Settled(job, s, step.runner)
  }

  /** The state after a schedule of steps, if each was enabled in its turn. */
  function Run<T, R>(job: Job<T, R>, concurrency: int, schedule: seq<Step>): Option<State<R>> {
    if schedule == [] then Some(Start(concurrency))
    else
      var before := Run(job, concurrency, schedule[..|schedule| - 1]);
      var step := schedule[|schedule| - 1];
      if before.Some? && Enabled(job, before.value, step) then Some(After(job, before.value, step)) else None
  }

  /** Runner r is in charge of index i: working on it, or failed on it. */
  predicate Holds<R>(s: State<R>, r: nat, i: nat) {
    r < |s.runners| && (s.runners[r] == Working(i) || s.runners[r] == Failed(i))
  }

  /** What a stopped or settled runner shows about the job. */
  ghost predicate RunnerInv<T, R>(job: Job<T, R>, s: State<R>, r: nat)
    requires r < |s.runners|
  {
    match s.runners[r]
    case Ready => true
    case Working(i) => i < |job.items|
    case Failed(i) => i < |job.items| && job.worker(job.items[i], i) == None
    case Done => s.idx == |job.items|
  }

  /** The claims are 0, 1, 2, ... once each; an index is held by its claimer alone, or its result is in. */
  ghost predicate Inv<T, R>(job: Job<T, R>, s: State<R>) {
    && s.idx == |s.claims| <= |job.items|
    && (forall i :: 0 <= i < |s.claims| ==> s.claims[i].index == i && s.claims[i].runner < |s.runners|)
    && (forall r: nat, i: nat :: Holds(s, r, i) ==> i < s.idx && s.claims[i].runner == r && i !in s.results)
    && (forall i: nat :: i < s.idx && i !in s.results ==> Holds(s, s.claims[i].runner, i))
    && (forall i :: i in s.results ==> i < s.idx && job.worker(job.items[i], i) == Some(s.results[i]))
    && (forall r: nat :: r < |s.runners| ==> RunnerInv(job, s, r))
  }

  lemma StartInv<T, R>(job: Job<T, R>, concurrency: int)
    ensures Inv(job, Start<R>(concurrency))
  {
  }

  lemma TakenInv<T, R>(job: Job<T, R>, s: State<R>, r: nat)
    requires Inv(job, s) && r < |s.runners| && s.runners[r].Ready?
    ensures Inv(job, Taken(job, s, r))
  {
    var t := Taken(job, s, r);
    forall q: nat, i: nat | Holds(t, q, i) ensures i < t.idx && t.claims[i].runner == q && i !in t.results {
      assert q == r || Holds(s, q, i);
    }
    forall i: nat | i < t.idx && i !in t.results ensures Holds(t, t.claims[i].runner, i) {
      assert i < s.idx ==> Holds(s, s.claims[i].runner, i);
    }
    forall q: nat | q < |t.runners| ensures RunnerInv(job, t, q) {
      assert RunnerInv(job, s, q);
    }
  }

  lemma SettledInv<T, R>(job: Job<T, R>, s: State<R>, r: nat)
    requires Inv(job, s) && r < |s.runners| && s.runners[r].Working? && s.runners[r].index < |job.items|
    ensures Inv(job, Settled(job, s, r))
  {
    var t := Settled(job, s, r);
    assert Holds(s, r, s.runners[r].index);
    forall q: nat, i: nat | Holds(t, q, i) ensures i < t.idx && t.claims[i].runner == q && i !in t.results {
      assert Holds(s, q, i);
    }
    forall i: nat | i < t.idx && i !in t.results ensures Holds(t, t.claims[i].runner, i) {
      assert Holds(s, s.claims[i].runner, i);
    }
    forall q: nat | q < |t.runners| ensures RunnerInv(job, t, q) {
      assert RunnerInv(job, s, q);
    }
  }

  /** Every interleaving keeps the invariant. */
  lemma {:induction false} RunInv<T, R>(job: Job<T, R>, concurrency: int, schedule: seq<Step>)
    requires Run(job, concurrency, schedule).Some?
    ensures var s := Run(job, concurrency, schedule).value; Inv(job, s) && |s.runners| == Width(concurrency)
  {
    if schedule == [] {
      StartInv(job, concurrency);
    } else {
      RunInv(job, concurrency, schedule[..|schedule| - 1]);
      var s, step := Run(job, concurrency, schedule[..|schedule| - 1]).value, schedule[|schedule| - 1];
      if step.Take? { TakenInv(job, s, step.runner); } else { SettledInv(job, s, step.runner); }
    }
  }

  ghost predicate InFlight<R>(s: State<R>, i: nat) {
    exists r: nat :: r < |s.runners| && s.runners[r] == Working(i)
  }

  /** The indices runners 0 .. n-1 work on. */
  function WorkingSet(runners: seq<Runner>): (w: set<nat>)
    ensures |w| <= |runners|
  {
    if runners == [] then {}
    else
      var last := runners[|runners| - 1];
      WorkingSet(runners[..|runners| - 1]) + if last.Working? then {last.index} else {}
  }

  lemma {:induction false} WorkingSetHolds(runners: seq<Runner>, i: nat)
    ensures i in WorkingSet(runners) <==> exists r: nat :: r < |runners| && runners[r] == Working(i)
  {
    if runners != [] {
      var init, last := runners[..|runners| - 1], runners[|runners| - 1];
      WorkingSetHolds(init, i);
      if r: nat :| r < |runners| && runners[r] == Working(i) {
        assert r < |init| ==> init[r] == Working(i);
      }
      if r: nat :| r < |init| && init[r] == Working(i) {
        assert runners[r] == Working(i);
      }
    }
  }

  /**
   * Whatever the interleaving: index k is the k-th one claimed, by one runner, which is the only one ever
   * to hold it; and never more than max(1, concurrency) items are in flight.
   */
  lemma ExactlyOnce<T, R>(job: Job<T, R>, concurrency: int, schedule: seq<Step>) returns (flying: set<nat>)
    requires Run(job, concurrency, schedule).Some?
    ensures var s := Run(job, concurrency, schedule).value;
      && (forall k :: 0 <= k < |s.claims| ==> s.claims[k].index == k)
      && (forall q: nat, r: nat, i: nat :: Holds(s, q, i) && Holds(s, r, i) ==> q == r)
      && (forall i: nat :: i in flying <==> InFlight(s, i))
      && |flying| <= |s.runners| == if concurrency < 1 then 1 else concurrency
  {
    RunInv(job, concurrency, schedule);
    var s := Run(job, concurrency, schedule).value;
    flying := WorkingSet(s.runners);
    forall i: nat ensures i in flying <==> InFlight(s, i) {
      WorkingSetHolds(s.runners, i);
    }
  }

  predicate Stopped<R>(s: State<R>) {
    forall r :: 0 <= r < |s.runners| ==> s.runners[r].Done? || s.runners[r].Failed?
  }

  predicate AllDone<R>(s: State<R>) {
    forall r :: 0 <= r < |s.runners| ==> s.runners[r].Done?
  }

  /** When all runners are through the loop, the results are complete and in item order, whatever the schedule. */
  lemma ResultsInItemOrder<T, R>(job: Job<T, R>, concurrency: int, schedule: seq<Step>)
    requires Run(job, concurrency, schedule).Some? && AllDone(Run(job, concurrency, schedule).value)
    ensures var results := Run(job, concurrency, schedule).value.results;
      forall i: nat :: (i in results <==> i < |job.items|)
                       && (i in results ==> job.worker(job.items[i], i) == Some(results[i]))
  {
    RunInv(job, concurrency, schedule);
    CompleteWhenDone(job, Run(job, concurrency, schedule).value);
  }

  lemma CompleteWhenDone<T, R>(job: Job<T, R>, s: State<R>)
    requires Inv(job, s) && AllDone(s) && s.runners != []
    ensures forall i: nat :: (i in s.results <==> i < |job.items|)
                             && (i in s.results ==> job.worker(job.items[i], i) == Some(s.results[i]))
  {
    assert RunnerInv(job, s, 0);
    forall i: nat | i < |job.items| ensures i in s.results {
      assert i in s.results || Holds(s, s.claims[i].runner, i);
    }
  }

  /** A rejection does not stop the other runners: if one gets through the loop, every item was claimed. */
  lemma RejectionStopsOnlyItsRunner<T, R>(job: Job<T, R>, concurrency: int, schedule: seq<Step>)
    requires Run(job, concurrency, schedule).Some? && Stopped(Run(job, concurrency, schedule).value)
    ensures var s := Run(job, concurrency, schedule).value;
      (exists r: nat :: r < |s.runners| && s.runners[r].Done?) ==>
        s.idx == |job.items|
        && forall i: nat :: i < |job.items| && i !in s.results ==> job.worker(job.items[i], i) == None
  {
    RunInv(job, concurrency, schedule);
    var s := Run(job, concurrency, schedule).value;
    if r: nat :| r < |s.runners| && s.runners[r].Done? {
      assert RunnerInv(job, s, r);
      forall i: nat | i < |job.items| && i !in s.results ensures job.worker(job.items[i], i) == None {
        assert Holds(s, s.claims[i].runner, i);
        assert RunnerInv(job, s, s.claims[i].runner);
      }
    }
  }

  // ---- the method ----

  function Weight(runners: seq<Runner>): nat {
    if runners == [] then 0
    else
      Weight(runners[..|runners| - 1]) +
      match runners[|runners| - 1] case Ready => 1 case Working(_) => 2 case _ => 0
  }

  lemma {:induction false} WeightChange(runners: seq<Runner>, r: nat, to: Runner)
    requires r < |runners|
    ensures Weight(runners[r := to]) - Weight([to]) == Weight(runners) - Weight([runners[r]])
  {
    var init, last := runners[..|runners| - 1], runners[|runners| - 1];
    var updated := runners[r := to];
    assert forall x: Runner :: [x][..0] == [];
    if r < |init| {
      WeightChange(init, r, to);
      assert updated[..|updated| - 1] == init[r := to];
    } else {
      assert updated[..|updated| - 1] == init;
    }
  }

  function Measure<T, R>(job: Job<T, R>, s: State<R>): int {
    3 * (|job.items| - s.idx) + Weight(s.runners)
  }

  /** Every step brings the end closer. */
  lemma StepShrinks<T, R>(job: Job<T, R>, s: State<R>, step: Step)
    requires Enabled(job, s, step)
    ensures Measure(job, After(job, s, step)) < Measure(job, s)
  {
    var r := step.runner;
    WeightChange(s.runners, r, After(job, s, step).runners[r]);
  }

  class Pool<T, R> {
    const job: Job<T, R>
    var idx: nat
    var results: map<nat, R>
    var runners: seq<Runner>
    ghost var claims: seq<Claim>

    constructor (job: Job<T, R>, concurrency: int)
      ensures this.job == job && View() == Start(concurrency)
    {
      this.job := job;
      idx := 0;
      results := map[];
      runners := seq(Width(concurrency), _ => Ready);
      claims := [];
    }

    ghost function View(): State<R>
      reads this
    {
      State(idx, results, runners, claims)
    }

    method Take(r: nat)
      requires Enabled(job, View(), Step.Take(r))
      modifies this
      ensures View() == old(Taken(job, View(), r))
    {
      if idx < |job.items| {
        var myIdx := idx;
        idx := idx + 1;
        runners := runners[r := Working(myIdx)];
        claims := claims + [Claim(r, myIdx)];
      } else {
        runners := runners[r := Done];
      }
    }

    method Settle(r: nat)
      requires Enabled(job, View(), Step.Settle(r))
      modifies this
      ensures View() == old(Settled(job, View(), r))
    {
      var i := runners[r].index;
      var outcome := job.worker(job.items[i], i);
      if outcome.Some? {
        results := results[i := outcome.value];
        runners := runners[r := Ready];
      } else {
        runners := runners[r := Failed(i)];
      }
    }
  }

  /**
   * Promise.all over the runners, under any scheduler: it resolves, with every result at its item's
   * place, if and only if no call rejects.
   */
  method MapWithConcurrency<T, R>(job: Job<T, R>, concurrency: int) returns (out: Option<seq<R>>)
    ensures out.Some? <==> forall i: nat :: i < |job.items| ==> job.worker(job.items[i], i).Some?
    ensures out.Some? ==> |out.value| == |job.items|
                          && forall i: nat :: i < |job.items| ==> job.worker(job.items[i], i) == Some(out.value[i])
  {
    var pool := new Pool(job, concurrency);
    StartInv(job, concurrency);
    while exists r :: 0 <= r < |pool.runners| && (pool.runners[r].Ready? || pool.runners[r].Working?)
      invariant pool.job == job && Inv(job, pool.View()) && |pool.runners| > 0
      invariant forall r: nat :: r < |pool.runners| ==> !pool.runners[r].Failed?
      decreases Measure(job, pool.View())
    {
      var r: nat :| r < |pool.runners| && (pool.runners[r].Ready? || pool.runners[r].Working?);
      assert RunnerInv(job, pool.View(), r);
      ghost var before := pool.View();
      if pool.runners[r].Ready? {
        TakenInv(job, before, r);
        StepShrinks(job, before, Step.Take(r));
        pool.Take(r);
      } else {
        SettledInv(job, before, r);
        StepShrinks(job, before, Step.Settle(r));
        pool.Settle(r);
      }
      if pool.runners[r].Failed? {
        assert RunnerInv(job, pool.View(), r);
        return None;
      }
    }
    CompleteWhenDone(job, pool.View());
    var collected := pool.results;
    out := Some(seq(|job.items|, i requires 0 <= i < |job.items| && i in collected => collected[i]));
  }
}
