/**
 * Which provider calls a run of generate() makes, in which order, and how it ends: a function of how
 * each call ended and of the candidates, stated without the program's own retry decision.
 */
module AttemptSequence {
  import opened Basics
  import opened ToolReplayFence
  import opened ResumedLoop
  import opened Retry
  import opened LlmExecutor
  import opened ExecutorGuarantees
  import opened ReplayWindow
  import F = FenceSafety

  /** What follows a call: its answer is returned, the run throws, the model is tried again, or given up. */
  datatype Fate = Answers | Stops | Retries | GivesUp

  /** The steps a failed call leaves to be resumed: up to the last one that ends in a tool message. */
  ghost predicate Leaves(o: Options, call: ProviderCall, n: nat, left: seq<Step>)
    requires o.script(n).end.Broke?
  {
    var steps := call.resumed.steps + o.script(n).end.completed;
    && left <= steps
    && (left != [] ==> LastRole(left[|left| - 1]) == Some(Tool))
    && forall i :: |left| <= i < |steps| ==> LastRole(steps[i]) != Some(Tool)
  }

  /** After the n-th call failed, every recorded action has its result among the steps that it leaves. */
  ghost predicate NothingMissing(o: Options, call: ProviderCall, n: nat)
    requires o.script(n).end.Broke?
  {
    exists left :: Leaves(o, call, n, left) && AllCompletedIn(FailedWorld(o, call, n).fence, Results(left))
  }

  ghost function FateOf(o: Options, call: ProviderCall, n: nat): Fate {
    match o.script(n).end
    case Completed(_) => Answers
    case Broke(_, error) =>
      if !NothingMissing(o, call, n) then Stops
      else if error.category != NonRetryable && call.attempt < BoundedModelAttempts(o.config.maxRetries) then Retries
      else GivesUp
  }

  /** Where a failed call leaves the tools: after the wait, if there is one. */
  ghost function WorldAfter(o: Options, call: ProviderCall, n: nat): F.World
    requires o.script(n).end.Broke?
  {
    var failed := FailedWorld(o, call, n);
    if FateOf(o, call, n) == Retries then F.Run(o.policy, failed, o.script(n).waiting) else failed
  }

  // ---- one call ----

  lemma LeftIsSelected(o: Options, call: ProviderCall, n: nat, left: seq<Step>)
    requires o.script(n).end.Broke?
    ensures var steps := call.resumed.steps + o.script(n).end.completed;
      Leaves(o, call, n, left) <==> left == steps[..ResumableLength(steps)]
  {
    var steps := call.resumed.steps + o.script(n).end.completed;
    var end := ResumableLength(steps);
    assert end > 0 ==> LastRole(steps[end - 1]) == Some(Tool);
    assert left != [] && left <= steps ==> left[|left| - 1] == steps[|left| - 1];
  }

  lemma CapIsBound(config: Config)
    ensures Cap(config) == BoundedModelAttempts(config.maxRetries)
  {
    var n := BoundedModelAttempts(config.maxRetries);
    assert (n as real).Floor == n;
  }

  function Kind(verdict: Verdict): Fate {
    match verdict
    case Delivered(_) => Answers
    case Exhausted => Stops
    case TryAgain => Retries
    case NextModel => GivesUp
  }

  lemma NothingMissingIsResumes(o: Options, call: ProviderCall, n: nat, failed: Engine)
    requires o.script(n).end.Broke? && failed.world == FailedWorld(o, call, n)
    requires failed.carried.Some? && failed.carried.value.steps == call.resumed.steps + o.script(n).end.completed
    ensures NothingMissing(o, call, n) <==> Resumes(failed)
  {
    var left := Selected(failed.carried).steps;
    LeftIsSelected(o, call, n, left);
    CoveredAreCompleted(failed.world.fence, Results(left));
    if NothingMissing(o, call, n) {
      var other :| Leaves(o, call, n, other) && AllCompletedIn(FailedWorld(o, call, n).fence, Results(other));
      LeftIsSelected(o, call, n, other);
    }
  }

  /** The program decides as FateOf says. */
  lemma CallDecides(o: Options, e: Engine, modelId: string, attempt: nat)
    ensures var call := ProviderCall(modelId, attempt, Selected(e.carried), e.world);
      Kind(Called(o, e, modelId, attempt).1) == FateOf(o, call, |e.calls| + 1)
  {
    var call, n := ProviderCall(modelId, attempt, Selected(e.carried), e.world), |e.calls| + 1;
    CapIsBound(o.config);
    match o.script(n).end {
      case Completed(_) =>
      case Broke(completed, error) =>
        var ran := F.Run(o.policy, e.world, o.script(n).during);
        var failed := AfterFailure(o, e, modelId, attempt, completed, error, ran);
        NothingMissingIsResumes(o, call, n, failed);
    }
  }

  lemma CallLeaves(o: Options, e: Engine, modelId: string, attempt: nat)
    requires o.script(|e.calls| + 1).end.Broke?
    ensures var call := ProviderCall(modelId, attempt, Selected(e.carried), e.world);
      var (e', _) := Called(o, e, modelId, attempt);
      Leaves(o, call, |e.calls| + 1, Selected(e'.carried).steps) && e'.world == WorldAfter(o, call, |e.calls| + 1)
  {
    var call, n := ProviderCall(modelId, attempt, Selected(e.carried), e.world), |e.calls| + 1;
    CallEnds(o, e, modelId, attempt);
    LeftIsSelected(o, call, n, Selected(Called(o, e, modelId, attempt).0.carried).steps);
    CallDecides(o, e, modelId, attempt);
    CallWaits(o, e, modelId, attempt);
  }

  lemma CallWaits(o: Options, e: Engine, modelId: string, attempt: nat)
    requires o.script(|e.calls| + 1).end.Broke?
    ensures var failed := FailedWorld(o, ProviderCall(modelId, attempt, Selected(e.carried), e.world), |e.calls| + 1);
      var (e', verdict) := Called(o, e, modelId, attempt);
      e'.world == if verdict.TryAgain? then F.Run(o.policy, failed, o.script(|e.calls| + 1).waiting) else failed
  {
  }

  // ---- the two loops, over any calls whose fate is known ----

  type Fates = (ProviderCall, nat) -> Fate
  type Leftover = (ProviderCall, nat, Resumable, F.World) -> bool

  function NextCall(e: Engine, modelId: string, attempt: nat): ProviderCall {
    ProviderCall(modelId, attempt, Selected(e.carried), e.world)
  }

  /** Every call is recorded, meets its fate, and leaves what it should; no model is retried at the cap. */
  ghost predicate CallsMeet(call: Caller, fate: Fates, left: Leftover, cap: nat) {
    forall e, m, n: nat {:trigger call(e, m, n)} ::
      var c := NextCall(e, m, n);
      && call(e, m, n).0.calls == e.calls + [c]
      && Kind(call(e, m, n).1) == fate(c, |e.calls| + 1)
      && (call(e, m, n).1.TryAgain? ==> n < cap)
      && (!call(e, m, n).1.Delivered? ==>
            left(c, |e.calls| + 1, Selected(call(e, m, n).0.carried), call(e, m, n).0.world))
  }

  type Order = (string, string) -> bool

  /** The call after the n-th: the same model again, or attempt 1 of the model that comes next. */
  ghost predicate Linked(fate: Fates, left: Leftover, next: Order, c: ProviderCall, n: nat, d: ProviderCall) {
    && left(c, n, d.resumed, d.world)
    && ((fate(c, n) == Retries && d.modelId == c.modelId && d.attempt == c.attempt + 1)
        || (fate(c, n) == GivesUp && d.attempt == 1 && next(c.modelId, d.modelId)))
  }

  ghost predicate Chain(fate: Fates, left: Leftover, next: Order, calls: seq<ProviderCall>, from: nat) {
    forall i :: from <= i < |calls| - 1 ==> Linked(fate, left, next, calls[i], i + 1, calls[i + 1])
  }

  /** What a loop adds to the calls: a chain that begins as said. */
  ghost predicate Continues(fate: Fates, left: Leftover, next: Order, e: Engine, calls: seq<ProviderCall>,
                            modelId: string, attempt: nat) {
    && |e.calls| < |calls| && e.calls == calls[..|e.calls|]
    && calls[|e.calls|] == NextCall(e, modelId, attempt)
    && Chain(fate, left, next, calls, |e.calls|)
  }

  lemma {:induction false} OnModelChain(call: Caller, fate: Fates, left: Leftover, next: Order, cap: nat,
                                        e: Engine, modelId: string, attempt: nat)
    requires CallsMeet(call, fate, left, cap) && 1 <= attempt <= cap
    ensures var outcome := OnModel(call, cap, e, modelId, attempt);
      var calls := outcome.0.calls;
      && Continues(fate, left, next, e, calls, modelId, attempt)
      && !outcome.1.TryAgain?
      && Kind(outcome.1) == fate(calls[|calls| - 1], |calls|) && calls[|calls| - 1].modelId == modelId
      && (!outcome.1.Delivered? ==> left(calls[|calls| - 1], |calls|, Selected(outcome.0.carried), outcome.0.world))
    decreases cap - attempt
  {
    var (mid, verdict) := call(e, modelId, attempt);
    if verdict.TryAgain? {
      OnModelChain(call, fate, left, next, cap, mid, modelId, attempt + 1);
      var calls := OnModel(call, cap, e, modelId, attempt).0.calls;
      assert calls[..|mid.calls|] == mid.calls;
      assert calls[|e.calls|] == mid.calls[|e.calls|] == NextCall(e, modelId, attempt);
      assert calls[..|e.calls|] == mid.calls[..|e.calls|] == e.calls;
      assert Linked(fate, left, next, calls[|e.calls|], |e.calls| + 1, calls[|e.calls| + 1]);
    }
  }

  predicate Fits(o: Options, modelId: string) {
    (!o.requiresVision || o.supportsVision(modelId)) && o.available(modelId)
  }

  /** The first candidate from position k on that can be called; the end if there is none. */
  function FirstFit(o: Options, all: seq<string>, k: nat): (f: nat)
    requires k <= |all|
    ensures k <= f <= |all| && (f < |all| ==> Fits(o, all[f])) && forall r :: k <= r < f ==> !Fits(o, all[r])
    decreases |all| - k
  {
    if k == |all| || Fits(o, all[k]) then k else FirstFit(o, all, k + 1)
  }

  ghost predicate IsNext(o: Options, all: seq<string>, a: string, b: string) {
    exists p :: 0 <= p < |all| && all[p] == a && FirstFit(o, all, p + 1) < |all| && all[FirstFit(o, all, p + 1)] == b
  }

  ghost predicate NoneLeft(o: Options, all: seq<string>, a: string) {
    exists p :: 0 <= p < |all| && all[p] == a && FirstFit(o, all, p + 1) == |all|
  }

  /** How the fate of the last call ends the run. */
  ghost predicate EndsAs(o: Options, all: seq<string>, fate: Fates, left: Leftover, outcome: (Engine, Verdict)) {
    var calls := outcome.0.calls;
    calls != []
    && var last := calls[|calls| - 1];
    (outcome.1.Exhausted? ==> left(last, |calls|, Selected(outcome.0.carried), outcome.0.world))
    && match fate(last, |calls|)
    case Answers => outcome.1.Delivered?
    case Stops => outcome.1.Exhausted?
    case GivesUp => outcome.1.Exhausted? && NoneLeft(o, all, last.modelId)
    case Retries => false
  }

  ghost predicate SameButTrail(e: Engine, e': Engine) {
    e'.calls == e.calls && e'.carried == e.carried && e'.world == e.world
  }

  ghost predicate RunsOver(o: Options, all: seq<string>, fate: Fates, left: Leftover,
                           e: Engine, k: nat, outcome: (Engine, Verdict))
    requires k <= |all|
  {
    // The match is there for the proofs: the verifier keeps such a body folded where it is asserted.
    match outcome case (_, _) =>
    var f := FirstFit(o, all, k);
    if f == |all| then outcome.1.Exhausted? && SameButTrail(e, outcome.0)
    else
      && Continues(fate, left, (a, b) => IsNext(o, all, a, b), e, outcome.0.calls, all[f], 1)
      && EndsAs(o, all, fate, left, outcome)
  }

  /** One model given up, then the rest of the candidates. */
  lemma GivenUpThenRest(o: Options, all: seq<string>, fate: Fates, left: Leftover, e: Engine, k: nat,
                        mid: Engine, outcome: (Engine, Verdict))
    requires k < |all| && Fits(o, all[k])
    requires Continues(fate, left, (a, b) => IsNext(o, all, a, b), e, mid.calls, all[k], 1)
    requires var last := mid.calls[|mid.calls| - 1];
      fate(last, |mid.calls|) == GivesUp && last.modelId == all[k]
      && left(last, |mid.calls|, Selected(mid.carried), mid.world)
    requires RunsOver(o, all, fate, left, mid, k + 1, outcome)
    ensures RunsOver(o, all, fate, left, e, k, outcome)
  {
    var next: Order := (a, b) => IsNext(o, all, a, b);
    var calls, n := outcome.0.calls, |mid.calls|;
    var f := FirstFit(o, all, k + 1);
    if f == |all| {
      assert NoneLeft(o, all, all[k]);
    } else {
      assert next(all[k], all[f]);
      assert calls[..n] == mid.calls;
      assert forall i :: 0 <= i < n ==> calls[i] == mid.calls[i];
      assert Linked(fate, left, next, calls[n - 1], n, calls[n]);
      assert calls[..|e.calls|] == mid.calls[..|e.calls|];
      forall i | |e.calls| <= i < |calls| - 1 ensures Linked(fate, left, next, calls[i], i + 1, calls[i + 1]) {
        assert i < n - 1 ==> Linked(fate, left, next, mid.calls[i], i + 1, mid.calls[i + 1]);
      }
    }
  }

  /** One model whose calls end the run. */
  lemma ModelEnds(call: Caller, fate: Fates, left: Leftover, o: Options, all: seq<string>, e: Engine, k: nat)
    requires CallsMeet(call, fate, left, Cap(o.config)) && k < |all| && Fits(o, all[k])
    ensures var next: Order := (a, b) => IsNext(o, all, a, b);
      var (e', verdict) := OnModel(call, Cap(o.config), e, all[k], 1);
      var calls := e'.calls;
      && Continues(fate, left, next, e, calls, all[k], 1)
      && (if verdict.NextModel? then
            && fate(calls[|calls| - 1], |calls|) == GivesUp && calls[|calls| - 1].modelId == all[k]
            && left(calls[|calls| - 1], |calls|, Selected(e'.carried), e'.world)
          else RunsOver(o, all, fate, left, e, k, (e', verdict)))
  {
    OnModelChain(call, fate, left, (a, b) => IsNext(o, all, a, b), Cap(o.config), e, all[k], 1);
  }

  lemma {:induction false} OnCandidatesChain(call: Caller, fate: Fates, left: Leftover, o: Options,
                                             all: seq<string>, e: Engine, k: nat)
    requires CallsMeet(call, fate, left, Cap(o.config)) && k <= |all|
    ensures RunsOver(o, all, fate, left, e, k, OnCandidates(call, o, e, all[k..]))
    decreases |all| - k
  {
    if k < |all| {
      assert all[k..][0] == all[k] && all[k..][1..] == all[k + 1..];
      if Fits(o, all[k]) {
        ModelEnds(call, fate, left, o, all, e, k);
        var (mid, verdict) := OnModel(call, Cap(o.config), e, all[k], 1);
        if verdict.NextModel? {
          OnCandidatesChain(call, fate, left, o, all, mid, k + 1);
          GivenUpThenRest(o, all, fate, left, e, k, mid, OnCandidates(call, o, mid, all[k + 1..]));
        }
      } else {
        OnCandidatesChain(call, fate, left, o, all, WithSkipped(e, all[k]), k + 1);
        SkippedThenRest(o, all, fate, left, e, k, OnCandidates(call, o, WithSkipped(e, all[k]), all[k + 1..]));
      }
    }
  }

  /** One candidate skipped, then the rest. */
  lemma SkippedThenRest(o: Options, all: seq<string>, fate: Fates, left: Leftover, e: Engine, k: nat,
                        outcome: (Engine, Verdict))
    requires k < |all| && !Fits(o, all[k])
    requires RunsOver(o, all, fate, left, WithSkipped(e, all[k]), k + 1, outcome)
    ensures RunsOver(o, all, fate, left, e, k, outcome)
  {
  }

  ghost function FatesOf(o: Options): Fates {
    (c: ProviderCall, n: nat) => FateOf(o, c, n)
  }

  ghost function LeftoverOf(o: Options): Leftover {
    (c: ProviderCall, n: nat, resumed: Resumable, world: F.World) =>
      o.script(n).end.Broke? && Leaves(o, c, n, resumed.steps) && world == WorldAfter(o, c, n)
  }

  lemma ProviderMeets(o: Options)
    ensures CallsMeet(ProviderOf(o), FatesOf(o), LeftoverOf(o), Cap(o.config))
  {
    forall e, m, n: nat
      ensures Called(o, e, m, n).0.calls == e.calls + [NextCall(e, m, n)]
      ensures Kind(Called(o, e, m, n).1) == FateOf(o, NextCall(e, m, n), |e.calls| + 1)
      ensures o.script(|e.calls| + 1).end.Broke? ==>
                && Leaves(o, NextCall(e, m, n), |e.calls| + 1, Selected(Called(o, e, m, n).0.carried).steps)
                && Called(o, e, m, n).0.world == WorldAfter(o, NextCall(e, m, n), |e.calls| + 1)
    {
      CallEnds(o, e, m, n);
      CallDecides(o, e, m, n);
      if o.script(|e.calls| + 1).end.Broke? { CallLeaves(o, e, m, n); }
    }
    CapIsBound(o.config);
  }

  lemma RunChained(o: Options)
    ensures RunsOver(o, CandidateModels(o.plan), FatesOf(o), LeftoverOf(o), IDLE, 0, Generated(o))
  {
    var all := CandidateModels(o.plan);
    ProviderMeets(o);
    OnCandidatesChain(ProviderOf(o), FatesOf(o), LeftoverOf(o), o, all, IDLE, 0);
    assert all[0..] == all;
  }

  // ---- the theorems ----

  /** The candidate that comes after another: the first behind it that can be called. */
  ghost predicate ComesNext(o: Options, a: string, b: string) {
    var all := CandidateModels(o.plan);
    exists p, q :: 0 <= p < q < |all| && all[p] == a && all[q] == b && Fits(o, b)
                   && forall r :: p < r < q ==> !Fits(o, all[r])
  }

  /** No candidate behind it can be called. */
  ghost predicate IsLastOne(o: Options, a: string) {
    var all := CandidateModels(o.plan);
    forall p, r :: 0 <= p < r < |all| && all[p] == a ==> !Fits(o, all[r])
  }

  /** The first call is attempt 1, from scratch, of the first candidate that can be called. */
  lemma FirstCall(o: Options)
    ensures var (e, verdict) := Generated(o);
      var all := CandidateModels(o.plan);
      && (e.calls == [] <==> forall r :: 0 <= r < |all| ==> !Fits(o, all[r]))
      && (e.calls == [] ==> verdict.Exhausted?)
      && (e.calls != [] ==>
            e.calls[0].attempt == 1 && e.calls[0].resumed.steps == []
            && exists q :: 0 <= q < |all| && all[q] == e.calls[0].modelId && Fits(o, all[q])
                           && forall r :: 0 <= r < q ==> !Fits(o, all[r]))
  {
    RunChained(o);
  }

  /**
   * What follows the i-th call, and what ends the run: an answer is delivered; a failure with a recorded action
   * whose result no later attempt would see ends the run in an error; a failure that may be retried, at a model
   * with attempts left, leads to its next attempt; any other leads to attempt 1 of the next candidate, or to an
   * error when there is none. Each later attempt resumes the steps the failed one leaves.
   */
  lemma WhatFollows(o: Options, i: nat)
    requires i < |Generated(o).0.calls|
    ensures var (e, verdict) := Generated(o);
      var c := e.calls[i];
      var last := i == |e.calls| - 1;
      match o.script(i + 1).end
      case Completed(_) => last && verdict.Delivered?
      case Broke(_, error) =>
        && (!last ==> Leaves(o, c, i + 1, e.calls[i + 1].resumed.steps))
        && if !NothingMissing(o, c, i + 1) then last && verdict.Exhausted?
           else if error.category != NonRetryable && c.attempt < BoundedModelAttempts(o.config.maxRetries) then
             !last && e.calls[i + 1].modelId == c.modelId && e.calls[i + 1].attempt == c.attempt + 1
           else if IsLastOne(o, c.modelId) then last && verdict.Exhausted?
           else !last && e.calls[i + 1].attempt == 1 && ComesNext(o, c.modelId, e.calls[i + 1].modelId)
  {
    var (e, verdict) := Generated(o);
    var all := CandidateModels(o.plan);
    RunChained(o);
    if i < |e.calls| - 1 {
      assert Linked(FatesOf(o), LeftoverOf(o), (a, b) => IsNext(o, all, a, b), e.calls[i], i + 1, e.calls[i + 1]);
      if IsNext(o, all, e.calls[i].modelId, e.calls[i + 1].modelId) {
        NextComesNext(o, e.calls[i].modelId, e.calls[i + 1].modelId);
      }
    } else if NoneLeft(o, all, e.calls[i].modelId) {
      NoneLeftIsLast(o, e.calls[i].modelId);
    }
  }

  /**
   * The tools stand, when the next call starts, where the failed call and the observation of its steps left them,
   * and after the wait too if it is a retry; a run that throws reports what the last call left.
   */
  lemma WorldBetween(o: Options, i: nat)
    requires i < |Generated(o).0.calls| && o.script(i + 1).end.Broke?
    ensures var (e, verdict) := Generated(o);
      var failed := FailedWorld(o, e.calls[i], i + 1);
      if i == |e.calls| - 1 then e.world == failed
      else if e.calls[i + 1].modelId == e.calls[i].modelId then
        e.calls[i + 1].world == F.Run(o.policy, failed, o.script(i + 1).waiting)
      else e.calls[i + 1].world == failed
  {
    var (e, verdict) := Generated(o);
    var all := CandidateModels(o.plan);
    RunChained(o);
    if i < |e.calls| - 1 {
      assert Linked(FatesOf(o), LeftoverOf(o), (a, b) => IsNext(o, all, a, b), e.calls[i], i + 1, e.calls[i + 1]);
      if IsNext(o, all, e.calls[i].modelId, e.calls[i + 1].modelId) {
        NextComesNext(o, e.calls[i].modelId, e.calls[i + 1].modelId);
      }
    }
  }

  lemma NextComesNext(o: Options, a: string, b: string)
    requires IsNext(o, CandidateModels(o.plan), a, b)
    ensures ComesNext(o, a, b) && !IsLastOne(o, a) && a != b
  {
    var all := CandidateModels(o.plan);
    var p :| 0 <= p < |all| && all[p] == a && FirstFit(o, all, p + 1) < |all| && all[FirstFit(o, all, p + 1)] == b;
    assert p < FirstFit(o, all, p + 1);
  }

  lemma NoneLeftIsLast(o: Options, a: string)
    requires NoneLeft(o, CandidateModels(o.plan), a)
    ensures IsLastOne(o, a)
  {
    var all := CandidateModels(o.plan);
    var p :| 0 <= p < |all| && all[p] == a && FirstFit(o, all, p + 1) == |all|;
    assert forall q :: 0 <= q < |all| && all[q] == a ==> q == p;
  }
}
