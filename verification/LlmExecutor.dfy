/**
 * generate(): retries within a model, falls back across models, resumes after the
 * completed tool steps of a failed attempt, and stops for good once an action was
 * started whose result no later attempt would see.
 *
 * What the provider and the tools do is a script: for the n-th provider call of the
 * run, the fence events during the call, how the call ended, and the fence events
 * while generate waits before retrying. Quantifying over scripts is quantifying
 * over all behaviours of the environment.
 */
module LlmExecutor {
  import opened Basics
  import opened ToolReplayFence
  import opened ResumedLoop
  import opened Retry
  import F = FenceSafety

  // ---- inputs ----

  datatype Plan = Plan(primary: string, fallbacks: seq<string>)

  /** Only generate itself observes steps. */
  type ToolEvent = e: F.Event | !e.Observe? witness F.Throw(0)

  datatype CallEnd =
    | Completed(steps: seq<Step>)
    | Broke(completed: seq<Step>, error: ProviderError)

  datatype CallScript = CallScript(during: seq<ToolEvent>, end: CallEnd, waiting: seq<ToolEvent>)

  datatype Options = Options(
    plan: Plan, config: Config, policy: Policy,
    requiresVision: bool, supportsVision: string -> bool, available: string -> bool,
    script: nat -> CallScript)

  // ---- outputs ----

  datatype AttemptStatus = Skipped | Succeeded | Failed(category: Category)

  datatype TraceEntry = TraceEntry(
    modelId: string, attempt: nat, status: AttemptStatus, backoffMs: Option<int>, resumedSteps: nat)

  datatype Success = Success(modelId: string, steps: seq<Step>, stepAttempts: seq<nat>)

  /** A provider call as it starts: what it resumes, and the fence world it starts in. */
  datatype ProviderCall = ProviderCall(modelId: string, attempt: nat, resumed: Resumable, world: F.World)

  datatype Engine = Engine(
    trail: seq<TraceEntry>, backoffTotalMs: int, carried: Option<Resumable>,
    calls: seq<ProviderCall>, world: F.World)

  const IDLE := Engine([], 0, None, [], F.START)

  datatype Verdict = Delivered(result: Success) | Exhausted | NextModel | TryAgain

  // ---- candidates ----

  /** Array.from(new Set(ids.filter(Boolean))): nonempty ids in first-occurrence order. */
  function Distinct(ids: seq<string>): (d: seq<string>)
    ensures forall id :: id in d <==> id in ids && id != ""
    ensures forall i, j :: 0 <= i < j < |d| ==> d[i] != d[j]
    ensures forall i, j :: 0 <= i < j < |d| ==> ComesFirst(ids, d[i], d[j])
  {
    if ids == [] then []
    else
      var init, last := Distinct(ids[..|ids| - 1]), ids[|ids| - 1];
      assert ids == ids[..|ids| - 1] + [last];
      FirstStaysFirst(ids[..|ids| - 1], last);
      if last == "" || last in init then init else init + [last]
  }

  /** x occurs in ids before any y does. */
  predicate ComesFirst(ids: seq<string>, x: string, y: string) {
    exists p :: 0 <= p < |ids| && ids[p] == x && y !in ids[..p]
  }

  lemma FirstStaysFirst(ids: seq<string>, last: string)
    ensures forall x, y :: ComesFirst(ids, x, y) ==> ComesFirst(ids + [last], x, y)
    ensures forall x, y :: x in ids && y !in ids ==> ComesFirst(ids, x, y)
  {
    forall x, y | ComesFirst(ids, x, y) ensures ComesFirst(ids + [last], x, y) {
      var p :| 0 <= p < |ids| && ids[p] == x && y !in ids[..p];
      assert (ids + [last])[p] == x && (ids + [last])[..p] == ids[..p];
    }
    forall x, y | x in ids && y !in ids ensures ComesFirst(ids, x, y) {
      var p :| 0 <= p < |ids| && ids[p] == x;
      assert y !in ids[..p];
    }
  }

  function CandidateModels(plan: Plan): seq<string> {
    Distinct([plan.primary] + plan.fallbacks)
  }

  /** The primary model comes first, then the fallbacks in their order; each id once, none of them empty. */
  lemma CandidatesAre(plan: Plan)
    ensures var all := CandidateModels(plan);
      && (forall id :: id in all <==> id != "" && (id == plan.primary || id in plan.fallbacks))
      && (forall i, j :: 0 <= i < j < |all| ==> all[i] != all[j])
      && (plan.primary != "" ==> all != [] && all[0] == plan.primary)
      && (forall i, j :: 0 <= i < j < |all| && all[i] != plan.primary ==> ComesFirst(plan.fallbacks, all[i], all[j]))
  {
    var ids, all := [plan.primary] + plan.fallbacks, CandidateModels(plan);
    forall i, j | 0 <= i < j < |all|
      ensures all[j] != plan.primary
      ensures all[i] != plan.primary ==> ComesFirst(plan.fallbacks, all[i], all[j])
    {
      PrimaryFirst(plan, all[i], all[j]);
    }
    if plan.primary != "" {
      assert plan.primary in ids;
      var k :| 0 <= k < |all| && all[k] == plan.primary;
    }
  }

  lemma PrimaryFirst(plan: Plan, x: string, y: string)
    requires x != y && ComesFirst([plan.primary] + plan.fallbacks, x, y)
    ensures y != plan.primary
    ensures x != plan.primary ==> ComesFirst(plan.fallbacks, x, y)
  {
    var ids := [plan.primary] + plan.fallbacks;
    var p :| 0 <= p < |ids| && ids[p] == x && y !in ids[..p];
    if p > 0 {
      assert ids[..p][0] == plan.primary;
      assert ids[..p][1..] == plan.fallbacks[..p - 1] && plan.fallbacks[p - 1] == x;
    }
  }

  predicate Usable(o: Options, modelId: string) {
    (o.requiresVision ==> o.supportsVision(modelId)) && o.available(modelId)
  }

  function CountUsable(o: Options, models: seq<string>): nat {
    if models == [] then 0
    else (if Usable(o, models[0]) then 1 else 0) + CountUsable(o, models[1..])
  }

  // ---- one provider call ----

  function Results(steps: seq<Step>): seq<seq<ToolResult>> {
    seq(|steps|, i requires 0 <= i < |steps| => steps[i].toolResults)
  }

  function Repeat(n: nat, ordinal: nat): (xs: seq<nat>)
    ensures |xs| == n && forall i :: 0 <= i < n ==> xs[i] == ordinal
  {
    seq(n, _ => ordinal)
  }

  function SkippedEntry(modelId: string): TraceEntry {
    TraceEntry(modelId, 0, Skipped, None, 0)
  }

  function SuccessOf(e: Engine, modelId: string, steps: seq<Step>): Success {
    var resumed := Selected(e.carried);
    Success(modelId, resumed.steps + steps, resumed.attempts + Repeat(|steps|, |e.calls| + 1))
  }

  function CarriedOver(e: Engine, modelId: string, completed: seq<Step>): Resumable {
    var resumed := Selected(e.carried);
    Resumable(resumed.steps + completed, resumed.attempts + Repeat(|completed|, |e.calls| + 1), modelId)
  }

  ghost predicate Resumes(e: Engine) {
    AllCovered(e.world.fence, Flatten(Results(Selected(e.carried).steps)))
  }

  /** The catch block up to its decision: steps carried over and observed, an error entry. */
  ghost function AfterFailure(o: Options, e: Engine, modelId: string, attempt: nat,
                              completed: seq<Step>, error: ProviderError, ran: F.World): Engine {
    var carried := CarriedOver(e, modelId, completed);
    Engine(
      e.trail + [TraceEntry(modelId, attempt, Failed(error.category), None, |Selected(e.carried).steps|)],
      e.backoffTotalMs, Some(carried), WithCall(e, modelId, attempt),
      F.Step(o.policy, ran, F.Observe(Flatten(Results(carried.steps)))))
  }

  ghost function WithCall(e: Engine, modelId: string, attempt: nat): seq<ProviderCall> {
    e.calls + [ProviderCall(modelId, attempt, Selected(e.carried), e.world)]
  }

  /** Throw, give up on the model, or wait and try again. */
  ghost function Decided(o: Options, failed: Engine, attempt: nat, error: ProviderError, waiting: seq<ToolEvent>):
    (Engine, Verdict)
    requires failed.trail != []
  {
    if !Resumes(failed) then (failed, Exhausted)
    else if !ShouldRetry(error.category, attempt, o.config) then (failed, NextModel)
    else (Waited(o, failed, GetBackoffMs(attempt, error, o.config), waiting), TryAgain)
  }

  /** A usable result: resumed and new steps together, and a success entry. */
  ghost function Answered(e: Engine, modelId: string, attempt: nat, steps: seq<Step>, ran: F.World): (Engine, Verdict) {
    (e.(world := ran, calls := WithCall(e, modelId, attempt),
        trail := e.trail + [TraceEntry(modelId, attempt, AttemptStatus.Succeeded, None,
                                       |Selected(e.carried).steps|)]),
     Delivered(SuccessOf(e, modelId, steps)))
  }

  ghost function Ended(o: Options, e: Engine, modelId: string, attempt: nat, script: CallScript, ran: F.World):
    (Engine, Verdict)
  {
    match script.end
    case Completed(steps) => Answered(e, modelId, attempt, steps, ran)
    case Broke(completed, error) =>
      Decided(o, AfterFailure(o, e, modelId, attempt, completed, error, ran), attempt, error, script.waiting)
  }

  /** The provider call of the given attempt: its start, its fence events, its end. */
  ghost function Called(o: Options, e: Engine, modelId: string, attempt: nat): (Engine, Verdict) {
    var script := o.script(|e.calls| + 1);
    Ended(o, e, modelId, attempt, script, F.Run(o.policy, e.world, script.during))
  }

  ghost function Waited(o: Options, e: Engine, backoff: int, events: seq<ToolEvent>): Engine
    requires e.trail != []
  {
    var last := |e.trail| - 1;
    e.(trail := e.trail[last := e.trail[last].(backoffMs := Some(backoff))],
       backoffTotalMs := e.backoffTotalMs + backoff,
       world := F.Run(o.policy, e.world, events))
  }

  // ---- the two loops, over any provider call ----

  type Caller = (Engine, string, nat) -> (Engine, Verdict)

  function OnModel(call: Caller, cap: nat, e: Engine, modelId: string, attempt: nat): (Engine, Verdict)
    decreases cap - attempt
  {
    if attempt > cap then (e, NextModel)
    else
      var outcome := call(e, modelId, attempt);
      if outcome.1.TryAgain? then OnModel(call, cap, outcome.0, modelId, attempt + 1) else outcome
  }

  function OnCandidates(call: Caller, o: Options, e: Engine, models: seq<string>): (Engine, Verdict)
    decreases |models|, 0
  {
    if models == [] then (e, Exhausted)
    else if !Usable(o, models[0]) then OnCandidates(call, o, WithSkipped(e, models[0]), models[1..])
    else AfterModel(call, o, OnModel(call, Cap(o.config), e, models[0], 1), models[1..])
  }

  function AfterModel(call: Caller, o: Options, outcome: (Engine, Verdict), rest: seq<string>): (Engine, Verdict)
    decreases |rest|, 1
  {
    if outcome.1.NextModel? then OnCandidates(call, o, outcome.0, rest) else outcome
  }

  function WithSkipped(e: Engine, modelId: string): Engine {
    e.(trail := e.trail + [SkippedEntry(modelId)])
  }

  ghost function ProviderOf(o: Options): Caller {
    (e: Engine, modelId: string, attempt: nat) => Called(o, e, modelId, attempt)
  }

  /** The whole run. */
  ghost function Generated(o: Options): (Engine, Verdict) {
    OnCandidates(ProviderOf(o), o, IDLE, CandidateModels(o.plan))
  }

  // ---- the program ----

  ghost function WorldOf(fence: Fence, inFlight: map<nat, Call>, finished: seq<F.Execution>): F.World
    reads fence
  {
    F.World(fence.Abstract(), inFlight, finished)
  }

  method Play(fence: Fence, before: map<nat, Call>, ghost past: seq<F.Execution>, events: seq<ToolEvent>)
    returns (inFlight: map<nat, Call>, ghost finished: seq<F.Execution>)
    modifies fence
    ensures WorldOf(fence, inFlight, finished)
            == F.Run(fence.policy, old(WorldOf(fence, before, past)), events)
  {
    inFlight, finished := before, past;
    ghost var start := WorldOf(fence, before, past);
    for i := 0 to |events|
      invariant F.Run(fence.policy, WorldOf(fence, inFlight, finished), events[i..])
                == F.Run(fence.policy, start, events)
    {
      ghost var w := WorldOf(fence, inFlight, finished);
      assert events[i..][0] == events[i] && events[i..][1..] == events[i + 1..];
      match events[i] {
        case Enter(n, tool, callId) =>
          if n !in inFlight && tool in fence.policy.toolNames {
            var call := fence.Enter(tool, callId);
            if call.Some? { inFlight := inFlight[n := call.value]; }
          }
        case Return(n, output) =>
          if n in inFlight {
            var call := inFlight[n];
            fence.Return(call, output);
            inFlight := inFlight - {n};
            finished := finished + [F.Execution(call.tool, call.callId,
                                      if fence.policy.Classify(output) != [] then F.Effect(output) else F.NoEffect)];
          }
        case Throw(n) =>
          if n in inFlight {
            var call := inFlight[n];
            fence.Throw(call);
            inFlight := inFlight - {n};
            finished := finished + [F.Execution(call.tool, call.callId, F.Failure)];
          }
      }
      assert WorldOf(fence, inFlight, finished) == F.Step(fence.policy, w, events[i]);
    }
    assert events[|events|..] == [];
  }

  /** The catch block of a provider call. */
  method Recover(
      o: Options, toolFence: Fence, modelId: string, attempt: nat, resumed: Resumable, attemptOrdinal: nat,
      completedSteps: seq<Step>, error: ProviderError, waiting: seq<ToolEvent>,
      before: map<nat, Call>, ghost e: Engine, ghost past: seq<F.Execution>)
    returns (verdict: Verdict, entry: TraceEntry, carried: Resumable, inFlight: map<nat, Call>,
             ghost e': Engine, ghost finished: seq<F.Execution>)
    requires toolFence.policy == o.policy
    requires resumed == Selected(e.carried) && attemptOrdinal == |e.calls| + 1
    modifies toolFence
    ensures (e', verdict) == Decided(o, AfterFailure(o, e, modelId, attempt, completedSteps, error,
                                                     old(WorldOf(toolFence, before, past))),
                                     attempt, error, waiting)
    ensures e'.carried == Some(carried) && e'.world == WorldOf(toolFence, inFlight, finished)
    ensures e'.trail == e.trail + [entry] && e'.calls == WithCall(e, modelId, attempt)
    ensures verdict.TryAgain? <==> entry.backoffMs.Some?
    ensures e'.backoffTotalMs == e.backoffTotalMs + (if entry.backoffMs.Some? then entry.backoffMs.value else 0)
    ensures !verdict.Delivered?
  {
    ghost var ran := WorldOf(toolFence, before, past);
    carried := Resumable(resumed.steps + completedSteps,
                         resumed.attempts + Repeat(|completedSteps|, attemptOrdinal), modelId);
    toolFence.Observe(Results(carried.steps));
    entry := TraceEntry(modelId, attempt, Failed(error.category), None, |resumed.steps|);
    inFlight, finished := before, past;
    ghost var failed := AfterFailure(o, e, modelId, attempt, completedSteps, error, ran);
    assert failed.world == WorldOf(toolFence, inFlight, finished);
    e' := failed;
    var resumable := SelectResumableSteps(Some(carried));
    var unresumable := toolFence.HasUnresumableAction(Results(resumable.steps));
    assert unresumable <==> !Resumes(failed);
    var retryConfig := GetRetryConfig(o.config);
    ClampIdempotent(o.config);
    if unresumable {
      verdict := Exhausted;
    } else if !ShouldRetry(error.category, attempt, retryConfig) {
      verdict := NextModel;
    } else {
      var backoff := GetBackoffMs(attempt, error, retryConfig);
      entry := entry.(backoffMs := Some(backoff));
      inFlight, finished := Play(toolFence, inFlight, finished, waiting);
      verdict := TryAgain;
      e' := Waited(o, failed, backoff, waiting);
    }
  }

  /** The body of the retry loop: one provider call and the decision after it. */
  method CallProvider(
      o: Options, toolFence: Fence, modelId: string, attempt: nat, attemptOrdinal: nat,
      carried: Option<Resumable>, before: map<nat, Call>, ghost e: Engine, ghost past: seq<F.Execution>)
    returns (verdict: Verdict, entry: TraceEntry, carriedNext: Option<Resumable>, inFlight: map<nat, Call>,
             ghost e': Engine, ghost finished: seq<F.Execution>)
    requires toolFence.policy == o.policy
    requires e.carried == carried && attemptOrdinal == |e.calls| + 1
    requires e.world == WorldOf(toolFence, before, past)
    modifies toolFence
    ensures (e', verdict) == Called(o, e, modelId, attempt)
    ensures e'.carried == carriedNext && e'.world == WorldOf(toolFence, inFlight, finished)
    ensures e'.trail == e.trail + [entry] && |e'.calls| == attemptOrdinal
    ensures verdict.TryAgain? <==> entry.backoffMs.Some?
    ensures e'.backoffTotalMs == e.backoffTotalMs + (if entry.backoffMs.Some? then entry.backoffMs.value else 0)
  {
    var resumed := SelectResumableSteps(carried);
    var script := o.script(attemptOrdinal);
    inFlight, finished := Play(toolFence, before, past, script.during);
    match script.end {
      case Completed(newSteps) =>
        entry := TraceEntry(modelId, attempt, AttemptStatus.Succeeded, None, |resumed.steps|);
        verdict := Delivered(Success(modelId, resumed.steps + newSteps,
                                     resumed.attempts + Repeat(|newSteps|, attemptOrdinal)));
        carriedNext := carried;
        e' := e.(world := WorldOf(toolFence, inFlight, finished), calls := WithCall(e, modelId, attempt),
                 trail := e.trail + [entry]);
      case Broke(completedSteps, error) =>
        var c;
        verdict, entry, c, inFlight, e', finished :=
          Recover(o, toolFence, modelId, attempt, resumed, attemptOrdinal, completedSteps, error,
                  script.waiting, inFlight, e, finished);
        carriedNext := Some(c);
    }
  }

  /** The retry loop over one model. */
  method TryModel(
      o: Options, toolFence: Fence, modelId: string, trailBefore: seq<TraceEntry>, backoffBefore: int,
      carriedBefore: Option<Resumable>, attemptsBefore: nat, before: map<nat, Call>,
      ghost start: Engine, ghost past: seq<F.Execution>)
    returns (verdict: Verdict, trail: seq<TraceEntry>, backoffTotalMs: int, carried: Option<Resumable>,
             attemptOrdinal: nat, inFlight: map<nat, Call>, ghost e: Engine, ghost finished: seq<F.Execution>)
    requires toolFence.policy == o.policy
    requires InStep(start, trailBefore, backoffBefore, carriedBefore, attemptsBefore, WorldOf(toolFence, before, past))
    modifies toolFence
    ensures (e, verdict) == OnModel(ProviderOf(o), Cap(o.config), start, modelId, 1) && !verdict.TryAgain?
    ensures InStep(e, trail, backoffTotalMs, carried, attemptOrdinal, WorldOf(toolFence, inFlight, finished))
  {
    trail, backoffTotalMs, carried, attemptOrdinal := trailBefore, backoffBefore, carriedBefore, attemptsBefore;
    inFlight, e, finished := before, start, past;
    var maxRetries := BoundedModelAttempts(GetRetryConfig(o.config).maxRetries);
    var attempt := 1;
    while attempt <= maxRetries
      invariant 1 <= attempt
      invariant InStep(e, trail, backoffTotalMs, carried, attemptOrdinal, WorldOf(toolFence, inFlight, finished))
      invariant OnModel(ProviderOf(o), maxRetries, e, modelId, attempt)
                == OnModel(ProviderOf(o), Cap(o.config), start, modelId, 1)
    {
      attemptOrdinal := attemptOrdinal + 1;
      var entry;
      verdict, entry, carried, inFlight, e, finished :=
        CallProvider(o, toolFence, modelId, attempt, attemptOrdinal, carried, inFlight, e, finished);
      trail := trail + [entry];
      if !verdict.TryAgain? {
        return;
      }
      backoffTotalMs := backoffTotalMs + entry.backoffMs.value;
      attempt := attempt + 1;
    }
    verdict := NextModel;
  }

  /**
   * generate: result is what it returns, None when it throws; evidence is the
   * replayBlockedBy list of the thrown error.
   */
  method Generate(o: Options)
    returns (result: Option<Success>, evidence: seq<Evidence>, trail: seq<TraceEntry>, backoffTotalMs: int,
             ghost e: Engine)
    ensures e == Generated(o).0 && trail == e.trail && backoffTotalMs == e.backoffTotalMs
    ensures result == ResultOf(Generated(o).1)
    ensures result.None? ==> forall item :: item in evidence <==> Recorded(e.world.fence, item)
  {
    trail, backoffTotalMs, evidence, result, e := [], 0, [], None, IDLE;
    var carried: Option<Resumable> := None;
    var attemptOrdinal := 0;
    var toolFence := new Fence(o.policy);
    var inFlight: map<nat, Call> := map[];
    ghost var finished: seq<F.Execution> := [];
    var models := CandidateModels(o.plan);
    assert models[0..] == models;
    var m := 0;
    while m < |models|
      invariant 0 <= m <= |models|
      invariant toolFence.policy == o.policy && fresh(toolFence)
      invariant InStep(e, trail, backoffTotalMs, carried, attemptOrdinal, WorldOf(toolFence, inFlight, finished))
      invariant OnCandidates(ProviderOf(o), o, e, models[m..]) == Generated(o)
    {
      var modelId := models[m];
      assert models[m..][0] == modelId && models[m..][1..] == models[m + 1..];
      m := m + 1;
      if (o.requiresVision && !o.supportsVision(modelId)) || !o.available(modelId) {
        trail := trail + [SkippedEntry(modelId)];
        e := WithSkipped(e, modelId);
        continue;
      }
      var verdict;
      verdict, trail, backoffTotalMs, carried, attemptOrdinal, inFlight, e, finished :=
        TryModel(o, toolFence, modelId, trail, backoffTotalMs, carried, attemptOrdinal, inFlight, e, finished);
      if verdict.Delivered? {
        result := Some(verdict.result);
        return;
      }
      if verdict.Exhausted? {
        evidence := toolFence.Snapshot();
        return;
      }
    }
    evidence := toolFence.Snapshot();
  }

  function ResultOf(verdict: Verdict): Option<Success> {
    if verdict.Delivered? then Some(verdict.result) else None
  }

  ghost predicate InStep(e: Engine, trail: seq<TraceEntry>, backoffTotalMs: int, carried: Option<Resumable>,
                         attemptOrdinal: nat, world: F.World) {
    && e.trail == trail && e.backoffTotalMs == backoffTotalMs && e.carried == carried
    && |e.calls| == attemptOrdinal && e.world == world
  }
}
