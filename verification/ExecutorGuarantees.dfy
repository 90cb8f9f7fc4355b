/** What every run of generate() guarantees, whatever the providers and tools do. */
module ExecutorGuarantees {
  import opened Basics
  import opened ToolReplayFence
  import opened ResumedLoop
  import opened Retry
  import opened LlmExecutor
  import F = FenceSafety

  // ---- bookkeeping ----

  function TotalBackoff(trail: seq<TraceEntry>): int {
    if trail == [] then 0
    else TotalBackoff(trail[..|trail| - 1]) + BackoffOf(trail[|trail| - 1])
  }

  function BackoffOf(entry: TraceEntry): int {
    if entry.backoffMs.Some? then entry.backoffMs.value else 0
  }

  /** attemptCount of the llm_execution event: the entries that are not skipped candidates. */
  function AttemptCount(trail: seq<TraceEntry>): nat {
    if trail == [] then 0
    else AttemptCount(trail[..|trail| - 1]) + (if trail[|trail| - 1].status.Skipped? then 0 else 1)
  }

  lemma TotalsAppend(trail: seq<TraceEntry>, entry: TraceEntry)
    ensures TotalBackoff(trail + [entry]) == TotalBackoff(trail) + BackoffOf(entry)
    ensures AttemptCount(trail + [entry]) == AttemptCount(trail) + (if entry.status.Skipped? then 0 else 1)
  {
    assert (trail + [entry])[..|trail|] == trail;
  }

  predicate NoSuccess(trail: seq<TraceEntry>) {
    forall i :: 0 <= i < |trail| ==> !trail[i].status.Succeeded?
  }

  predicate BackoffsBounded(o: Options, trail: seq<TraceEntry>) {
    forall i :: 0 <= i < |trail| && trail[i].backoffMs.Some? ==>
      trail[i].backoffMs.value <= Max(RETRY_AFTER_CAP_MS, o.config.maxBackoffMs)
  }

  predicate Accounted(o: Options, e: Engine) {
    && e.backoffTotalMs == TotalBackoff(e.trail)
    && |e.calls| == AttemptCount(e.trail)
    && BackoffsBounded(o, e.trail)
  }

  // ---- what is carried from attempt to attempt ----

  predicate NonDecreasing(xs: seq<nat>) {
    forall i, j :: 0 <= i < j < |xs| ==> xs[i] <= xs[j]
  }

  predicate Attributed(steps: seq<Step>, attempts: seq<nat>, latest: nat) {
    |attempts| == |steps| && NonDecreasing(attempts)
    && forall i :: 0 <= i < |attempts| ==> 1 <= attempts[i] <= latest
  }

  ghost predicate Carrying(e: Engine) {
    e.carried.Some? ==> Attributed(e.carried.value.steps, e.carried.value.attempts, |e.calls|)
  }

  predicate EndsCleanly(steps: seq<Step>) {
    steps == [] || EndsWithToolResult(steps[|steps| - 1])
  }

  ghost predicate Chained(e: Engine) {
    && (forall i :: 0 <= i < |e.calls| ==> EndsCleanly(e.calls[i].resumed.steps))
    && (forall i :: 0 <= i < |e.calls| ==> e.calls[i].resumed.steps <= Selected(e.carried).steps)
    && (forall i, j :: 0 <= i < j < |e.calls| ==> e.calls[i].resumed.steps <= e.calls[j].resumed.steps)
  }

  // ---- no attempt starts over a missing result ----

  /** An abandoned provider call starts no new tool call while generate waits to retry. */
  ghost predicate QuietWaits(o: Options) {
    forall n, i :: 0 <= i < |o.script(n).waiting| ==> !o.script(n).waiting[i].Enter?
  }

  ghost predicate StartsCovered(call: ProviderCall) {
    AllCovered(call.world.fence, Flatten(Results(call.resumed.steps)))
  }

  ghost predicate Restartable(o: Options, e: Engine) {
    QuietWaits(o) ==> forall i :: 0 < i < |e.calls| ==> StartsCovered(e.calls[i])
  }

  ghost predicate Sound(o: Options, e: Engine) {
    && Accounted(o, e) && Carrying(e) && Chained(e) && Restartable(o, e)
    && F.Tracked(e.world)
    && (forall i :: 0 <= i < |e.calls| ==> F.Tracked(e.calls[i].world))
  }

  /** Between two provider calls. */
  ghost predicate Between(o: Options, e: Engine) {
    && Sound(o, e) && NoSuccess(e.trail)
    && (QuietWaits(o) && e.calls != [] ==> Resumes(e))
  }

  lemma SelectedAttributed(e: Engine)
    requires Carrying(e)
    ensures var r := Selected(e.carried); Attributed(r.steps, r.attempts, |e.calls|) && EndsCleanly(r.steps)
  {
  }

  lemma AppendAttributed(e: Engine, steps: seq<Step>)
    requires Carrying(e)
    ensures var r := Selected(e.carried); var n := |e.calls| + 1;
      Attributed(r.steps + steps, r.attempts + Repeat(|steps|, n), n)
  {
    SelectedAttributed(e);
  }

  /** A returning or throwing call keeps the tool name and call id of its evidence. */
  lemma StepKeepsCovered(p: Policy, w: F.World, e: F.Event, results: seq<ToolResult>)
    requires F.Tracked(w) && !e.Enter? && !e.Observe?
    requires AllCovered(w.fence, results)
    ensures AllCovered(F.Step(p, w, e).fence, results)
  {
    var w' := F.Step(p, w, e);
    if w' != w {
      var call := w.inFlight[e.number];
      var original := Evidence(call.tool, call.callId, Executing, None);
      assert original in w.fence.evidence[call.key];
      forall item | Recorded(w'.fence, item) ensures Covered(item, results) {
        var k :| k in w'.fence.evidence && item in w'.fence.evidence[k];
        if k == call.key {
          assert item.toolName == call.tool && item.toolCallId == call.callId;
          assert Covered(original, results);
        } else {
          assert item in w.fence.evidence[k];
        }
      }
    }
  }

  lemma {:induction false} RunKeepsCovered(p: Policy, w: F.World, events: seq<F.Event>, results: seq<ToolResult>)
    requires F.Tracked(w) && AllCovered(w.fence, results)
    requires forall i :: 0 <= i < |events| ==> !events[i].Enter? && !events[i].Observe?
    ensures AllCovered(F.Run(p, w, events).fence, results)
    decreases |events|
  {
    if events != [] {
      StepKeepsCovered(p, w, events[0], results);
      F.StepTracked(p, w, events[0]);
      RunKeepsCovered(p, F.Step(p, w, events[0]), events[1..], results);
    }
  }

  lemma AfterFailureAccounted(o: Options, e: Engine, modelId: string, attempt: nat,
                              completed: seq<Step>, error: ProviderError, ran: F.World)
    requires Accounted(o, e) && NoSuccess(e.trail)
    ensures var failed := AfterFailure(o, e, modelId, attempt, completed, error, ran);
      Accounted(o, failed) && NoSuccess(failed.trail)
  {
    TotalsAppend(e.trail, TraceEntry(modelId, attempt, Failed(error.category), None, |Selected(e.carried).steps|));
  }

  lemma AfterFailureChained(o: Options, e: Engine, modelId: string, attempt: nat,
                            completed: seq<Step>, error: ProviderError, ran: F.World)
    requires Carrying(e) && Chained(e)
    ensures var failed := AfterFailure(o, e, modelId, attempt, completed, error, ran);
      Carrying(failed) && Chained(failed)
  {
    var failed := AfterFailure(o, e, modelId, attempt, completed, error, ran);
    SelectedAttributed(e);
    AppendAttributed(e, completed);
    SelectionGrows(Selected(e.carried).steps, completed);
    PrefixesExtend(e, failed);
  }

  lemma PrefixesExtend(e: Engine, failed: Engine)
    requires Chained(e) && EndsCleanly(Selected(e.carried).steps)
    requires Selected(e.carried).steps <= Selected(failed.carried).steps
    requires |failed.calls| == |e.calls| + 1 && failed.calls[..|e.calls|] == e.calls
    requires failed.calls[|e.calls|].resumed == Selected(e.carried)
    ensures Chained(failed)
  {
    forall i | 0 <= i < |e.calls| ensures failed.calls[i] == e.calls[i] {
      assert failed.calls[..|e.calls|][i] == failed.calls[i];
    }
  }

  lemma AfterFailureSound(o: Options, e: Engine, modelId: string, attempt: nat,
                          completed: seq<Step>, error: ProviderError, ran: F.World)
    requires Between(o, e) && F.Tracked(ran)
    ensures var failed := AfterFailure(o, e, modelId, attempt, completed, error, ran);
      Sound(o, failed) && NoSuccess(failed.trail)
  {
    AfterFailureAccounted(o, e, modelId, attempt, completed, error, ran);
    AfterFailureChained(o, e, modelId, attempt, completed, error, ran);
    var carried := CarriedOver(e, modelId, completed);
    F.StepTracked(o.policy, ran, F.Observe(Flatten(Results(carried.steps))));
  }

  lemma WaitedSound(o: Options, e: Engine, backoff: int, events: seq<ToolEvent>)
    requires Sound(o, e) && NoSuccess(e.trail) && e.trail != [] && e.trail[|e.trail| - 1].backoffMs.None?
    requires backoff <= Max(RETRY_AFTER_CAP_MS, o.config.maxBackoffMs)
    requires Resumes(e) && (QuietWaits(o) ==> forall i :: 0 <= i < |events| ==> !events[i].Enter?)
    ensures Between(o, Waited(o, e, backoff, events))
  {
    var init, last := e.trail[..|e.trail| - 1], e.trail[|e.trail| - 1];
    var e' := Waited(o, e, backoff, events);
    assert e.trail == init + [last];
    assert e'.trail == init + [last.(backoffMs := Some(backoff))];
    TotalsAppend(init, last);
    TotalsAppend(init, last.(backoffMs := Some(backoff)));
    F.RunTracked(o.policy, e.world, events);
    if QuietWaits(o) {
      RunKeepsCovered(o.policy, e.world, events, Flatten(Results(Selected(e.carried).steps)));
    }
  }

  lemma AnsweredSound(o: Options, e: Engine, modelId: string, attempt: nat, steps: seq<Step>, ran: F.World)
    requires Between(o, e) && F.Tracked(ran)
    ensures EndsCall(o, Answered(e, modelId, attempt, steps, ran), |e.calls| + 1)
  {
    var e' := Answered(e, modelId, attempt, steps, ran).0;
    SelectedAttributed(e);
    AppendAttributed(e, steps);
    TotalsAppend(e.trail, e'.trail[|e.trail|]);
    PrefixesExtend(e, e');
    assert e'.trail[..|e'.trail| - 1] == e.trail;
    assert Sound(o, e');
    assert Returns(e', SuccessOf(e, modelId, steps));
  }

  lemma DecidedSound(o: Options, failed: Engine, attempt: nat, error: ProviderError, waiting: seq<ToolEvent>)
    requires Sound(o, failed) && NoSuccess(failed.trail) && failed.trail != []
    requires failed.trail[|failed.trail| - 1].backoffMs.None?
    requires QuietWaits(o) ==> forall i :: 0 <= i < |waiting| ==> !waiting[i].Enter?
    ensures EndsWell(o, Decided(o, failed, attempt, error, waiting))
    ensures |Decided(o, failed, attempt, error, waiting).0.calls| == |failed.calls|
  {
    if Resumes(failed) && ShouldRetry(error.category, attempt, o.config) {
      WaitedSound(o, failed, GetBackoffMs(attempt, error, o.config), waiting);
    }
  }

  lemma BrokenSound(o: Options, e: Engine, modelId: string, attempt: nat, completed: seq<Step>,
                    error: ProviderError, ran: F.World, waiting: seq<ToolEvent>)
    requires Between(o, e) && F.Tracked(ran)
    requires QuietWaits(o) ==> forall i :: 0 <= i < |waiting| ==> !waiting[i].Enter?
    ensures var outcome :=
        Decided(o, AfterFailure(o, e, modelId, attempt, completed, error, ran), attempt, error, waiting);
      EndsCall(o, outcome, |e.calls| + 1)
  {
    AfterFailureSound(o, e, modelId, attempt, completed, error, ran);
    DecidedSound(o, AfterFailure(o, e, modelId, attempt, completed, error, ran), attempt, error, waiting);
  }

  lemma EndedSound(o: Options, e: Engine, modelId: string, attempt: nat, script: CallScript, ran: F.World,
                   outcome: (Engine, Verdict))
    requires Between(o, e) && F.Tracked(ran)
    requires QuietWaits(o) ==> forall i :: 0 <= i < |script.waiting| ==> !script.waiting[i].Enter?
    requires outcome == Ended(o, e, modelId, attempt, script, ran)
    ensures EndsCall(o, outcome, |e.calls| + 1)
  {
    match script.end {
      case Completed(steps) => AnsweredSound(o, e, modelId, attempt, steps, ran);
      case Broke(completed, error) => BrokenSound(o, e, modelId, attempt, completed, error, ran, script.waiting);
    }
  }

  lemma CalledSound(o: Options, e: Engine, modelId: string, attempt: nat)
    requires Between(o, e)
    ensures EndsCall(o, Called(o, e, modelId, attempt), |e.calls| + 1)
  {
    var script := o.script(|e.calls| + 1);
    var ran := F.Run(o.policy, e.world, script.during);
    F.RunTracked(o.policy, e.world, script.during);
    EndedSound(o, e, modelId, attempt, script, ran, Called(o, e, modelId, attempt));
  }

  lemma SkippedSound(o: Options, e: Engine, modelId: string)
    requires Between(o, e)
    ensures Between(o, WithSkipped(e, modelId))
  {
    TotalsAppend(e.trail, SkippedEntry(modelId));
    OnlyTrailChanged(o, e, WithSkipped(e, modelId));
  }

  lemma OnlyTrailChanged(o: Options, e: Engine, e': Engine)
    requires Between(o, e) && Accounted(o, e') && NoSuccess(e'.trail)
    requires e'.calls == e.calls && e'.carried == e.carried && e'.world == e.world
    ensures Between(o, e')
  {
  }

  /** The final state of a run that returns the given result. */
  ghost predicate Returns(e: Engine, result: Success) {
    && e.calls != []
    && Attributed(result.steps, result.stepAttempts, |e.calls|)
    && e.calls[|e.calls| - 1].resumed.steps <= result.steps
    && e.calls[|e.calls| - 1].modelId == result.modelId
    && e.trail != [] && e.trail[|e.trail| - 1].status.Succeeded?
    && NoSuccess(e.trail[..|e.trail| - 1])
  }

  ghost predicate EndsCall(o: Options, outcome: (Engine, Verdict), calls: nat) {
    match outcome case (e, verdict) => EndsWell(o, outcome) && |e.calls| == calls
  }

  ghost predicate EndsWell(o: Options, outcome: (Engine, Verdict)) {
    match outcome
    case (e, Delivered(result)) => Sound(o, e) && Returns(e, result)
    case (e, Exhausted) => Sound(o, e) && NoSuccess(e.trail)
    case (e, _) => Between(o, e)
  }

  // ---- induction over the two loops ----

  type Invariant = Engine -> bool
  type Outcome = ((Engine, Verdict)) -> bool

  /** Every provider call keeps inv while the run goes on, and ends the run in a state allowed by post. */
  ghost predicate CallKeeps(call: Caller, inv: Invariant, post: Outcome) {
    forall e, m, n {:trigger call(e, m, n)} :: inv(e) ==>
      && |call(e, m, n).0.calls| == |e.calls| + 1
      && (if call(e, m, n).1.TryAgain? || call(e, m, n).1.NextModel? then inv(call(e, m, n).0)
          else post(call(e, m, n)))
  }

  ghost predicate SkipKeeps(inv: Invariant, post: Outcome) {
    && (forall e {:trigger inv(e)} :: inv(e) ==> post((e, Exhausted)))
    && (forall e, m {:trigger WithSkipped(e, m)} :: inv(e) ==> inv(WithSkipped(e, m)))
  }

  lemma {:induction false} OnModelInduction(call: Caller, cap: nat, e: Engine, modelId: string, attempt: nat,
                                            inv: Invariant, post: Outcome)
    requires inv(e) && CallKeeps(call, inv, post) && 1 <= attempt <= cap + 1
    ensures var outcome := OnModel(call, cap, e, modelId, attempt);
      && |outcome.0.calls| <= |e.calls| + (cap + 1 - attempt)
      && (if outcome.1.NextModel? then inv(outcome.0) else post(outcome))
      && !outcome.1.TryAgain?
    decreases cap - attempt
  {
    if attempt <= cap && call(e, modelId, attempt).1.TryAgain? {
      OnModelInduction(call, cap, call(e, modelId, attempt).0, modelId, attempt + 1, inv, post);
    }
  }

  lemma {:induction false} OnCandidatesInduction(call: Caller, o: Options, e: Engine, models: seq<string>,
                                                 inv: Invariant, post: Outcome)
    requires inv(e) && CallKeeps(call, inv, post) && SkipKeeps(inv, post)
    ensures var outcome := OnCandidates(call, o, e, models);
      && |outcome.0.calls| <= |e.calls| + Cap(o.config) * CountUsable(o, models)
      && post(outcome) && (outcome.1.Delivered? || outcome.1.Exhausted?)
    decreases |models|
  {
    if models != [] {
      if Usable(o, models[0]) {
        OnModelInduction(call, Cap(o.config), e, models[0], 1, inv, post);
        var outcome := OnModel(call, Cap(o.config), e, models[0], 1);
        if outcome.1.NextModel? {
          OnCandidatesInduction(call, o, outcome.0, models[1..], inv, post);
        }
        Distribute(Cap(o.config), CountUsable(o, models[1..]));
      } else {
        OnCandidatesInduction(call, o, WithSkipped(e, models[0]), models[1..], inv, post);
      }
    }
  }

  lemma Distribute(k: nat, n: nat)
    ensures k * (n + 1) == k * n + k
    ensures k * n >= 0
  {
  }

  lemma CallsKeepSound(o: Options)
    ensures CallKeeps(ProviderOf(o), e => Between(o, e), outcome => EndsWell(o, outcome))
  {
    forall e, m, n | Between(o, e)
      ensures EndsCall(o, Called(o, e, m, n), |e.calls| + 1)
    {
      CalledSound(o, e, m, n);
    }
  }

  lemma SkipsKeepSound(o: Options)
    ensures SkipKeeps(e => Between(o, e), outcome => EndsWell(o, outcome))
  {
    forall e, m | Between(o, e) ensures Between(o, WithSkipped(e, m)) {
      SkippedSound(o, e, m);
    }
  }

  // ---- the theorems ----

  lemma GeneratedSound(o: Options)
    ensures EndsWell(o, Generated(o)) && (Generated(o).1.Delivered? || Generated(o).1.Exhausted?)
    ensures Sound(o, Generated(o).0)
    ensures |Generated(o).0.calls| <= Cap(o.config) * CountUsable(o, CandidateModels(o.plan))
  {
    CallsKeepSound(o);
    SkipsKeepSound(o);
    OnCandidatesInduction(ProviderOf(o), o, IDLE, CandidateModels(o.plan),
                          e => Between(o, e), outcome => EndsWell(o, outcome));
  }

  /** At most (usable distinct candidates x attempt cap) provider calls, and a trail that accounts for them. */
  lemma BoundedAndAccounted(o: Options)
    ensures var (e, verdict) := Generated(o);
      && |e.calls| <= Cap(o.config) * CountUsable(o, CandidateModels(o.plan))
      && AttemptCount(e.trail) == |e.calls|
      && e.backoffTotalMs == TotalBackoff(e.trail)
      && BackoffsBounded(o, e.trail)
      && (verdict.Delivered? ==>
            e.trail != [] && e.trail[|e.trail| - 1].status.Succeeded? && NoSuccess(e.trail[..|e.trail| - 1]))
      && (!verdict.Delivered? ==> verdict.Exhausted? && NoSuccess(e.trail))
  {
    GeneratedSound(o);
  }

  /**
   * The resumed prefix of each attempt is a prefix of every later attempt's, across models
   * too, and of the steps returned; it is empty or ends in a tool result. Each returned step
   * is credited to one attempt, in non-decreasing order.
   */
  lemma ProgressIsNeverLost(o: Options)
    ensures var (e, verdict) := Generated(o);
      && (forall i :: 0 <= i < |e.calls| ==> EndsCleanly(e.calls[i].resumed.steps))
      && (forall i, j :: 0 <= i < j < |e.calls| ==> e.calls[i].resumed.steps <= e.calls[j].resumed.steps)
      && (verdict.Delivered? ==>
            && Attributed(verdict.result.steps, verdict.result.stepAttempts, |e.calls|)
            && forall i :: 0 <= i < |e.calls| ==> e.calls[i].resumed.steps <= verdict.result.steps)
  {
    GeneratedSound(o);
    var (e, verdict) := Generated(o);
    if verdict.Delivered? {
      assert Returns(e, verdict.result);
    }
  }

  /** Over all attempts and models of one generate(), a fenced tool has at most one effectful run. */
  lemma AtMostOneEffectPerGenerate(o: Options)
    ensures var w := Generated(o).0.world;
      && (forall i, j :: 0 <= i < |w.finished| && 0 <= j < |w.finished| && i != j
            && F.Committed(w.finished[i]) && F.Committed(w.finished[j])
            ==> w.finished[i].tool != w.finished[j].tool)
      && (forall m, n :: m in w.inFlight && n in w.inFlight && m != n
            ==> w.inFlight[m].tool != w.inFlight[n].tool)
  {
    GeneratedSound(o);
    var w := Generated(o).0.world;
    assert F.Guarded(w);
  }

  /**
   * Whenever an attempt after the first starts, every evidenced action has its result among
   * the resumed steps. So a call can still be in flight then only if its call id was reused.
   */
  lemma NoReplayOverMissingResult(o: Options, i: nat)
    requires QuietWaits(o)
    requires 0 < i < |Generated(o).0.calls|
    ensures var call := Generated(o).0.calls[i];
      && StartsCovered(call)
      && (forall n :: n in call.world.inFlight ==>
            HasResult(call.resumed, call.world.inFlight[n].tool, call.world.inFlight[n].callId))
  {
    GeneratedSound(o);
    var call := Generated(o).0.calls[i];
    var results := Flatten(Results(call.resumed.steps));
    forall n | n in call.world.inFlight
      ensures HasResult(call.resumed, call.world.inFlight[n].tool, call.world.inFlight[n].callId)
    {
      F.InFlightIsEvidenced(call.world, n);
      var item := Evidence(call.world.inFlight[n].tool, call.world.inFlight[n].callId, Executing, None);
      assert Covered(item, results);
    }
  }

  predicate HasResult(resumed: Resumable, tool: string, callId: Option<string>) {
    var results := Flatten(Results(resumed.steps));
    exists i :: 0 <= i < |results| && results[i].toolName == Some(tool) && results[i].toolCallId == callId
  }

  // ---- one provider call ----

  /** How a call leaves the calls made, the steps delivered and the steps carried. */
  lemma CallEnds(o: Options, e: Engine, modelId: string, attempt: nat)
    ensures var outcome := Called(o, e, modelId, attempt);
      outcome.0.calls == WithCall(e, modelId, attempt)
      && match o.script(|e.calls| + 1).end
         case Completed(steps) => outcome.1 == Delivered(SuccessOf(e, modelId, steps))
         case Broke(completed, _) =>
           !outcome.1.Delivered? && outcome.0.carried == Some(CarriedOver(e, modelId, completed))
  {
  }
}
