/**
 * Resume is transparent: over one model and a deterministic step oracle, with failures
 * only where a step is requested, a run that survives its failures returns exactly the
 * steps of the run without failures.
 */
module ResumeTransparency {
  import opened Basics
  import opened ResumedLoop
  import opened Retry
  import opened LlmExecutor
  import opened ExecutorGuarantees

  /** The caller's request, the SDK and oracle behind it, and the one model used. */
  datatype Setting = Setting(sdk: Sdk, params: Params, modelId: string)

  /** The SDK loops on only after a step whose tool calls all have results. */
  ghost predicate LoopsOnToolResults(s: Setting) {
    forall step :: s.sdk.goesOn(step) ==> EndsWithToolResult(step)
  }

  /** The call behaves as the SDK does on the parameters generate builds for it. */
  ghost predicate AsOracle(s: Setting, call: ProviderCall, end: CallEnd) {
    var params := AttemptParams(s.params, call.resumed, s.modelId);
    call.modelId == s.modelId &&
    match end
    case Completed(steps) => Finished(s.sdk, s.modelId, params, steps)
    case Broke(completed, _) => Requesting(s.sdk, s.modelId, params, completed)
  }

  ghost predicate AllAsOracle(s: Setting, o: Options, calls: seq<ProviderCall>) {
    forall i :: 0 <= i < |calls| ==> AsOracle(s, calls[i], o.script(i + 1).end)
  }

  ghost predicate OnCourse(s: Setting, e: Engine) {
    var resumed := Selected(e.carried);
    Requesting(s.sdk, s.modelId, s.params, resumed.steps)
    && (resumed.steps == [] || resumed.modelId == s.modelId)
  }

  /** A failure at a request leaves only steps that go on, so all of them are resumed. */
  lemma FailureStaysOnCourse(s: Setting, e: Engine, completed: seq<Step>)
    requires LoopsOnToolResults(s) && OnCourse(s, e)
    requires Requesting(s.sdk, s.modelId, AttemptParams(s.params, Selected(e.carried), s.modelId), completed)
    ensures var carried := CarriedOver(e, s.modelId, completed);
      Selected(Some(carried)).steps == carried.steps
      && Requesting(s.sdk, s.modelId, s.params, carried.steps)
  {
    var resumed := Selected(e.carried);
    var inner := AttemptParams(s.params, resumed, s.modelId);
    ResumedRunExtends(s.sdk, s.modelId, s.params, resumed, completed);
    forall i | 0 <= i < |completed| ensures EndsWithToolResult(completed[i]) {
      assert Continues(s.sdk, inner, completed[..i + 1]) by {
        if i + 1 == |completed| { assert completed[..i + 1] == completed; }
      }
      assert completed[..i + 1][i] == completed[i];
    }
    SelectionGrows(resumed.steps, completed);
  }

  ghost predicate OracleOnCourse(s: Setting, o: Options, e: Engine) {
    AllAsOracle(s, o, e.calls) ==> OnCourse(s, e)
  }

  ghost predicate OracleOutcome(s: Setting, o: Options, outcome: (Engine, Verdict)) {
    match outcome
    case (e, Delivered(result)) => AllAsOracle(s, o, e.calls) ==> Finished(s.sdk, s.modelId, s.params, result.steps)
    case (e, Exhausted) => true
    case (e, _) => OracleOnCourse(s, o, e)
  }

  lemma EarlierCallsAsOracle(s: Setting, o: Options, e: Engine, modelId: string, attempt: nat)
    requires AllAsOracle(s, o, WithCall(e, modelId, attempt))
    ensures AllAsOracle(s, o, e.calls)
    ensures AsOracle(s, ProviderCall(modelId, attempt, Selected(e.carried), e.world), o.script(|e.calls| + 1).end)
  {
    var calls := WithCall(e, modelId, attempt);
    assert forall i :: 0 <= i < |e.calls| ==> calls[i] == e.calls[i];
    assert AsOracle(s, calls[|e.calls|], o.script(|e.calls| + 1).end);
  }

  lemma CalledTransparent(s: Setting, o: Options, e: Engine, modelId: string, attempt: nat)
    requires LoopsOnToolResults(s) && OracleOnCourse(s, o, e)
    ensures OracleOutcome(s, o, Called(o, e, modelId, attempt))
    ensures |Called(o, e, modelId, attempt).0.calls| == |e.calls| + 1
  {
    CallEnds(o, e, modelId, attempt);
    if AllAsOracle(s, o, WithCall(e, modelId, attempt)) {
      EarlierCallsAsOracle(s, o, e, modelId, attempt);
      match o.script(|e.calls| + 1).end {
        case Completed(steps) =>
          ResumedRunExtends(s.sdk, s.modelId, s.params, Selected(e.carried), steps);
        case Broke(completed, error) =>
          FailureStaysOnCourse(s, e, completed);
      }
    }
  }

  /** The steps returned are those of the SDK loop run once, from the start, without failure. */
  lemma SurvivorIsUninterrupted(s: Setting, o: Options)
    requires LoopsOnToolResults(s)
    requires AllAsOracle(s, o, Generated(o).0.calls)
    requires Generated(o).1.Delivered?
    ensures Finished(s.sdk, s.modelId, s.params, Generated(o).1.result.steps)
  {
    var inv: Invariant := e => OracleOnCourse(s, o, e);
    var post: Outcome := outcome => OracleOutcome(s, o, outcome);
    assert CallKeeps(ProviderOf(o), inv, post) by {
      forall e, m, n | OracleOnCourse(s, o, e)
        ensures |Called(o, e, m, n).0.calls| == |e.calls| + 1
        ensures OracleOutcome(s, o, Called(o, e, m, n))
      {
        CalledTransparent(s, o, e, m, n);
      }
    }
    assert SkipKeeps(inv, post);
    OnCandidatesInduction(ProviderOf(o), o, IDLE, CandidateModels(o.plan), inv, post);
  }

  /** Two runs of the same request, under any two failure schedules they survive, return the same steps. */
  lemma ResumeIsTransparent(s: Setting, o: Options, faultless: Options)
    requires LoopsOnToolResults(s)
    requires AllAsOracle(s, o, Generated(o).0.calls) && AllAsOracle(s, faultless, Generated(faultless).0.calls)
    requires Generated(o).1.Delivered? && Generated(faultless).1.Delivered?
    ensures Generated(o).1.result.steps == Generated(faultless).1.result.steps
  {
    SurvivorIsUninterrupted(s, o);
    SurvivorIsUninterrupted(s, faultless);
    FinishedUnique(s.sdk, s.modelId, s.params,
                   Generated(o).1.result.steps, Generated(faultless).1.result.steps);
  }
}
