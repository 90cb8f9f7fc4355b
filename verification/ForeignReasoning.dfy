/** Reasoning parts of one model among the steps another model resumes. */
module ForeignReasoning {
  import opened Basics
  import opened ToolReplayFence
  import opened ResumedLoop
  import opened Retry
  import opened LlmExecutor
  import opened ExecutorGuarantees
  import F = FenceSafety

  /** Carried steps are credited to the model of the call that failed last. */
  ghost predicate Linked(e: Engine) {
    && (forall i :: 0 < i < |e.calls| ==> e.calls[i].resumed.modelId == e.calls[i - 1].modelId)
    && (e.calls != [] && e.carried.Some? ==> e.carried.value.modelId == e.calls[|e.calls| - 1].modelId)
    && (e.calls != [] ==> e.carried.Some?)
  }

  ghost predicate LinkedOutcome(outcome: (Engine, Verdict)) {
    match outcome case (e, verdict) =>
      (forall i :: 0 < i < |e.calls| ==> e.calls[i].resumed.modelId == e.calls[i - 1].modelId)
      && (!verdict.Delivered? ==> Linked(e))
  }

  lemma CalledLinked(o: Options, e: Engine, modelId: string, attempt: nat)
    requires Linked(e)
    ensures LinkedOutcome(Called(o, e, modelId, attempt))
    ensures |Called(o, e, modelId, attempt).0.calls| == |e.calls| + 1
  {
    CallEnds(o, e, modelId, attempt);
    LinkGrows(e, modelId, attempt);
  }

  lemma LinkGrows(e: Engine, modelId: string, attempt: nat)
    requires Linked(e)
    ensures var calls := WithCall(e, modelId, attempt);
      forall i :: 0 < i < |calls| ==> calls[i].resumed.modelId == calls[i - 1].modelId
  {
    var calls := WithCall(e, modelId, attempt);
    forall i | 0 < i < |calls| ensures calls[i].resumed.modelId == calls[i - 1].modelId {
      if i < |e.calls| { assert calls[i] == e.calls[i] && calls[i - 1] == e.calls[i - 1]; }
    }
  }

  lemma RunLinked(o: Options, i: nat)
    requires 0 < i < |Generated(o).0.calls|
    ensures Generated(o).0.calls[i].resumed.modelId == Generated(o).0.calls[i - 1].modelId
  {
    var inv: Invariant := e => Linked(e);
    var post: Outcome := outcome => LinkedOutcome(outcome);
    assert CallKeeps(ProviderOf(o), inv, post) by {
      forall e, m, n | Linked(e)
        ensures |Called(o, e, m, n).0.calls| == |e.calls| + 1
        ensures LinkedOutcome(Called(o, e, m, n))
      {
        CalledLinked(o, e, m, n);
      }
    }
    OnCandidatesInduction(ProviderOf(o), o, IDLE, CandidateModels(o.plan), inv, post);
  }

  /**
   * In any run, an attempt after the first sends reasoning parts if and only if the attempt before it was on
   * the same model and the resumed steps hold some, whichever models those steps came from.
   */
  lemma ReasoningSentExactlyWhen(o: Options, i: nat)
    requires 0 < i < |Generated(o).0.calls|
    ensures var (call, before) := (Generated(o).0.calls[i], Generated(o).0.calls[i - 1]);
      CarriesReasoning(ResumedPrefix(call.resumed, call.modelId))
      <==> call.modelId == before.modelId && CarriesReasoning(History(call.resumed.steps))
  {
    RunLinked(o, i);
    var call := Generated(o).0.calls[i];
    ReasoningResentExactlyWhen(call.resumed, call.modelId);
  }

  /** Across a switch of model, no reasoning part of the earlier model is sent with the first attempt. */
  lemma FirstAttemptAfterSwitchIsStripped(o: Options, i: nat)
    requires 0 < i < |Generated(o).0.calls|
    requires Generated(o).0.calls[i].modelId != Generated(o).0.calls[i - 1].modelId
    ensures var call := Generated(o).0.calls[i];
      !CarriesReasoning(ResumedPrefix(call.resumed, call.modelId))
  {
    ReasoningSentExactlyWhen(o, i);
  }

  /**
   * A failed call takes over the credit for all carried steps: on the next attempt at its model, the
   * reasoning of every earlier model's steps is sent unstripped.
   */
  lemma FailureTakesCredit(e: Engine, modelId: string, completed: seq<Step>)
    requires Carrying(e) && CarriesReasoning(History(Selected(e.carried).steps))
    ensures var next := Selected(Some(CarriedOver(e, modelId, completed)));
      CarriesReasoning(ResumedPrefix(next, modelId))
  {
    SelectedAttributed(e);
    var resumed := Selected(e.carried);
    SelectionGrows(resumed.steps, completed);
    var next := Selected(Some(CarriedOver(e, modelId, completed)));
    assert next.steps == resumed.steps + next.steps[|resumed.steps|..];
    HistoryAppend(resumed.steps, next.steps[|resumed.steps|..]);
    var before, after := History(resumed.steps), History(next.steps);
    var k :| 0 <= k < |before| && before[k].role == Assistant && before[k].content.Parts?
             && exists j :: 0 <= j < |before[k].content.parts| && before[k].content.parts[j].Reasoning?;
    assert after[k] == before[k];
  }

  // ---- a run in which it is sent to another model ----

  /** A step of model a that thought aloud and ended in a tool result. */
  const THOUGHT := Step([Message(Assistant, Parts([Reasoning("because")])), Message(Tool, Text("done"))], [])

  /** Model a gives up after that step; model b fails once and is tried again. */
  const SWITCHED := Options(
    Plan("a", ["b"]), Config(None, 0, 0), F.SUCCESS_ONLY, false, _ => true, _ => true,
    n => CallScript([], if n == 1 then Broke([THOUGHT], ProviderError(NonRetryable, None))
                        else if n == 2 then Broke([], ProviderError(Retryable, None))
                        else Completed([]), []))

  lemma ThoughtIsCarried()
    ensures ResumableLength([THOUGHT]) == 1 && CarriesReasoning(History([THOUGHT]))
    ensures Flatten(Results([THOUGHT])) == [] && Flatten(Results([])) == []
  {
    assert Results([THOUGHT])[1..] == [] && Results([THOUGHT])[0] == [];
    assert [THOUGHT][..0] == [];
    assert History([THOUGHT]) == THOUGHT.messages;
    assert THOUGHT.messages[0].content.parts[0].Reasoning?;
  }

  /** A call that breaks with no tool event, over an idle fence. */
  lemma QuietFailure(o: Options, e: Engine, modelId: string, attempt: nat, completed: seq<Step>, error: ProviderError)
    requires o.script(|e.calls| + 1) == CallScript([], Broke(completed, error), []) && e.world == F.START
    requires Flatten(Results(CarriedOver(e, modelId, completed).steps)) == []
    ensures var (next, verdict) := Called(o, e, modelId, attempt);
      && next.calls == WithCall(e, modelId, attempt) && next.world == F.START
      && next.carried == Some(CarriedOver(e, modelId, completed))
      && verdict == if ShouldRetry(error.category, attempt, o.config) then TryAgain else NextModel
  {
    var failed := AfterFailure(o, e, modelId, attempt, completed, error, F.START);
    assert failed.world == F.START;
    assert Resumes(failed);
    CallEnds(o, e, modelId, attempt);
    assert Called(o, e, modelId, attempt) == Decided(o, failed, attempt, error, []);
  }

  /** The steps resumed by an engine are the thought, credited to the given model. */
  ghost predicate Resuming(e: Engine, modelId: string) {
    e.world == F.START && Selected(e.carried).steps == [THOUGHT] && Selected(e.carried).modelId == modelId
  }

  lemma FirstModelGivesUp()
    ensures var (e, verdict) := Called(SWITCHED, IDLE, "a", 1);
      verdict == NextModel && Resuming(e, "a") && e.calls == WithCall(IDLE, "a", 1)
  {
    ThoughtIsCarried();
    assert Selected(None).steps + [THOUGHT] == [THOUGHT];
    QuietFailure(SWITCHED, IDLE, "a", 1, [THOUGHT], ProviderError(NonRetryable, None));
  }

  lemma SecondModelFailsOnce(e: Engine)
    requires Resuming(e, "a") && |e.calls| == 1
    ensures var (next, verdict) := Called(SWITCHED, e, "b", 1);
      verdict == TryAgain && Resuming(next, "b") && next.calls == WithCall(e, "b", 1)
  {
    ThoughtIsCarried();
    assert Selected(e.carried).steps + [] == [THOUGHT];
    QuietFailure(SWITCHED, e, "b", 1, [], ProviderError(Retryable, None));
  }

  /** One attempt on a, two on b. */
  lemma OneThenTwo(call: Caller, o: Options, a: string, b: string,
                   start: Engine, first: Engine, second: Engine)
    requires Usable(o, a) && Usable(o, b) && Cap(o.config) >= 2
    requires call(start, a, 1).0 == first && call(start, a, 1).1 == NextModel
    requires call(first, b, 1).0 == second && call(first, b, 1).1 == TryAgain
    requires call(second, b, 2).1.Delivered?
    ensures OnCandidates(call, o, start, [a, b]) == call(second, b, 2)
  {
    var cap, last := Cap(o.config), call(second, b, 2);
    assert OnModel(call, cap, start, a, 1) == (first, NextModel);
    assert OnModel(call, cap, second, b, 2) == last;
    assert OnModel(call, cap, first, b, 1) == last;
    assert [a, b][1..] == [b];
    assert OnCandidates(call, o, first, [b]) == AfterModel(call, o, last, [b][1..]) == last;
    assert OnCandidates(call, o, start, [a, b]) == AfterModel(call, o, (first, NextModel), [b]);
  }

  lemma TwoCandidates()
    ensures CandidateModels(SWITCHED.plan) == ["a", "b"] && Cap(SWITCHED.config) == 3
  {
    assert ["a"] + ["b"] == ["a", "b"] && ["a", "b"][..1] == ["a"] && ["a"][..0] == [];
  }

  lemma SecondModelAnswers(e: Engine)
    requires |e.calls| == 2
    ensures Called(SWITCHED, e, "b", 2).0.calls == WithCall(e, "b", 2) && Called(SWITCHED, e, "b", 2).1.Delivered?
  {
    CallEnds(SWITCHED, e, "b", 2);
  }

  lemma SwitchedRun() returns (first: Engine, second: Engine)
    ensures Resuming(first, "a") && Resuming(second, "b")
    ensures first.calls == WithCall(IDLE, "a", 1) && second.calls == WithCall(first, "b", 1)
    ensures Generated(SWITCHED).0.calls == WithCall(second, "b", 2) && Generated(SWITCHED).1.Delivered?
  {
    FirstModelGivesUp();
    first := Called(SWITCHED, IDLE, "a", 1).0;
    SecondModelFailsOnce(first);
    second := Called(SWITCHED, first, "b", 1).0;
    SecondModelAnswers(second);
    TwoCandidates();
    OneThenTwo(ProviderOf(SWITCHED), SWITCHED, "a", "b", IDLE, first, second);
  }

  lemma ThreeCalls(start: Engine, first: Engine, second: Engine, calls: seq<ProviderCall>)
    requires start.calls == [] && first.calls == WithCall(start, "a", 1) && second.calls == WithCall(first, "b", 1)
    requires calls == WithCall(second, "b", 2)
    ensures |calls| == 3 && calls[0].modelId == "a" && calls[1].modelId == calls[2].modelId == "b"
    ensures calls[1].resumed == Selected(first.carried) && calls[2].resumed == Selected(second.carried)
  {
  }

  /** The second attempt on b sends the reasoning of a, which its first attempt did not. */
  lemma ForeignReasoningIsResentLater()
    ensures var (e, verdict) := Generated(SWITCHED);
      && verdict.Delivered? && |e.calls| == 3
      && e.calls[0].modelId == "a" && e.calls[1].modelId == e.calls[2].modelId == "b"
      && e.calls[1].resumed.steps == e.calls[2].resumed.steps == [THOUGHT]
      && !CarriesReasoning(ResumedPrefix(e.calls[1].resumed, "b"))
      && CarriesReasoning(ResumedPrefix(e.calls[2].resumed, "b"))
  {
    var first, second := SwitchedRun();
    ThreeCalls(IDLE, first, second, Generated(SWITCHED).0.calls);
    ThoughtIsCarried();
    ReasoningResentExactlyWhen(Selected(first.carried), "b");
    ReasoningResentExactlyWhen(Selected(second.carried), "b");
  }
}
