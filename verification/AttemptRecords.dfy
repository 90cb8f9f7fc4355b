/** What a run of generate() returns and reports: the steps and their credit, and the attempt trail. */
module AttemptRecords {
  import opened Basics
  import opened ToolReplayFence
  import opened ResumedLoop
  import opened Retry
  import opened LlmExecutor
  import opened ExecutorGuarantees
  import opened AttemptSequence
  import F = FenceSafety

  // ---- the steps and who delivered them ----

  function Made(end: CallEnd): seq<Step> {
    match end
    case Completed(steps) => steps
    case Broke(completed, _) => completed
  }

  /** The n-th call delivered the j-th step: it resumed fewer, and its own steps reach that far. */
  ghost predicate MadeBy(o: Options, calls: seq<ProviderCall>, steps: seq<Step>, j: nat, n: nat) {
    && j < |steps| && 1 <= n <= |calls|
    && var start := |calls[n - 1].resumed.steps|;
    && start <= j < start + |Made(o.script(n).end)|
    && steps[j] == Made(o.script(n).end)[j - start]
  }

  ghost predicate Credited(o: Options, calls: seq<ProviderCall>, steps: seq<Step>, attempts: seq<nat>) {
    |attempts| == |steps| && forall j :: 0 <= j < |steps| ==> MadeBy(o, calls, steps, j, attempts[j])
  }

  ghost predicate CarriedCredited(o: Options, e: Engine) {
    e.carried.Some? ==> Credited(o, e.calls, e.carried.value.steps, e.carried.value.attempts)
  }

  ghost predicate ResultCredited(o: Options, outcome: (Engine, Verdict)) {
    match outcome
    case (e, Delivered(result)) =>
      && e.calls != [] && Credited(o, e.calls, result.steps, result.stepAttempts)
      && var n := |e.calls|;
         && o.script(n).end.Completed? && result.modelId == e.calls[n - 1].modelId
         && result.steps == e.calls[n - 1].resumed.steps + o.script(n).end.steps
    case (e, _) => CarriedCredited(o, e)
  }

  /** What a call resumes is credited, and what it adds is credited to it. */
  lemma CreditGrows(o: Options, e: Engine, modelId: string, attempt: nat)
    requires CarriedCredited(o, e)
    ensures var n, r := |e.calls| + 1, Selected(e.carried);
      var made := Made(o.script(n).end);
      Credited(o, WithCall(e, modelId, attempt), r.steps + made, r.attempts + Repeat(|made|, n))
  {
    var n, r := |e.calls| + 1, Selected(e.carried);
    var made, calls := Made(o.script(n).end), WithCall(e, modelId, attempt);
    var steps, attempts := r.steps + made, r.attempts + Repeat(|made|, n);
    assert |r.attempts| == |r.steps|;
    forall j | 0 <= j < |steps| ensures MadeBy(o, calls, steps, j, attempts[j]) {
      if j < |r.steps| {
        assert steps[j] == r.steps[j] && attempts[j] == r.attempts[j];
        assert MadeBy(o, e.calls, e.carried.value.steps, j, r.attempts[j]);
        assert calls[r.attempts[j] - 1] == e.calls[r.attempts[j] - 1];
      } else {
        assert attempts[j] == n && calls[n - 1].resumed == r && steps[j] == made[j - |r.steps|];
      }
    }
  }

  lemma CalledCredits(o: Options, e: Engine, modelId: string, attempt: nat)
    requires CarriedCredited(o, e)
    ensures ResultCredited(o, Called(o, e, modelId, attempt))
    ensures |Called(o, e, modelId, attempt).0.calls| == |e.calls| + 1
  {
    CallEnds(o, e, modelId, attempt);
    CreditGrows(o, e, modelId, attempt);
  }

  lemma RunCredits(o: Options)
    ensures ResultCredited(o, Generated(o))
  {
    var inv: Invariant := e => CarriedCredited(o, e);
    var post: Outcome := outcome => ResultCredited(o, outcome);
    assert CallKeeps(ProviderOf(o), inv, post) by {
      forall e, m, n | CarriedCredited(o, e)
        ensures |Called(o, e, m, n).0.calls| == |e.calls| + 1
        ensures ResultCredited(o, Called(o, e, m, n))
      {
        CalledCredits(o, e, m, n);
      }
    }
    assert SkipKeeps(inv, post);
    OnCandidatesInduction(ProviderOf(o), o, IDLE, CandidateModels(o.plan), inv, post);
  }

  /** A returned result is what its last call resumed and what that call made, under the model of that call. */
  lemma ResultIsAssembled(o: Options)
    requires Generated(o).1.Delivered?
    ensures var (e, verdict) := Generated(o);
      var n := |e.calls|;
      && n > 0 && o.script(n).end.Completed?
      && verdict.result.modelId == e.calls[n - 1].modelId
      && verdict.result.steps == e.calls[n - 1].resumed.steps + o.script(n).end.steps
  {
    RunCredits(o);
  }

  /** A returned step is credited to the call that made it. */
  lemma CreditIsRight(o: Options, j: nat)
    requires Generated(o).1.Delivered? && j < |Generated(o).1.result.steps|
    ensures var (e, verdict) := Generated(o);
      && |verdict.result.stepAttempts| == |verdict.result.steps|
      && var n := verdict.result.stepAttempts[j];
      && 1 <= n <= |e.calls|
      && var start := |e.calls[n - 1].resumed.steps|;
      && var made := (match o.script(n).end
                      case Completed(steps) => steps
                      case Broke(completed, _) => completed);
      && start <= j < start + |made| && verdict.result.steps[j] == made[j - start]
  {
    RunCredits(o);
    var (e, verdict) := Generated(o);
    assert MadeBy(o, e.calls, verdict.result.steps, j, verdict.result.stepAttempts[j]);
  }

  // ---- the entries of the calls ----

  function Attempts(trail: seq<TraceEntry>): seq<TraceEntry> {
    if trail == [] then []
    else
      var last := trail[|trail| - 1];
      Attempts(trail[..|trail| - 1]) + (if last.status.Skipped? then [] else [last])
  }

  lemma AttemptsAppend(trail: seq<TraceEntry>, entry: TraceEntry)
    ensures Attempts(trail + [entry]) == Attempts(trail) + (if entry.status.Skipped? then [] else [entry])
  {
    assert (trail + [entry])[..|trail|] == trail;
  }

  /** The entry of the n-th call. */
  ghost predicate Tells(o: Options, entry: TraceEntry, call: ProviderCall, n: nat) {
    && entry.modelId == call.modelId && entry.attempt == call.attempt
    && entry.resumedSteps == |call.resumed.steps|
    && match o.script(n).end
       case Completed(_) => entry.status == AttemptStatus.Succeeded && entry.backoffMs == None
       case Broke(_, error) =>
         && entry.status == Failed(error.category)
         && entry.backoffMs == if FateOf(o, call, n) != Retries then None
                               else Some(GetBackoffMs(call.attempt, error, o.config))
  }

  ghost predicate AllTold(o: Options, e: Engine) {
    && |Attempts(e.trail)| == |e.calls|
    && forall i :: 0 <= i < |e.calls| ==> Tells(o, Attempts(e.trail)[i], e.calls[i], i + 1)
  }

  lemma CallTells(o: Options, e: Engine, modelId: string, attempt: nat) returns (entry: TraceEntry)
    ensures Called(o, e, modelId, attempt).0.trail == e.trail + [entry] && !entry.status.Skipped?
    ensures Tells(o, entry, ProviderCall(modelId, attempt, Selected(e.carried), e.world), |e.calls| + 1)
  {
    var call, n := ProviderCall(modelId, attempt, Selected(e.carried), e.world), |e.calls| + 1;
    CallDecides(o, e, modelId, attempt);
    entry := CallWrites(o, e, modelId, attempt);
  }

  lemma CallWrites(o: Options, e: Engine, modelId: string, attempt: nat) returns (entry: TraceEntry)
    ensures Called(o, e, modelId, attempt).0.trail == e.trail + [entry]
    ensures entry == TraceEntry(
        modelId, attempt,
        match o.script(|e.calls| + 1).end
        case Completed(_) => AttemptStatus.Succeeded
        case Broke(_, error) => Failed(error.category),
        if o.script(|e.calls| + 1).end.Broke? && Called(o, e, modelId, attempt).1.TryAgain?
        then Some(GetBackoffMs(attempt, o.script(|e.calls| + 1).end.error, o.config)) else None,
        |Selected(e.carried).steps|)
  {
    var trail := Called(o, e, modelId, attempt).0.trail;
    entry := trail[|e.trail|];
    assert trail == e.trail + [entry];
  }

  lemma CalledTold(o: Options, e: Engine, modelId: string, attempt: nat)
    requires AllTold(o, e)
    ensures AllTold(o, Called(o, e, modelId, attempt).0)
    ensures |Called(o, e, modelId, attempt).0.calls| == |e.calls| + 1
  {
    var entry := CallTells(o, e, modelId, attempt);
    CallEnds(o, e, modelId, attempt);
    AttemptsAppend(e.trail, entry);
    ToldGrows(o, e, Called(o, e, modelId, attempt).0, entry);
  }

  lemma ToldGrows(o: Options, e: Engine, e': Engine, entry: TraceEntry)
    requires AllTold(o, e) && |e'.calls| == |e.calls| + 1 && e'.calls[..|e.calls|] == e.calls
    requires Attempts(e'.trail) == Attempts(e.trail) + [entry]
    requires Tells(o, entry, e'.calls[|e.calls|], |e.calls| + 1)
    ensures AllTold(o, e')
  {
    forall i | 0 <= i < |e'.calls| ensures Tells(o, Attempts(e'.trail)[i], e'.calls[i], i + 1) {
      if i < |e.calls| { assert e'.calls[i] == e'.calls[..|e.calls|][i] == e.calls[i]; }
    }
  }

  lemma SkippedTold(o: Options, e: Engine, modelId: string)
    requires AllTold(o, e)
    ensures AllTold(o, WithSkipped(e, modelId))
  {
    AttemptsAppend(e.trail, SkippedEntry(modelId));
  }

  lemma RunTold(o: Options)
    ensures AllTold(o, Generated(o).0)
  {
    var inv: Invariant := e => AllTold(o, e);
    var post: Outcome := (outcome: (Engine, Verdict)) => AllTold(o, outcome.0);
    assert CallKeeps(ProviderOf(o), inv, post) by {
      forall e, m, n | AllTold(o, e)
        ensures |Called(o, e, m, n).0.calls| == |e.calls| + 1
        ensures AllTold(o, Called(o, e, m, n).0)
      {
        CalledTold(o, e, m, n);
      }
    }
    assert SkipKeeps(inv, post) by {
      forall e, m | AllTold(o, e) ensures AllTold(o, WithSkipped(e, m)) { SkippedTold(o, e, m); }
    }
    OnCandidatesInduction(ProviderOf(o), o, IDLE, CandidateModels(o.plan), inv, post);
  }

  /**
   * The entries that are not skipped candidates tell the calls one by one: model, attempt, how many steps were
   * resumed, how it ended, and the backoff exactly when the same model is called next.
   */
  lemma TrailTellsCalls(o: Options, i: nat)
    requires i < |Generated(o).0.calls|
    ensures var e := Generated(o).0;
      && |Attempts(e.trail)| == |e.calls|
      && var (entry, c) := (Attempts(e.trail)[i], e.calls[i]);
      && entry.modelId == c.modelId && entry.attempt == c.attempt && entry.resumedSteps == |c.resumed.steps|
      && match o.script(i + 1).end
         case Completed(_) => entry.status == AttemptStatus.Succeeded && entry.backoffMs == None
         case Broke(_, error) =>
           && entry.status == Failed(error.category)
           && entry.backoffMs == if i < |e.calls| - 1 && e.calls[i + 1].modelId == c.modelId
                                 then Some(GetBackoffMs(c.attempt, error, o.config)) else None
  {
    RunTold(o);
    WhatFollows(o, i);
    var e := Generated(o).0;
    assert Tells(o, Attempts(e.trail)[i], e.calls[i], i + 1);
  }

  // ---- the skipped candidates ----

  /** The entry after another is of the same callable model, or of the candidate that comes next in the list. */
  ghost predicate Adjacent(o: Options, all: seq<string>, a: TraceEntry, b: TraceEntry) {
    (a.modelId == b.modelId && Fits(o, a.modelId))
    || exists p :: 0 <= p < |all| - 1 && all[p] == a.modelId && all[p + 1] == b.modelId
  }

  /** Candidates are entered in order, none left out, as skipped if and only if they cannot be called. */
  ghost predicate InOrder(o: Options, all: seq<string>, trail: seq<TraceEntry>) {
    && (trail != [] ==> all != [] && trail[0].modelId == all[0])
    && (forall t :: 0 <= t < |trail| ==>
          (Fits(o, trail[t].modelId) <==> !trail[t].status.Skipped?)
          && (trail[t].status.Skipped? ==> trail[t] == TraceEntry(trail[t].modelId, 0, Skipped, None, 0)))
    && forall t, u :: 0 <= t < |trail| - 1 && u == t + 1 ==> Adjacent(o, all, trail[t], trail[u])
  }

  /** The trail has got to the candidates before the k-th. */
  ghost predicate Reached(all: seq<string>, trail: seq<TraceEntry>, k: nat) {
    k <= |all| && if k == 0 then trail == [] else trail != [] && trail[|trail| - 1].modelId == all[k - 1]
  }

  /** Every call adds an entry of its model. */
  ghost predicate CallsWrite(call: Caller) {
    forall e, m, n {:trigger call(e, m, n)} ::
      var trail := call(e, m, n).0.trail;
      |trail| == |e.trail| + 1 && trail[..|e.trail|] == e.trail
      && trail[|e.trail|].modelId == m && !trail[|e.trail|].status.Skipped?
  }

  lemma {:induction false} EntryKeepsOrder(o: Options, all: seq<string>, trail: seq<TraceEntry>, entry: TraceEntry)
    requires InOrder(o, all, trail) && (trail == [] ==> all != [] && entry.modelId == all[0])
    requires Fits(o, entry.modelId) <==> !entry.status.Skipped?
    requires entry.status.Skipped? ==> entry == TraceEntry(entry.modelId, 0, Skipped, None, 0)
    requires trail != [] ==> Adjacent(o, all, trail[|trail| - 1], entry)
    ensures InOrder(o, all, trail + [entry])
  {
  }

  ghost predicate IsACall(call: Caller, outcome: (Engine, Verdict)) {
    exists e, m, n {:trigger call(e, m, n)} :: outcome == call(e, m, n)
  }

  lemma {:induction false} OnModelOrder(call: Caller, o: Options, all: seq<string>, cap: nat, e: Engine, k: nat,
                                        attempt: nat)
    requires CallsWrite(call) && 1 <= attempt <= cap && k < |all| && Fits(o, all[k])
    requires InOrder(o, all, e.trail) && (Reached(all, e.trail, k) || Reached(all, e.trail, k + 1))
    ensures var outcome := OnModel(call, cap, e, all[k], attempt);
      && InOrder(o, all, outcome.0.trail) && Reached(all, outcome.0.trail, k + 1)
      && (outcome.1.NextModel? || IsACall(call, outcome))
    decreases cap - attempt
  {
    var mid := call(e, all[k], attempt).0;
    var entry := mid.trail[|e.trail|];
    assert mid.trail == e.trail + [entry];
    if Reached(all, e.trail, k) && k > 0 {
      assert all[k - 1] == e.trail[|e.trail| - 1].modelId && all[(k - 1) + 1] == entry.modelId;
    }
    EntryKeepsOrder(o, all, e.trail, entry);
    if call(e, all[k], attempt).1.TryAgain? && attempt < cap {
      OnModelOrder(call, o, all, cap, mid, k, attempt + 1);
    }
  }

  /** The run ends in a call that answers or throws, or behind the last candidate. */
  lemma {:induction false} OnCandidatesOrder(call: Caller, o: Options, all: seq<string>, e: Engine, k: nat)
    requires CallsWrite(call) && k <= |all| && InOrder(o, all, e.trail) && Reached(all, e.trail, k)
    ensures var outcome := OnCandidates(call, o, e, all[k..]);
      && InOrder(o, all, outcome.0.trail)
      && (IsACall(call, outcome) || Reached(all, outcome.0.trail, |all|))
    decreases |all| - k
  {
    if k < |all| {
      assert all[k..][0] == all[k] && all[k..][1..] == all[k + 1..];
      if Fits(o, all[k]) {
        OnModelOrder(call, o, all, Cap(o.config), e, k, 1);
        var outcome := OnModel(call, Cap(o.config), e, all[k], 1);
        if outcome.1.NextModel? {
          OnCandidatesOrder(call, o, all, outcome.0, k + 1);
        }
      } else {
        if k > 0 {
          assert all[k - 1] == e.trail[|e.trail| - 1].modelId && all[(k - 1) + 1] == all[k];
        }
        EntryKeepsOrder(o, all, e.trail, SkippedEntry(all[k]));
        OnCandidatesOrder(call, o, all, WithSkipped(e, all[k]), k + 1);
      }
    }
  }

  lemma ProviderWrites(o: Options)
    ensures CallsWrite(ProviderOf(o))
  {
    forall e, m, n
      ensures var trail := Called(o, e, m, n).0.trail;
        |trail| == |e.trail| + 1 && trail[..|e.trail|] == e.trail
        && trail[|e.trail|].modelId == m && !trail[|e.trail|].status.Skipped?
    {
      var entry := CallTells(o, e, m, n);
    }
  }

  /** A call that ends the run in an error left an action without its result. */
  lemma ThrowsOverMissing(o: Options, outcome: (Engine, Verdict))
    requires outcome.1.Exhausted? && IsACall(ProviderOf(o), outcome)
    ensures var calls := outcome.0.calls;
      calls != [] && o.script(|calls|).end.Broke? && !NothingMissing(o, calls[|calls| - 1], |calls|)
  {
    var e, m, n: nat :| outcome == Called(o, e, m, n);
    CallEnds(o, e, m, n);
    CallDecides(o, e, m, n);
  }

  /**
   * The trail goes through the candidates in order and leaves none out up to the one it ends at: a candidate has
   * one skipped entry if it cannot be called, and entries of calls otherwise. A run that throws ends at the last
   * candidate, unless its last call left an action without its result.
   */
  lemma TrailInOrder(o: Options)
    ensures var (e, verdict) := Generated(o);
      var all := CandidateModels(o.plan);
      && InOrder(o, all, e.trail)
      && (verdict.Exhausted? ==>
            (all != [] ==> e.trail != [] && e.trail[|e.trail| - 1].modelId == all[|all| - 1])
            || (e.calls != [] && o.script(|e.calls|).end.Broke?
                && !NothingMissing(o, e.calls[|e.calls| - 1], |e.calls|)))
  {
    var all, outcome := CandidateModels(o.plan), Generated(o);
    ProviderWrites(o);
    OnCandidatesOrder(ProviderOf(o), o, all, IDLE, 0);
    assert all[0..] == all;
    if outcome.1.Exhausted? && IsACall(ProviderOf(o), outcome) {
      ThrowsOverMissing(o, outcome);
    }
  }
}
