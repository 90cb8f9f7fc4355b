/**
 * The wait before a retry. generate checks for missing results before it waits; a call that an
 * abandoned attempt starts during the wait is not part of that check. This says exactly when
 * the next attempt nevertheless starts with every evidenced action's result in its prefix.
 */
module ReplayWindow {
  import opened Basics
  import opened ToolReplayFence
  import opened ResumedLoop
  import opened Retry
  import opened LlmExecutor
  import opened ExecutorGuarantees
  import F = FenceSafety

  predicate HasItsResult(call: Call, results: seq<ToolResult>) {
    Covered(Evidence(call.tool, call.callId, Executing, None), results)
  }

  /** A call that passes the fence without a result for its id opens; a return without effect closes it. */
  function OpenStep(p: Policy, w: F.World, e: F.Event, results: seq<ToolResult>, open: set<Call>): set<Call> {
    match e
    case Enter(n, tool, callId) =>
      if n in w.inFlight || tool !in p.toolNames || tool in w.fence.blocked then open
      else if HasItsResult(CallFor(w.fence, tool, callId), results) then open
      else open + {CallFor(w.fence, tool, callId)}
    case Return(n, output) =>
      if n in w.inFlight && p.Classify(output) == [] then open - {w.inFlight[n]} else open
    case _ => open
  }

  function OpenAfter(p: Policy, w: F.World, events: seq<F.Event>, results: seq<ToolResult>, open: set<Call>): set<Call>
    decreases |events|
  {
    if events == [] then open
    else OpenAfter(p, F.Step(p, w, events[0]), events[1..], results, OpenStep(p, w, events[0], results, open))
  }

  /** An open call is alone with its tool, which stays blocked, and its evidence is its own. */
  ghost predicate IsOpen(w: F.World, c: Call, results: seq<ToolResult>) {
    && c.key.tool == c.tool && c.tool in w.fence.blocked && !HasItsResult(c, results)
    && c.key in w.fence.evidence && w.fence.evidence[c.key] != []
    && (forall item :: item in w.fence.evidence[c.key] ==> item.toolName == c.tool && item.toolCallId == c.callId)
    && (forall n :: n in w.inFlight && w.inFlight[n].tool == c.tool ==> w.inFlight[n] == c)
  }

  ghost predicate OpenInv(w: F.World, open: set<Call>, results: seq<ToolResult>) {
    && (forall c :: c in open ==> IsOpen(w, c, results))
    && (forall c, d :: c in open && d in open && c.tool == d.tool ==> c == d)
    && (forall k, item :: k in w.fence.evidence && item in w.fence.evidence[k] && !Covered(item, results)
          ==> exists c :: c in open && c.key == k)
  }

  function WithEntered(w: F.World, n: nat, call: Call): F.World {
    w.(fence := Entered(w.fence, call), inFlight := w.inFlight[n := call])
  }

  /** Calls already open stay open when a call of an unblocked tool enters. */
  lemma StaysOpen(w: F.World, n: nat, call: Call, results: seq<ToolResult>, c: Call)
    requires IsOpen(w, c, results) && n !in w.inFlight
    requires call.tool !in w.fence.blocked && call.key.tool == call.tool
    ensures IsOpen(WithEntered(w, n, call), c, results)
  {
  }

  lemma OpensNow(w: F.World, n: nat, call: Call, results: seq<ToolResult>)
    requires F.Tracked(w) && n !in w.inFlight && !HasItsResult(call, results)
    requires call.tool !in w.fence.blocked && call.key.tool == call.tool
    ensures IsOpen(WithEntered(w, n, call), call, results)
  {
  }

  lemma EnteredOpen(w: F.World, n: nat, call: Call, results: seq<ToolResult>, open: set<Call>)
    requires F.Tracked(w) && OpenInv(w, open, results) && n !in w.inFlight
    requires call.tool !in w.fence.blocked && call.key.tool == call.tool
    ensures OpenInv(WithEntered(w, n, call), if HasItsResult(call, results) then open else open + {call}, results)
  {
    var w', open' := WithEntered(w, n, call), if HasItsResult(call, results) then open else open + {call};
    forall c | c in open ensures IsOpen(w', c, results) && c.tool != call.tool {
      assert IsOpen(w, c, results);
      StaysOpen(w, n, call, results, c);
    }
    if !HasItsResult(call, results) {
      OpensNow(w, n, call, results);
    }
    forall k, item | k in w'.fence.evidence && item in w'.fence.evidence[k] && !Covered(item, results)
      ensures exists c :: c in open' && c.key == k
    {
      if k == call.key {
        assert call in open';
      } else {
        var c :| c in open && c.key == k;
        assert c in open';
      }
    }
  }

  lemma EnterOpen(p: Policy, w: F.World, e: F.Event, results: seq<ToolResult>, open: set<Call>)
    requires F.Tracked(w) && e.Enter? && OpenInv(w, open, results)
    ensures OpenInv(F.Step(p, w, e), OpenStep(p, w, e, results, open), results)
  {
    if !(e.number in w.inFlight || e.tool !in p.toolNames || e.tool in w.fence.blocked) {
      EnteredOpen(w, e.number, CallFor(w.fence, e.tool, e.callId), results, open);
    }
  }

  /** A call in flight that is not open has its result already. */
  lemma ClosedHasResult(w: F.World, n: nat, results: seq<ToolResult>, open: set<Call>)
    requires F.Tracked(w) && OpenInv(w, open, results) && n in w.inFlight && w.inFlight[n] !in open
    ensures HasItsResult(w.inFlight[n], results)
    ensures forall c :: c in open ==> c.tool != w.inFlight[n].tool
  {
    var call := w.inFlight[n];
    var item := Evidence(call.tool, call.callId, Executing, None);
    assert item in w.fence.evidence[call.key];
    forall c | c in open ensures c.tool != call.tool {
      assert IsOpen(w, c, results);
    }
  }

  lemma SettleOpen(p: Policy, w: F.World, e: F.Event, results: seq<ToolResult>, open: set<Call>)
    requires F.Tracked(w) && (e.Return? || e.Throw?) && OpenInv(w, open, results)
    ensures OpenInv(F.Step(p, w, e), OpenStep(p, w, e, results, open), results)
  {
    if e.number in w.inFlight {
      var call := w.inFlight[e.number];
      if e.Return? && p.Classify(e.output) == [] {
        ClosedOpen(w, F.Step(p, w, e), e.number, results, open);
      } else {
        SettledOpen(w, F.Step(p, w, e), e.number, results, open);
      }
    }
  }

  /** When a call leaves, calls of other tools stay open. */
  lemma OthersStayOpen(w: F.World, w': F.World, n: nat, results: seq<ToolResult>, open: set<Call>, c: Call)
    requires F.Tracked(w) && n in w.inFlight && c in open && c != w.inFlight[n] && OpenInv(w, open, results)
    requires w'.inFlight == w.inFlight - {n} && w'.fence.blocked == w.fence.blocked - {w.inFlight[n].tool}
    requires w'.fence.evidence == w.fence.evidence - {w.inFlight[n].key}
    ensures IsOpen(w', c, results)
  {
    assert IsOpen(w, c, results);
  }

  /** A call leaves without effect: its evidence and its block go. */
  lemma ClosedOpen(w: F.World, w': F.World, n: nat, results: seq<ToolResult>, open: set<Call>)
    requires F.Tracked(w) && OpenInv(w, open, results) && n in w.inFlight
    requires w'.inFlight == w.inFlight - {n} && w'.fence.blocked == w.fence.blocked - {w.inFlight[n].tool}
    requires w'.fence.evidence == w.fence.evidence - {w.inFlight[n].key}
    ensures OpenInv(w', open - {w.inFlight[n]}, results)
  {
    var call := w.inFlight[n];
    forall c | c in open - {call} ensures IsOpen(w', c, results) {
      OthersStayOpen(w, w', n, results, open, c);
    }
    forall k, item | k in w'.fence.evidence && item in w'.fence.evidence[k] && !Covered(item, results)
      ensures exists c :: c in open - {call} && c.key == k
    {
      UncoveredIsOpen(w, results, open, call, k, item);
    }
  }

  lemma UncoveredIsOpen(w: F.World, results: seq<ToolResult>, open: set<Call>, call: Call, k: Key, item: Evidence)
    requires OpenInv(w, open, results) && k != call.key
    requires k in w.fence.evidence && item in w.fence.evidence[k] && !Covered(item, results)
    ensures exists c :: c in open - {call} && c.key == k
  {
    var c :| c in open && c.key == k;
    assert c in open - {call};
  }

  /** A call leaves its evidence behind, under its tool and id. */
  lemma SettledOpen(w: F.World, w': F.World, n: nat, results: seq<ToolResult>, open: set<Call>)
    requires F.Tracked(w) && OpenInv(w, open, results) && n in w.inFlight
    requires w'.inFlight == w.inFlight - {n} && w'.fence.blocked == w.fence.blocked
    requires var key := w.inFlight[n].key;
      && w'.fence.evidence.Keys == w.fence.evidence.Keys + {key} && w'.fence.evidence[key] != []
      && (forall k :: k in w.fence.evidence && k != key ==> w'.fence.evidence[k] == w.fence.evidence[k])
      && (forall item :: item in w'.fence.evidence[key] ==>
            item.toolName == w.inFlight[n].tool && item.toolCallId == w.inFlight[n].callId)
    ensures OpenInv(w', open, results)
  {
    var call := w.inFlight[n];
    if call !in open {
      ClosedHasResult(w, n, results, open);
    }
    forall c | c in open ensures IsOpen(w', c, results) {
      assert IsOpen(w, c, results);
    }
    forall k, item | k in w'.fence.evidence && item in w'.fence.evidence[k] && !Covered(item, results)
      ensures exists c :: c in open && c.key == k
    {
      if k == call.key {
        assert call in open;
      } else {
        var c :| c in open && c.key == k;
      }
    }
  }

  lemma {:induction false} RunOpen(p: Policy, w: F.World, events: seq<F.Event>, results: seq<ToolResult>,
      open: set<Call>)
    requires F.Tracked(w) && OpenInv(w, open, results)
    requires forall i :: 0 <= i < |events| ==> !events[i].Observe?
    ensures OpenInv(F.Run(p, w, events), OpenAfter(p, w, events, results, open), results)
    decreases |events|
  {
    if events != [] {
      F.StepTracked(p, w, events[0]);
      if events[0].Enter? {
        EnterOpen(p, w, events[0], results, open);
      } else {
        SettleOpen(p, w, events[0], results, open);
      }
      RunOpen(p, F.Step(p, w, events[0]), events[1..], results, OpenStep(p, w, events[0], results, open));
    }
  }

  /** Tool events keep every evidenced action covered if and only if they leave no call open. */
  lemma CoveredExactlyWhen(p: Policy, w: F.World, events: seq<F.Event>, results: seq<ToolResult>)
    requires F.Tracked(w) && AllCovered(w.fence, results)
    requires forall i :: 0 <= i < |events| ==> !events[i].Observe?
    ensures AllCovered(F.Run(p, w, events).fence, results) <==> OpenAfter(p, w, events, results, {}) == {}
  {
    forall k, item | k in w.fence.evidence && item in w.fence.evidence[k] ensures Covered(item, results) {
      assert Recorded(w.fence, item);
    }
    RunOpen(p, w, events, results, {});
    var after, open := F.Run(p, w, events), OpenAfter(p, w, events, results, {});
    if open != {} {
      var c :| c in open;
      assert IsOpen(after, c, results);
      var item := after.fence.evidence[c.key][0];
      assert Recorded(after.fence, item) && !Covered(item, results);
    }
  }

  // ---- in a run of generate ----

  /** The world once the failure of the n-th call is observed, before any wait. */
  ghost function FailedWorld(o: Options, call: ProviderCall, n: nat): F.World
    requires o.script(n).end.Broke?
  {
    F.Step(o.policy, F.Run(o.policy, call.world, o.script(n).during),
           F.Observe(Flatten(Results(call.resumed.steps + o.script(n).end.completed))))
  }

  /** world is where the run stands after the n-th call failed, was found resumable, and was perhaps waited on. */
  ghost predicate Follows(o: Options, call: ProviderCall, n: nat, world: F.World, resumed: Resumable) {
    && o.script(n).end.Broke?
    && F.Tracked(FailedWorld(o, call, n))
    && AllCovered(FailedWorld(o, call, n).fence, Flatten(Results(resumed.steps)))
    && (world == FailedWorld(o, call, n) || world == F.Run(o.policy, FailedWorld(o, call, n), o.script(n).waiting))
  }

  ghost predicate Threaded(o: Options, calls: seq<ProviderCall>) {
    forall i :: 0 < i < |calls| ==> Follows(o, calls[i - 1], i, calls[i].world, calls[i].resumed)
  }

  ghost predicate Ready(o: Options, e: Engine) {
    && Threaded(o, e.calls) && F.Tracked(e.world)
    && (e.calls != [] ==> Follows(o, e.calls[|e.calls| - 1], |e.calls|, e.world, Selected(e.carried)))
  }

  ghost predicate ThreadedOutcome(o: Options, outcome: (Engine, Verdict)) {
    match outcome
    case (e, Delivered(_)) => Threaded(o, e.calls)
    case (e, Exhausted) => Threaded(o, e.calls)
    case (e, _) => Ready(o, e)
  }

  lemma ThreadGrows(o: Options, e: Engine, modelId: string, attempt: nat)
    requires Ready(o, e)
    ensures Threaded(o, WithCall(e, modelId, attempt))
  {
    var calls := WithCall(e, modelId, attempt);
    forall i | 0 < i < |calls| ensures Follows(o, calls[i - 1], i, calls[i].world, calls[i].resumed) {
      assert calls[i - 1] == e.calls[i - 1];
      if i < |e.calls| { assert calls[i] == e.calls[i]; }
    }
  }

  /** Where the decision after a failure leaves the run, if it goes on. */
  lemma DecidedGoesOn(o: Options, failed: Engine, attempt: nat, error: ProviderError, waiting: seq<ToolEvent>)
    requires failed.trail != []
    ensures var (e, verdict) := Decided(o, failed, attempt, error, waiting);
      verdict.NextModel? || verdict.TryAgain? ==>
        Resumes(failed) && e.carried == failed.carried
        && (e.world == failed.world || e.world == F.Run(o.policy, failed.world, waiting))
  {
  }

  lemma FailedTracked(o: Options, call: ProviderCall, n: nat)
    requires o.script(n).end.Broke? && F.Tracked(call.world)
    ensures F.Tracked(FailedWorld(o, call, n))
    ensures F.Tracked(F.Run(o.policy, FailedWorld(o, call, n), o.script(n).waiting))
  {
    F.RunTracked(o.policy, call.world, o.script(n).during);
    var ran := F.Run(o.policy, call.world, o.script(n).during);
    F.StepTracked(o.policy, ran, F.Observe(Flatten(Results(call.resumed.steps + o.script(n).end.completed))));
    F.RunTracked(o.policy, FailedWorld(o, call, n), o.script(n).waiting);
  }

  /** What the n-th call leaves behind when it fails and the run goes on. */
  lemma FailureLeaves(o: Options, e: Engine, modelId: string, attempt: nat)
    requires o.script(|e.calls| + 1).end.Broke?
    ensures var outcome := Called(o, e, modelId, attempt);
      var failed := FailedWorld(o, ProviderCall(modelId, attempt, Selected(e.carried), e.world), |e.calls| + 1);
      outcome.1.NextModel? || outcome.1.TryAgain? ==>
        && AllCovered(failed.fence, Flatten(Results(Selected(outcome.0.carried).steps)))
        && (outcome.0.world == failed || outcome.0.world == F.Run(o.policy, failed, o.script(|e.calls| + 1).waiting))
  {
    var script := o.script(|e.calls| + 1);
    var ran := F.Run(o.policy, e.world, script.during);
    var failed := AfterFailure(o, e, modelId, attempt, script.end.completed, script.end.error, ran);
    DecidedGoesOn(o, failed, attempt, script.end.error, script.waiting);
  }

  lemma FailureFollows(o: Options, e: Engine, modelId: string, attempt: nat)
    requires Ready(o, e) && o.script(|e.calls| + 1).end.Broke?
    ensures var outcome := Called(o, e, modelId, attempt);
      outcome.1.NextModel? || outcome.1.TryAgain? ==>
        F.Tracked(outcome.0.world)
        && Follows(o, ProviderCall(modelId, attempt, Selected(e.carried), e.world), |e.calls| + 1,
                   outcome.0.world, Selected(outcome.0.carried))
  {
    FailedTracked(o, ProviderCall(modelId, attempt, Selected(e.carried), e.world), |e.calls| + 1);
    FailureLeaves(o, e, modelId, attempt);
  }

  lemma CalledReady(o: Options, e: Engine, modelId: string, attempt: nat)
    requires Ready(o, e)
    ensures ThreadedOutcome(o, Called(o, e, modelId, attempt))
    ensures |Called(o, e, modelId, attempt).0.calls| == |e.calls| + 1
  {
    CallEnds(o, e, modelId, attempt);
    ThreadGrows(o, e, modelId, attempt);
    if o.script(|e.calls| + 1).end.Broke? {
      FailureFollows(o, e, modelId, attempt);
    }
  }

  lemma CallsKeepReady(o: Options)
    ensures CallKeeps(ProviderOf(o), e => Ready(o, e), outcome => ThreadedOutcome(o, outcome))
  {
    forall e, m, n | Ready(o, e)
      ensures |Called(o, e, m, n).0.calls| == |e.calls| + 1
      ensures ThreadedOutcome(o, Called(o, e, m, n))
    {
      CalledReady(o, e, m, n);
    }
  }

  lemma SkipsKeepReady(o: Options)
    ensures SkipKeeps(e => Ready(o, e), outcome => ThreadedOutcome(o, outcome))
  {
  }

  lemma RunThreaded(o: Options)
    ensures Threaded(o, Generated(o).0.calls)
  {
    CallsKeepReady(o);
    SkipsKeepReady(o);
    OnCandidatesInduction(ProviderOf(o), o, IDLE, CandidateModels(o.plan),
                          e => Ready(o, e), outcome => ThreadedOutcome(o, outcome));
  }

  /**
   * Any attempt after the first follows a failure whose evidenced actions all had their result among the
   * resumed steps. If generate waited in between, the attempt starts with that still true if and only if the
   * wait left no call open; if it did not wait, it is still true.
   */
  lemma ReplayWindowExactly(o: Options, i: nat)
    requires 0 < i < |Generated(o).0.calls|
    ensures var before, call := Generated(o).0.calls[i - 1], Generated(o).0.calls[i];
      var results := Flatten(Results(call.resumed.steps));
      && o.script(i).end.Broke?
      && var failed := FailedWorld(o, before, i);
      && AllCovered(failed.fence, results)
      && ((call.world == failed && StartsCovered(call))
          || (call.world == F.Run(o.policy, failed, o.script(i).waiting)
              && (StartsCovered(call) <==> OpenAfter(o.policy, failed, o.script(i).waiting, results, {}) == {})))
  {
    RunThreaded(o);
    var before, call := Generated(o).0.calls[i - 1], Generated(o).0.calls[i];
    assert Follows(o, before, i, call.world, call.resumed);
    CoveredExactlyWhen(o.policy, FailedWorld(o, before, i), o.script(i).waiting, Flatten(Results(call.resumed.steps)));
  }

  // ---- such a run ----

  const BOOKING: ToolEvent := F.Enter(0, "book", Some("a"))

  /** One model; its first call fails, and a booking starts while generate waits to retry. */
  const BOOKED_WHILE_WAITING := Options(
    Plan("m", []), Config(None, 0, 0), F.SUCCESS_ONLY, false, _ => true, _ => true,
    n => if n == 1 then CallScript([], Broke([], ProviderError(Retryable, None)), [BOOKING])
         else CallScript([], Completed([]), []))

  /** The world with the booking in flight. */
  const BOOKED := F.Step(F.SUCCESS_ONLY, F.START, BOOKING)

  lemma BookingIsUncovered()
    ensures F.Run(F.SUCCESS_ONLY, F.START, [BOOKING]) == BOOKED && !AllCovered(BOOKED.fence, [])
  {
    assert [BOOKING][1..] == [] && F.Run(F.SUCCESS_ONLY, F.START, [BOOKING]) == F.Run(F.SUCCESS_ONLY, BOOKED, []);
    var item := Evidence("book", Some("a"), Executing, None);
    assert item in BOOKED.fence.evidence[Key("book", "a")];
    assert Recorded(BOOKED.fence, item) && !Covered(item, []);
  }

  lemma FirstCallWaits()
    ensures var (e, verdict) := Called(BOOKED_WHILE_WAITING, IDLE, "m", 1);
      && verdict == TryAgain && e.calls == WithCall(IDLE, "m", 1)
      && e.world == BOOKED && Selected(e.carried).steps == []
  {
    var o := BOOKED_WHILE_WAITING;
    var failed := AfterFailure(o, IDLE, "m", 1, [], ProviderError(Retryable, None), F.START);
    assert Flatten(Results([])) == [] && Selected(None).steps + [] == [];
    assert failed.world == F.START;
    assert Resumes(failed);
    BookingIsUncovered();
    assert Called(o, IDLE, "m", 1) == Decided(o, failed, 1, ProviderError(Retryable, None), [BOOKING]);
  }

  /** The retry after that wait is made, and delivered, without the booking's result in its prefix. */
  lemma CallCanStartWhileWaiting()
    ensures var (e, verdict) := Generated(BOOKED_WHILE_WAITING);
      && verdict.Delivered? && |e.calls| == 2
      && 0 in e.calls[1].world.inFlight && !StartsCovered(e.calls[1])
  {
    var o := BOOKED_WHILE_WAITING;
    var call := ProviderOf(o);
    assert CandidateModels(o.plan) == ["m"] by {
      assert ["m"] + [] == ["m"] && ["m"][..0] == [];
    }
    FirstCallWaits();
    var first := Called(o, IDLE, "m", 1).0;
    CallEnds(o, first, "m", 2);
    assert OnModel(call, 3, IDLE, "m", 1) == OnModel(call, 3, first, "m", 2) == Called(o, first, "m", 2);
    assert Generated(o) == Called(o, first, "m", 2);
    assert Flatten(Results([])) == [];
    BookingIsUncovered();
  }
}
