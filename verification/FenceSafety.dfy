/**
 * Whole runs of the fence. A run is any sequence of events: a wrapped call is
 * entered, an in-flight call returns or throws, or completed steps are observed.
 * An event that cannot happen (returning a call nobody made, entering a tool the
 * policy does not fence) changes nothing, so a run needs no side conditions and
 * every interleaving of parallel and abandoned calls is one.
 */
module FenceSafety {
  import opened Basics
  import opened ToolReplayFence

  datatype Event =
    | Enter(number: nat, tool: string, callId: Option<string>)
    | Return(number: nat, output: Output)
    | Throw(number: nat)
    | Observe(results: seq<ToolResult>)

  /** How an underlying execution ended: with a result that proves something, with any other result, or by throwing. */
  datatype Ending = Effect(output: Output) | NoEffect | Failure

  datatype Execution = Execution(tool: string, callId: Option<string>, ending: Ending)

  /** The fence, the calls now awaiting their tool, and the finished executions. */
  datatype World = World(fence: State, inFlight: map<nat, Call>, finished: seq<Execution>)

  const START := World(INITIAL, map[], [])

  function Step(p: Policy, w: World, e: Event): World {
    match e
    case Enter(n, tool, callId) =>
      if n in w.inFlight || tool !in p.toolNames || tool in w.fence.blocked then w
      else var call := CallFor(w.fence, tool, callId);
           w.(fence := Entered(w.fence, call), inFlight := w.inFlight[n := call])
    case Return(n, output) =>
      if n !in w.inFlight then w
      else var call := w.inFlight[n];
           World(Returned(p, w.fence, call, output), w.inFlight - {n},
                 w.finished + [Execution(call.tool, call.callId,
                                         if p.Classify(output) != [] then Effect(output) else NoEffect)])
    case Throw(n) =>
      if n !in w.inFlight then w
      else var call := w.inFlight[n];
           World(Threw(w.fence, call), w.inFlight - {n},
                 w.finished + [Execution(call.tool, call.callId, Failure)])
    case Observe(results) => w.(fence := Observed(p, w.fence, results))
  }

  function Run(p: Policy, w: World, events: seq<Event>): World
    decreases |events|
  {
    if events == [] then w else Run(p, Step(p, w, events[0]), events[1..])
  }

  lemma {:induction false} RunAppend(p: Policy, w: World, es: seq<Event>, fs: seq<Event>)
    ensures Run(p, w, es + fs) == Run(p, Run(p, w, es), fs)
    decreases |es|
  {
    if es == [] {
      assert es + fs == fs;
    } else {
      assert (es + fs)[1..] == es[1..] + fs;
      RunAppend(p, Step(p, w, es[0]), es[1..], fs);
    }
  }

  // ---- at most one effectful run per tool, whatever Observe does ----

  predicate Committed(x: Execution) {
    !x.ending.NoEffect?
  }

  ghost predicate Guarded(w: World) {
    && (forall n :: n in w.inFlight ==> w.inFlight[n].tool in w.fence.blocked)
    && (forall m, n :: m in w.inFlight && n in w.inFlight && m != n
                       ==> w.inFlight[m].tool != w.inFlight[n].tool)
    && (forall i :: 0 <= i < |w.finished| && Committed(w.finished[i])
                    ==> w.finished[i].tool in w.fence.blocked)
    && (forall i, n :: 0 <= i < |w.finished| && Committed(w.finished[i]) && n in w.inFlight
                       ==> w.inFlight[n].tool != w.finished[i].tool)
    && (forall i, j :: 0 <= i < j < |w.finished| && Committed(w.finished[i])
                       ==> w.finished[j].tool != w.finished[i].tool)
  }

  lemma {:induction false} ObservedOnlyBlocks(p: Policy, s: State, results: seq<ToolResult>)
    ensures s.blocked <= Observed(p, s, results).blocked
    ensures s.evidence.Keys <= Observed(p, s, results).evidence.Keys
    ensures forall k :: k in s.evidence ==> Observed(p, s, results).evidence[k] == s.evidence[k]
    ensures Observed(p, s, results).anonymous == s.anonymous
  {
    if results != [] {
      ObservedOnlyBlocks(p, s, results[..|results| - 1]);
    }
  }

  lemma StepGuarded(p: Policy, w: World, e: Event)
    requires Guarded(w)
    ensures Guarded(Step(p, w, e))
  {
    if e.Observe? {
      ObservedOnlyBlocks(p, w.fence, e.results);
    }
  }

  lemma {:induction false} RunGuarded(p: Policy, w: World, events: seq<Event>)
    requires Guarded(w)
    ensures Guarded(Run(p, w, events))
    decreases |events|
  {
    if events != [] {
      StepGuarded(p, w, events[0]);
      RunGuarded(p, Step(p, w, events[0]), events[1..]);
    }
  }

  /**
   * Of one tool, a run with a classified effect or a throw is the last one ever:
   * it excludes any later run, any run in flight and any further entry. Two runs
   * of one tool are never in flight together.
   */
  lemma AtMostOneEffectPerTool(p: Policy, events: seq<Event>)
    ensures var w := Run(p, START, events);
      && (forall i, j :: 0 <= i < |w.finished| && 0 <= j < |w.finished| && i != j
            && Committed(w.finished[i]) && Committed(w.finished[j])
            ==> w.finished[i].tool != w.finished[j].tool)
      && (forall m, n :: m in w.inFlight && n in w.inFlight && m != n
            ==> w.inFlight[m].tool != w.inFlight[n].tool)
      && (forall i, n :: 0 <= i < |w.finished| && Committed(w.finished[i]) && n in w.inFlight
            ==> w.inFlight[n].tool != w.finished[i].tool)
      && (forall i, n, callId :: 0 <= i < |w.finished| && Committed(w.finished[i])
            ==> Step(p, w, Enter(n, w.finished[i].tool, callId)) == w)
  {
    RunGuarded(p, START, events);
  }

  // ---- the record behind an in-flight call ----

  /** The map entry a throw mutates is still the one its call inserted. */
  ghost predicate Tracked(w: World) {
    && Guarded(w)
    && (forall n :: n in w.inFlight ==>
          var c := w.inFlight[n];
          && c.key.tool == c.tool
          && (c.callId.Some? ==> c.key.id == c.callId.value)
          && c.key in w.fence.evidence
          && w.fence.evidence[c.key] == [Evidence(c.tool, c.callId, Executing, None)])
    && WellLabelled(w.fence)
  }

  ghost predicate WellLabelled(s: State) {
    forall k :: k in s.evidence ==>
      s.evidence[k] != []
      && forall i :: 0 <= i < |s.evidence[k]| ==> s.evidence[k][i].toolName == k.tool
  }

  lemma {:induction false} ObservedTracked(p: Policy, s: State, results: seq<ToolResult>)
    requires WellLabelled(s)
    ensures WellLabelled(Observed(p, s, results))
  {
    if results != [] {
      var init, last := results[..|results| - 1], results[|results| - 1];
      ObservedTracked(p, s, init);
      if Relevant(p, last) {
        assert |Labelled(last.toolName.value, last.toolCallId, p.Classify(last.output))| > 0;
      }
      assert WellLabelled(ObservedOne(p, Observed(p, s, init), last));
    }
  }

  lemma EnterTracked(p: Policy, w: World, n: nat, tool: string, callId: Option<string>)
    requires Tracked(w)
    ensures Tracked(Step(p, w, Enter(n, tool, callId)))
  {
    StepGuarded(p, w, Enter(n, tool, callId));
  }

  lemma SettleTracked(p: Policy, w: World, e: Event)
    requires Tracked(w) && (e.Return? || e.Throw?)
    ensures Tracked(Step(p, w, e))
  {
    StepGuarded(p, w, e);
  }

  lemma StepTracked(p: Policy, w: World, e: Event)
    requires Tracked(w)
    ensures Tracked(Step(p, w, e))
  {
    match e {
      case Enter(n, tool, callId) => EnterTracked(p, w, n, tool, callId);
      case Observe(results) =>
        StepGuarded(p, w, e);
        ObservedOnlyBlocks(p, w.fence, results);
        ObservedTracked(p, w.fence, results);
      case _ => SettleTracked(p, w, e);
    }
  }

  lemma {:induction false} RunTracked(p: Policy, w: World, events: seq<Event>)
    requires Tracked(w)
    ensures Tracked(Run(p, w, events))
    decreases |events|
  {
    if events != [] {
      StepTracked(p, w, events[0]);
      RunTracked(p, Step(p, w, events[0]), events[1..]);
    }
  }

  /** While a call is in flight the snapshot reports it as executing. */
  lemma InFlightIsEvidenced(w: World, n: nat)
    requires Tracked(w) && n in w.inFlight
    ensures Recorded(w.fence, Evidence(w.inFlight[n].tool, w.inFlight[n].callId, Executing, None))
  {
    var c := w.inFlight[n];
    var item := Evidence(c.tool, c.callId, Executing, None);
    assert item in w.fence.evidence[c.key];
  }

  // ---- the representation invariant, when Observe is quiet ----

  ghost predicate Quiet(p: Policy, w: World, e: Event) {
    e.Observe? ==>
      forall i, n :: 0 <= i < |e.results| && n in w.inFlight && Relevant(p, e.results[i])
                     ==> e.results[i].toolName.value != w.inFlight[n].tool
  }

  ghost predicate QuietRun(p: Policy, w: World, events: seq<Event>)
    decreases |events|
  {
    events == [] || (Quiet(p, w, events[0]) && QuietRun(p, Step(p, w, events[0]), events[1..]))
  }

  ghost predicate Evidenced(s: State, tool: string) {
    exists k :: k in s.evidence && k.tool == tool
  }

  /** blockedNames is exactly the set of tools with recorded evidence. */
  ghost predicate InSync(s: State) {
    forall tool :: tool in s.blocked <==> Evidenced(s, tool)
  }

  /** In flight, a call is the only evidence of its tool. */
  ghost predicate Alone(w: World) {
    forall n, k :: n in w.inFlight && k in w.fence.evidence && k.tool == w.inFlight[n].tool
      ==> k == w.inFlight[n].key
  }

  ghost predicate Represented(w: World) {
    && Tracked(w)
    && InSync(w.fence)
    && Alone(w)
  }

  lemma {:induction false} ObservedInSync(p: Policy, s: State, results: seq<ToolResult>)
    requires InSync(s)
    ensures InSync(Observed(p, s, results))
    ensures forall k :: k in Observed(p, s, results).evidence && k !in s.evidence ==>
              exists i :: 0 <= i < |results| && Relevant(p, results[i]) && results[i].toolName.value == k.tool
  {
    if results != [] {
      var init, last := results[..|results| - 1], results[|results| - 1];
      ObservedInSync(p, s, init);
      var t := Observed(p, s, init);
      if Relevant(p, last) && ResultKey(last) !in t.evidence {
        AddedInSync(t, ResultKey(last), Labelled(last.toolName.value, last.toolCallId, p.Classify(last.output)));
        assert last == results[|results| - 1];
      }
      assert forall i :: 0 <= i < |init| ==> init[i] == results[i];
    }
  }

  /** Every completed result of a fenced tool with a classified effect is on record and blocks its tool. */
  lemma {:induction false} ObservedRecords(p: Policy, s: State, results: seq<ToolResult>, i: nat)
    requires InSync(s) && i < |results| && Relevant(p, results[i])
    ensures ResultKey(results[i]) in Observed(p, s, results).evidence
    ensures results[i].toolName.value in Observed(p, s, results).blocked
  {
    ObservedInSync(p, s, results);
    var init := results[..|results| - 1];
    if i < |init| {
      ObservedRecords(p, s, init, i);
      assert Observed(p, s, results) == Observed(p, Observed(p, s, init), [results[|results| - 1]]) by {
        assert [results[|results| - 1]][..0] == [];
      }
      ObservedOnlyBlocks(p, Observed(p, s, init), [results[|results| - 1]]);
    }
    assert Evidenced(Observed(p, s, results), results[i].toolName.value);
  }

  /** Only a relevant result puts something on record. */
  lemma {:induction false} ObservedKeys(p: Policy, s: State, results: seq<ToolResult>, key: Key)
    requires key !in s.evidence
    ensures key in Observed(p, s, results).evidence ==>
              exists j :: 0 <= j < |results| && Relevant(p, results[j]) && ResultKey(results[j]) == key
  {
    if results != [] {
      var init, last := results[..|results| - 1], results[|results| - 1];
      ObservedKeys(p, s, init, key);
      assert forall j :: 0 <= j < |init| ==> init[j] == results[j];
      assert results[|results| - 1] == last;
    }
  }

  /** The first result under a key is recorded as it was classified, unless the key was on record before. */
  lemma {:induction false} FirstResultIsRecorded(p: Policy, s: State, results: seq<ToolResult>, i: nat)
    requires i < |results| && Relevant(p, results[i])
    requires var r := results[i];
      var key := Key(r.toolName.value, if r.toolCallId.Some? then r.toolCallId.value else "completed");
      key !in s.evidence && forall j :: 0 <= j < i && Relevant(p, results[j]) ==> ResultKey(results[j]) != key
    ensures var (r, t) := (results[i], Observed(p, s, results));
      var key := Key(r.toolName.value, if r.toolCallId.Some? then r.toolCallId.value else "completed");
      key in t.evidence && Says(t.evidence[key], key.tool, r.toolCallId, p.Classify(r.output))
  {
    var init := results[..|results| - 1];
    assert forall j :: 0 <= j < |init| ==> init[j] == results[j];
    if i < |init| {
      FirstResultIsRecorded(p, s, init, i);
    } else {
      ObservedKeys(p, s, init, ResultKey(results[i]));
    }
  }

  lemma AddedInSync(s: State, key: Key, items: seq<Evidence>)
    requires InSync(s)
    ensures InSync(s.(evidence := s.evidence[key := items], blocked := s.blocked + {key.tool}))
  {
    var t := s.(evidence := s.evidence[key := items], blocked := s.blocked + {key.tool});
    forall tool ensures tool in t.blocked <==> Evidenced(t, tool) {
      if Evidenced(s, tool) {
        var k :| k in s.evidence && k.tool == tool;
        assert k in t.evidence;
      }
      assert key in t.evidence;
    }
  }

  lemma RemovedInSync(s: State, key: Key)
    requires InSync(s)
    requires forall k :: k in s.evidence && k.tool == key.tool ==> k == key
    ensures InSync(s.(evidence := s.evidence - {key}, blocked := s.blocked - {key.tool}))
  {
    var t := s.(evidence := s.evidence - {key}, blocked := s.blocked - {key.tool});
    forall tool ensures tool in t.blocked <==> Evidenced(t, tool) {
      if tool in t.blocked {
        var k :| k in s.evidence && k.tool == tool;
        assert k in t.evidence;
      }
    }
  }

  lemma EnterRepresented(p: Policy, w: World, n: nat, tool: string, callId: Option<string>)
    requires Represented(w)
    ensures Represented(Step(p, w, Enter(n, tool, callId)))
  {
    StepTracked(p, w, Enter(n, tool, callId));
    if n !in w.inFlight && tool in p.toolNames && tool !in w.fence.blocked {
      var call := CallFor(w.fence, tool, callId);
      AddedInSync(w.fence, call.key, [Evidence(tool, callId, Executing, None)]);
      EnteredAlone(w, n, call);
    }
  }

  lemma EnteredAlone(w: World, n: nat, call: Call)
    requires InSync(w.fence) && Alone(w) && n !in w.inFlight
    requires call.tool !in w.fence.blocked && call.key.tool == call.tool
    requires forall m :: m in w.inFlight ==> w.inFlight[m].tool in w.fence.blocked
    ensures Alone(w.(fence := Entered(w.fence, call), inFlight := w.inFlight[n := call]))
  {
    assert !Evidenced(w.fence, call.tool);
  }

  lemma ReturnRepresented(p: Policy, w: World, n: nat, output: Output)
    requires Represented(w)
    ensures Represented(Step(p, w, Return(n, output)))
  {
    StepTracked(p, w, Return(n, output));
    if n in w.inFlight {
      var call := w.inFlight[n];
      if p.Classify(output) == [] {
        RemovedInSync(w.fence, call.key);
      } else {
        AddedInSync(w.fence, call.key, Labelled(call.tool, call.callId, p.Classify(output)));
        assert w.fence.blocked + {call.key.tool} == w.fence.blocked;
      }
    }
  }

  lemma ThrowRepresented(p: Policy, w: World, n: nat)
    requires Represented(w)
    ensures Represented(Step(p, w, Throw(n)))
  {
    StepTracked(p, w, Throw(n));
    if n in w.inFlight {
      var call := w.inFlight[n];
      AddedInSync(w.fence, call.key, [Evidence(call.tool, call.callId, Unknown, None)]);
      assert w.fence.blocked + {call.key.tool} == w.fence.blocked;
    }
  }

  lemma StepRepresented(p: Policy, w: World, e: Event)
    requires Represented(w) && Quiet(p, w, e)
    ensures Represented(Step(p, w, e))
  {
    match e {
      case Enter(n, tool, callId) => EnterRepresented(p, w, n, tool, callId);
      case Return(n, output) => ReturnRepresented(p, w, n, output);
      case Throw(n) => ThrowRepresented(p, w, n);
      case Observe(results) =>
        StepTracked(p, w, e);
        ObservedInSync(p, w.fence, results);
        ObservedOnlyBlocks(p, w.fence, results);
    }
  }

  /** Evidence of a finished action: some other entry than a call in flight. */
  ghost predicate SettledKey(w: World, k: Key) {
    k in w.fence.evidence && forall n :: n in w.inFlight ==> w.inFlight[n].key != k
  }

  lemma StepKeepsEvidence(p: Policy, w: World, e: Event, k: Key)
    requires Represented(w) && Quiet(p, w, e) && SettledKey(w, k)
    ensures var w' := Step(p, w, e);
      SettledKey(w', k) && w'.fence.evidence[k] == w.fence.evidence[k]
  {
    if e.Observe? {
      ObservedOnlyBlocks(p, w.fence, e.results);
    }
    assert Evidenced(w.fence, k.tool);
  }

  /**
   * In every state of a quiet run blockedNames is the set of evidenced tools, and
   * settled evidence (an effect, or the unknown outcome of a throw) is never
   * removed or overwritten from then on.
   */
  lemma {:induction false} FenceRepresentation(p: Policy, w: World, events: seq<Event>, k: Key)
    requires Represented(w) && QuietRun(p, w, events)
    ensures Represented(Run(p, w, events))
    ensures SettledKey(w, k) ==>
              SettledKey(Run(p, w, events), k)
              && Run(p, w, events).fence.evidence[k] == w.fence.evidence[k]
    decreases |events|
  {
    if events != [] {
      StepRepresented(p, w, events[0]);
      if SettledKey(w, k) {
        StepKeepsEvidence(p, w, events[0], k);
      }
      FenceRepresentation(p, Step(p, w, events[0]), events[1..], k);
    }
  }

  lemma StartRepresented()
    ensures Represented(START)
  {
  }

  lemma {:induction false} QuietRunSplits(p: Policy, w: World, es: seq<Event>, fs: seq<Event>)
    requires QuietRun(p, w, es + fs)
    ensures QuietRun(p, w, es) && QuietRun(p, Run(p, w, es), fs)
    decreases |es|
  {
    if es == [] {
      assert es + fs == fs;
    } else {
      assert (es + fs)[0] == es[0] && (es + fs)[1..] == es[1..] + fs;
      QuietRunSplits(p, Step(p, w, es[0]), es[1..], fs);
    }
  }

  /**
   * In every state the fence can reach by a quiet run, blockedNames is the set of evidenced tools, and evidence
   * that was settled at any earlier point of the run is still there, unchanged.
   */
  lemma ReachableFence(p: Policy, es: seq<Event>, fs: seq<Event>, k: Key)
    requires QuietRun(p, START, es + fs)
    ensures InSync(Run(p, START, es + fs).fence)
    ensures SettledKey(Run(p, START, es), k) ==>
              k in Run(p, START, es + fs).fence.evidence
              && Run(p, START, es + fs).fence.evidence[k] == Run(p, START, es).fence.evidence[k]
  {
    StartRepresented();
    QuietRunSplits(p, START, es, fs);
    RunAppend(p, START, es, fs);
    FenceRepresentation(p, START, es, k);
    FenceRepresentation(p, Run(p, START, es), fs, k);
  }

  // ---- what is on record of the finished executions ----

  /** Some settled entry of its tool, and of its id if it has one, says how the execution ended. */
  ghost predicate OnRecord(p: Policy, w: World, x: Execution) {
    exists k :: SettledKey(w, k) && k.tool == x.tool && (x.callId.Some? ==> k.id == x.callId.value)
                && RecordOf(p, x, w.fence.evidence[k])
  }

  /** A throw leaves the outcome unknown; an effect leaves what its result was classified to. */
  ghost predicate RecordOf(p: Policy, x: Execution, evidence: seq<Evidence>) {
    match x.ending
    case Failure => evidence == [Evidence(x.tool, x.callId, Unknown, None)]
    case Effect(output) => p.Classify(output) != [] && Says(evidence, x.tool, x.callId, p.Classify(output))
    case NoEffect => false
  }

  ghost predicate AllOnRecord(p: Policy, w: World) {
    forall i :: 0 <= i < |w.finished| && !w.finished[i].ending.NoEffect? ==> OnRecord(p, w, w.finished[i])
  }

  lemma StaysOnRecord(p: Policy, w: World, e: Event, x: Execution)
    requires Represented(w) && Quiet(p, w, e) && OnRecord(p, w, x)
    ensures OnRecord(p, Step(p, w, e), x)
  {
    var k :| SettledKey(w, k) && k.tool == x.tool && (x.callId.Some? ==> k.id == x.callId.value)
             && RecordOf(p, x, w.fence.evidence[k]);
    StepKeepsEvidence(p, w, e, k);
  }

  /** The execution that a return or a throw finishes. */
  lemma GoesOnRecord(p: Policy, w: World, e: Event)
    requires Represented(w) && (e.Return? || e.Throw?) && e.number in w.inFlight
    ensures var w' := Step(p, w, e);
      |w'.finished| == |w.finished| + 1 && w'.finished[..|w.finished|] == w.finished
      && var x := w'.finished[|w.finished|];
      !x.ending.NoEffect? ==> OnRecord(p, w', x)
  {
    var w', call := Step(p, w, e), w.inFlight[e.number];
    var x := w'.finished[|w.finished|];
    if !x.ending.NoEffect? {
      assert SettledKey(w', call.key) && RecordOf(p, x, w'.fence.evidence[call.key]);
    }
  }

  lemma StepOnRecord(p: Policy, w: World, e: Event)
    requires Represented(w) && Quiet(p, w, e) && AllOnRecord(p, w)
    ensures AllOnRecord(p, Step(p, w, e))
  {
    var w' := Step(p, w, e);
    forall i | 0 <= i < |w.finished| && !w.finished[i].ending.NoEffect? ensures OnRecord(p, w', w.finished[i]) {
      StaysOnRecord(p, w, e, w.finished[i]);
    }
    if (e.Return? || e.Throw?) && e.number in w.inFlight {
      GoesOnRecord(p, w, e);
      forall i | 0 <= i < |w'.finished| && !w'.finished[i].ending.NoEffect? ensures OnRecord(p, w', w'.finished[i]) {
        assert i < |w.finished| ==> w'.finished[i] == w'.finished[..|w.finished|][i] == w.finished[i];
      }
    }
  }

  lemma {:induction false} RunOnRecord(p: Policy, w: World, events: seq<Event>)
    requires Represented(w) && QuietRun(p, w, events) && AllOnRecord(p, w)
    ensures AllOnRecord(p, Run(p, w, events))
    decreases |events|
  {
    if events != [] {
      StepRepresented(p, w, events[0]);
      StepOnRecord(p, w, events[0]);
      RunOnRecord(p, Step(p, w, events[0]), events[1..]);
    }
  }

  /**
   * After any quiet run every execution that threw is on record, with nothing but an unknown outcome, and every one
   * that had an effect with what its result was classified to, component by component.
   */
  lemma FinishedIsOnRecord(p: Policy, events: seq<Event>, i: nat)
    requires QuietRun(p, START, events) && i < |Run(p, START, events).finished|
    ensures var w := Run(p, START, events);
      var x := w.finished[i];
      x.ending.NoEffect? ||
      exists k :: k in w.fence.evidence && k.tool == x.tool && (x.callId.Some? ==> k.id == x.callId.value)
        && var found := w.fence.evidence[k];
           if x.ending.Failure? then found == [Evidence(x.tool, x.callId, Unknown, None)]
           else
             var proved := p.Classify(x.ending.output);
             && |found| == |proved| > 0
             && forall j :: 0 <= j < |found| ==>
                  found[j] == Evidence(x.tool, x.callId, proved[j].status, proved[j].component)
  {
    StartRepresented();
    RunOnRecord(p, START, events);
    var w := Run(p, START, events);
    var x := w.finished[i];
    if !x.ending.NoEffect? {
      var k :| SettledKey(w, k) && k.tool == x.tool && (x.callId.Some? ==> k.id == x.callId.value)
               && RecordOf(p, x, w.fence.evidence[k]);
    }
  }

  // ---- without that condition: exactly which event loses the block ----

  ghost predicate DropsSharedBlock(p: Policy, w: World, e: Event) {
    e.Return? && e.number in w.inFlight && p.Classify(e.output) == [] &&
    exists k :: k in w.fence.evidence && k.tool == w.inFlight[e.number].tool && k != w.inFlight[e.number].key
  }

  /**
   * Any event, Observe at any time included, keeps blockedNames in step with the
   * evidence, except a no-effect return of a call whose tool has other evidence.
   */
  lemma SyncKeptExactlyWhen(p: Policy, w: World, e: Event)
    requires Tracked(w) && InSync(w.fence)
    ensures InSync(Step(p, w, e).fence) <==> !DropsSharedBlock(p, w, e)
  {
    match e {
      case Enter(n, tool, callId) =>
        AddedInSync(w.fence, CallFor(w.fence, tool, callId).key, [Evidence(tool, callId, Executing, None)]);
      case Observe(results) => ObservedInSync(p, w.fence, results);
      case Throw(n) =>
        if n in w.inFlight {
          var call := w.inFlight[n];
          AddedInSync(w.fence, call.key, [Evidence(call.tool, call.callId, Unknown, None)]);
          assert w.fence.blocked + {call.key.tool} == w.fence.blocked;
        }
      case Return(n, output) =>
        if n in w.inFlight {
          var call := w.inFlight[n];
          if p.Classify(output) != [] {
            AddedInSync(w.fence, call.key, Labelled(call.tool, call.callId, p.Classify(output)));
            assert w.fence.blocked + {call.key.tool} == w.fence.blocked;
          } else if DropsSharedBlock(p, w, e) {
            var k :| k in w.fence.evidence && k.tool == call.tool && k != call.key;
            assert k in Step(p, w, e).fence.evidence;
            assert Evidenced(Step(p, w, e).fence, call.tool);
          } else {
            RemovedInSync(w.fence, call.key);
          }
        }
    }
  }

  const SUCCESS_ONLY := Policy(["book"], o => if o == "ok" then Some(Succeeded) else None, None)

  /** A success observed under another id while the tool runs is unblocked by that run's failure. */
  lemma ObserveInFlightCanUnblock()
    ensures var w := Run(SUCCESS_ONLY, START,
                         [Enter(0, "book", Some("a")),
                          Observe([ToolResult(Some("book"), Some("b"), "ok")]),
                          Return(0, "rejected")]);
            "book" !in w.fence.blocked && Evidenced(w.fence, "book")
  {
    var p := SUCCESS_ONLY;
    var r := ToolResult(Some("book"), Some("b"), "ok");
    var es := [Enter(0, "book", Some("a")), Observe([r]), Return(0, "rejected")];
    var w1 := Step(p, START, es[0]);
    assert [r][..0] == [];
    assert Observed(p, w1.fence, [r]) == ObservedOne(p, w1.fence, r);
    var w2 := Step(p, w1, es[1]);
    var w3 := Step(p, w2, es[2]);
    assert es[1..][1..] == [es[2]] && es[1..][0] == es[1];
    assert Run(p, START, es) == Run(p, w2, [es[2]]) == Run(p, w3, []);
    assert Key("book", "b") in w3.fence.evidence;
  }
}
