/**
 * The tool replay fence: one object shared by every attempt, model and parallel
 * tool call of a single generate(). Tool results are opaque text; the caller's
 * policy says which tools are fenced and what a result proves.
 */
module ToolReplayFence {
  import opened Basics

  type Output = string

  datatype Status = Pending | Executing | Unknown | Succeeded | Blocked | Cancelled

  datatype Component = Component(status: Status, component: Option<string>)

  datatype Evidence = Evidence(
    toolName: string, toolCallId: Option<string>, status: Status, component: Option<string>)

  datatype Policy = Policy(
    toolNames: seq<string>,
    classify: Output -> Option<Status>,
    classifyAll: Option<Output -> seq<Component>>)
  {
    /** What a result proves. */
    function Classify(output: Output): seq<Component> {
      match classifyAll
      case Some(all) => all(output)
      case None =>
        match classify(output)
        case Some(status) => [Component(status, None)]
        case None => []
    }
  }

  /** classifyAll decides if it is given, else the one status of classify, if any. */
  lemma ClassifiesOnceOrAll(p: Policy, output: Output)
    ensures p.classifyAll.Some? ==> p.Classify(output) == p.classifyAll.value(output)
    ensures p.classifyAll.None? ==>
              |p.Classify(output)| == (if p.classify(output).Some? then 1 else 0)
              && forall c :: c in p.Classify(output) ==> Some(c.status) == p.classify(output) && c.component == None
  {
  }

  datatype ToolResult = ToolResult(toolName: Option<string>, toolCallId: Option<string>, output: Output)

  /** A map key: the pair behind JSON.stringify([name, id]). */
  datatype Key = Key(tool: string, id: string)

  /** One entry into a wrapped execute() that passed the fence. */
  datatype Call = Call(tool: string, callId: Option<string>, key: Key)

  datatype State = State(evidence: map<Key, seq<Evidence>>, blocked: set<string>, anonymous: nat)

  const INITIAL := State(map[], {}, 0)

  predicate Truthy(s: Option<string>) {
    s.Some? && s.value != ""
  }

  function Labelled(tool: string, callId: Option<string>, items: seq<Component>): (labelled: seq<Evidence>)
    ensures |labelled| == |items|
    ensures forall i :: 0 <= i < |items| ==>
              labelled[i] == Evidence(tool, callId, items[i].status, items[i].component)
  {
    seq(|items|, i requires 0 <= i < |items| =>
      Evidence(tool, callId, items[i].status, items[i].component))
  }

  // ---- what each step of the fence does to its state ----

  function CallFor(s: State, tool: string, callId: Option<string>): Call {
    Call(tool, callId, Key(tool, match callId
                                 case Some(id) => id
                                 case None => "anonymous:" + Decimal(s.anonymous + 1)))
  }

  function Entered(s: State, call: Call): State {
    State(s.evidence[call.key := [Evidence(call.tool, call.callId, Executing, None)]],
          s.blocked + {call.tool},
          if call.callId.None? then s.anonymous + 1 else s.anonymous)
  }

  function Returned(p: Policy, s: State, call: Call, output: Output): State {
    var components := p.Classify(output);
    if components != [] then
      s.(evidence := s.evidence[call.key := Labelled(call.tool, call.callId, components)])
    else
      s.(evidence := s.evidence - {call.key}, blocked := s.blocked - {call.tool})
  }

  function Threw(s: State, call: Call): State {
    s.(evidence := s.evidence[call.key := [Evidence(call.tool, call.callId, Unknown, None)]])
  }

  predicate Relevant(p: Policy, r: ToolResult) {
    Truthy(r.toolName) && r.toolName.value in p.toolNames && p.Classify(r.output) != []
  }

  function ResultKey(r: ToolResult): Key
    requires r.toolName.Some?
  {
    Key(r.toolName.value, if r.toolCallId.Some? then r.toolCallId.value else "completed")
  }

  function ObservedOne(p: Policy, s: State, r: ToolResult): State {
    if !Relevant(p, r) || ResultKey(r) in s.evidence then s
    else s.(evidence := s.evidence[ResultKey(r) :=
                          Labelled(r.toolName.value, r.toolCallId, p.Classify(r.output))],
            blocked := s.blocked + {r.toolName.value})
  }

  function Observed(p: Policy, s: State, results: seq<ToolResult>): State {
    if results == [] then s
    else ObservedOne(p, Observed(p, s, results[..|results| - 1]), results[|results| - 1])
  }

  lemma {:induction false} ObservedAppend(p: Policy, s: State, a: seq<ToolResult>, b: seq<ToolResult>)
    ensures Observed(p, s, a + b) == Observed(p, Observed(p, s, a), b)
  {
    if b == [] {
      assert a + b == a;
    } else {
      assert (a + b)[..|a + b| - 1] == a + b[..|b| - 1];
      ObservedAppend(p, s, a, b[..|b| - 1]);
    }
  }

  /** A result with this tool name and call id is among the given results. */
  predicate Covered(item: Evidence, results: seq<ToolResult>) {
    Truthy(item.toolCallId) &&
    exists i :: 0 <= i < |results| && results[i].toolName == Some(item.toolName)
                && item.toolName != "" && results[i].toolCallId == item.toolCallId
  }

  /** Some step has a result of the same tool and the same id, neither of them empty. */
  ghost predicate CompletedIn(item: Evidence, steps: seq<seq<ToolResult>>) {
    && item.toolCallId.Some? && item.toolCallId.value != "" && item.toolName != ""
    && exists i, r :: 0 <= i < |steps| && r in steps[i]
                      && r.toolName == Some(item.toolName) && r.toolCallId == item.toolCallId
  }

  lemma {:induction false} InFlattened(steps: seq<seq<ToolResult>>, r: ToolResult)
    ensures r in Flatten(steps) <==> exists i :: 0 <= i < |steps| && r in steps[i]
  {
    if steps != [] {
      var rest := steps[1..];
      InFlattened(rest, r);
      if i :| 0 <= i < |steps| && r in steps[i] {
        assert i > 0 ==> rest[i - 1] == steps[i];
      }
      if i :| 0 <= i < |rest| && r in rest[i] {
        assert steps[i + 1] == rest[i];
      }
    }
  }

  lemma CoveredIsCompleted(item: Evidence, steps: seq<seq<ToolResult>>)
    ensures Covered(item, Flatten(steps)) <==> CompletedIn(item, steps)
  {
    var results := Flatten(steps);
    forall r ensures r in results <==> exists i :: 0 <= i < |steps| && r in steps[i] {
      InFlattened(steps, r);
    }
    if CompletedIn(item, steps) {
      var i, r :| 0 <= i < |steps| && r in steps[i]
                  && r.toolName == Some(item.toolName) && r.toolCallId == item.toolCallId;
      assert r in results;
    }
    if Covered(item, results) {
      var i :| 0 <= i < |results| && results[i].toolName == Some(item.toolName)
               && item.toolName != "" && results[i].toolCallId == item.toolCallId;
      assert results[i] in results;
    }
  }

  ghost predicate Recorded(s: State, item: Evidence) {
    exists k :: k in s.evidence && item in s.evidence[k]
  }

  ghost predicate AllCovered(s: State, results: seq<ToolResult>) {
    forall item :: Recorded(s, item) ==> Covered(item, results)
  }

  ghost predicate AllCompletedIn(s: State, steps: seq<seq<ToolResult>>) {
    forall k, j :: k in s.evidence && 0 <= j < |s.evidence[k]| ==> CompletedIn(s.evidence[k][j], steps)
  }

  lemma CoveredAreCompleted(s: State, steps: seq<seq<ToolResult>>)
    ensures AllCovered(s, Flatten(steps)) <==> AllCompletedIn(s, steps)
  {
    forall item ensures Covered(item, Flatten(steps)) <==> CompletedIn(item, steps) {
      CoveredIsCompleted(item, steps);
    }
    if AllCovered(s, Flatten(steps)) {
      forall k, j | k in s.evidence && 0 <= j < |s.evidence[k]| ensures CompletedIn(s.evidence[k][j], steps) {
        assert Recorded(s, s.evidence[k][j]);
      }
    }
  }

  /** The evidence is what the components say, each under the tool and call id. */
  predicate Says(evidence: seq<Evidence>, tool: string, callId: Option<string>, components: seq<Component>) {
    && |evidence| == |components|
    && forall i :: 0 <= i < |components| ==>
         evidence[i] == Evidence(tool, callId, components[i].status, components[i].component)
  }

  class Fence {
    const policy: Policy
    var evidenceByCall: map<Key, seq<Evidence>>
    var blockedNames: set<string>
    var anonymousCall: nat

    ghost function Abstract(): State
      reads this
    {
      State(evidenceByCall, blockedNames, anonymousCall)
    }

    constructor (policy: Policy)
      ensures this.policy == policy && Abstract() == INITIAL
    {
      this.policy := policy;
      evidenceByCall, blockedNames, anonymousCall := map[], {}, 0;
    }

    /** A wrapped execute() up to its await. None is the synthetic BLOCKED reply. */
    method Enter(tool: string, callId: Option<string>) returns (call: Option<Call>)
      modifies this
      ensures call.None? <==> tool in old(blockedNames)
      ensures call.None? ==> Abstract() == old(Abstract())
      ensures call.Some? ==>
                && call.value.tool == tool && call.value.callId == callId && call.value.key.tool == tool
                && call.value.key.id == (if callId.Some? then callId.value
                                         else "anonymous:" + Decimal(old(anonymousCall) + 1))
                && evidenceByCall == old(evidenceByCall)[call.value.key := [Evidence(tool, callId, Executing, None)]]
                && blockedNames == old(blockedNames) + {tool}
                && anonymousCall == old(anonymousCall) + (if callId.None? then 1 else 0)
      ensures call.Some? ==> call.value == CallFor(old(Abstract()), tool, callId)
                             && Abstract() == Entered(old(Abstract()), call.value)
    {
      if tool in blockedNames {
        return None;
      }
      blockedNames := blockedNames + {tool};
      var id;
      match callId {
        case Some(given) => id := given;
        case None =>
          anonymousCall := anonymousCall + 1;
          id := "anonymous:" + Decimal(anonymousCall);
      }
      var key := Key(tool, id);
      evidenceByCall := evidenceByCall[key := [Evidence(tool, callId, Executing, None)]];
      call := Some(Call(tool, callId, key));
    }

    /** The awaited execute() resolved. */
    method Return(call: Call, output: Output)
      modifies this
      ensures anonymousCall == old(anonymousCall)
      ensures forall k :: k != call.key ==>
                (k in evidenceByCall <==> k in old(evidenceByCall))
                && (k in evidenceByCall ==> evidenceByCall[k] == old(evidenceByCall)[k])
      ensures policy.Classify(output) != [] ==>
                && call.key in evidenceByCall && blockedNames == old(blockedNames)
                && Says(evidenceByCall[call.key], call.tool, call.callId, policy.Classify(output))
      ensures policy.Classify(output) == [] ==>
                call.key !in evidenceByCall && blockedNames == old(blockedNames) - {call.tool}
      ensures Abstract() == Returned(policy, old(Abstract()), call, output)
    {
      var components := policy.Classify(output);
      if |components| != 0 {
        evidenceByCall := evidenceByCall[call.key := Labelled(call.tool, call.callId, components)];
      } else {
        evidenceByCall := evidenceByCall - {call.key};
        blockedNames := blockedNames - {call.tool};
      }
    }

    /** The awaited execute(), or the classification of its result, threw. */
    method Throw(call: Call)
      modifies this
      ensures evidenceByCall == old(evidenceByCall)[call.key := [Evidence(call.tool, call.callId, Unknown, None)]]
      ensures blockedNames == old(blockedNames) && anonymousCall == old(anonymousCall)
      ensures Abstract() == Threw(old(Abstract()), call)
    {
      evidenceByCall := evidenceByCall[call.key := [Evidence(call.tool, call.callId, Unknown, None)]];
    }

    /** One completed result: recorded under its tool and id, unless something is on record there already. */
    method ObserveResult(result: ToolResult)
      modifies this
      ensures anonymousCall == old(anonymousCall)
      ensures var fenced := result.toolName.Some? && result.toolName.value != ""
                            && result.toolName.value in policy.toolNames && policy.Classify(result.output) != [];
        var key := Key(if fenced then result.toolName.value else "",
                       if result.toolCallId.Some? then result.toolCallId.value else "completed");
        if !fenced || key in old(evidenceByCall) then
          evidenceByCall == old(evidenceByCall) && blockedNames == old(blockedNames)
        else
          && blockedNames == old(blockedNames) + {key.tool} && key in evidenceByCall
          && evidenceByCall - {key} == old(evidenceByCall)
          && Says(evidenceByCall[key], key.tool, result.toolCallId, policy.Classify(result.output))
      ensures Abstract() == ObservedOne(policy, old(Abstract()), result)
    {
      if !Truthy(result.toolName) || result.toolName.value !in policy.toolNames { return; }
      var components := policy.Classify(result.output);
      if |components| == 0 { return; }
      var key := ResultKey(result);
      if key in evidenceByCall { return; }
      evidenceByCall := evidenceByCall[key := Labelled(result.toolName.value, result.toolCallId, components)];
      blockedNames := blockedNames + {result.toolName.value};
    }

    method ObserveStep(results: seq<ToolResult>)
      modifies this
      ensures Abstract() == Observed(policy, old(Abstract()), results)
    {
      for r := 0 to |results|
        invariant Abstract() == Observed(policy, old(Abstract()), results[..r])
      {
        ObserveResult(results[r]);
        assert results[..r + 1][..r] == results[..r];
      }
      assert results[..|results|] == results;
    }

    method Observe(steps: seq<seq<ToolResult>>)
      modifies this
      ensures Abstract() == Observed(policy, old(Abstract()), Flatten(steps))
    {
      for s := 0 to |steps|
        invariant Abstract() == Observed(policy, old(Abstract()), Flatten(steps[..s]))
      {
        ObserveStep(steps[s]);
        ObservedAppend(policy, old(Abstract()), Flatten(steps[..s]), steps[s]);
        assert steps[..s + 1] == steps[..s] + [steps[s]];
        FlattenAppend(steps[..s], [steps[s]]);
        assert Flatten([steps[s]]) == steps[s];
      }
      assert steps[..|steps|] == steps;
    }

    /** Every recorded piece of evidence; the order of the map's entries is left open. */
    method Snapshot() returns (items: seq<Evidence>)
      ensures forall item :: item in items <==> Recorded(Abstract(), item)
    {
      items := [];
      var todo := evidenceByCall.Keys;
      while todo != {}
        invariant todo <= evidenceByCall.Keys
        invariant forall item :: item in items <==>
                    exists k :: k in evidenceByCall && k !in todo && item in evidenceByCall[k]
      {
        var key :| key in todo;
        items := items + evidenceByCall[key];
        todo := todo - {key};
      }
    }

    method HasUnresumableAction(steps: seq<seq<ToolResult>>) returns (found: bool)
      ensures found <==> !AllCompletedIn(Abstract(), steps)
      ensures found <==> !AllCovered(Abstract(), Flatten(steps))
    {
      var results := Flatten(steps);
      var items := Snapshot();
      found := exists i :: 0 <= i < |items| && !Covered(items[i], results);
      if found {
        var i :| 0 <= i < |items| && !Covered(items[i], results);
        assert items[i] in items;
      }
      CoveredAreCompleted(Abstract(), steps);
    }
  }
}
