/**
 * One attempt of the multi-step model loop: which steps a failed attempt leaves
 * for the next one, what the next attempt is sent, and why a caller cannot tell
 * a resumed loop from an uninterrupted one.
 */
module ResumedLoop {
  import opened Basics
  import opened ToolReplayFence

  datatype Role = System | User | Assistant | Tool

  datatype Part = Reasoning(text: string) | Other(text: string)

  datatype Content = Text(text: string) | Parts(parts: seq<Part>)

  datatype Message = Message(role: Role, content: Content)

  /** A finished step: the messages that step added, and its tool results. */
  datatype Step = Step(messages: seq<Message>, toolResults: seq<ToolResult>)

  datatype Resumable = Resumable(steps: seq<Step>, attempts: seq<nat>, modelId: string)

  const NOTHING := Resumable([], [], "")

  predicate EndsWithToolResult(step: Step) {
    step.messages != [] && step.messages[|step.messages| - 1].role == Tool
  }

  function LastRole(step: Step): Option<Role> {
    if |step.messages| == 0 then None else Some(step.messages[|step.messages| - 1].role)
  }

  // ---- selecting the resumable prefix ----

  /** The prefix up to the last step that ends in a tool result. */
  ghost predicate IsResumablePrefix(steps: seq<Step>, end: nat) {
    && end <= |steps|
    && (end > 0 ==> EndsWithToolResult(steps[end - 1]))
    && (forall i :: end <= i < |steps| ==> !EndsWithToolResult(steps[i]))
  }

  function ResumableLength(steps: seq<Step>): (end: nat)
    ensures IsResumablePrefix(steps, end)
  {
    if steps == [] || EndsWithToolResult(steps[|steps| - 1]) then |steps|
    else ResumableLength(steps[..|steps| - 1])
  }

  /** Array.prototype.slice(0, end): a short array is returned whole. */
  function Slice<T>(xs: seq<T>, end: nat): seq<T> {
    if end <= |xs| then xs[..end] else xs
  }

  function Selected(carried: Option<Resumable>): Resumable {
    match carried
    case None => NOTHING
    case Some(c) =>
      var end := ResumableLength(c.steps);
      Resumable(c.steps[..end], Slice(c.attempts, end), c.modelId)
  }

  /** The carried steps up to the last that ends in a tool message, with the attempts they are credited to. */
  ghost predicate IsSelection(carried: Option<Resumable>, r: Resumable) {
    match carried
    case None => r.steps == [] && r.attempts == []
    case Some(c) =>
      && r.steps <= c.steps && r.modelId == c.modelId
      && (r.steps != [] ==> LastRole(r.steps[|r.steps| - 1]) == Some(Tool))
      && (forall i :: |r.steps| <= i < |c.steps| ==> LastRole(c.steps[i]) != Some(Tool))
      && (|c.attempts| == |c.steps| ==> r.attempts == c.attempts[..|r.steps|])
  }

  lemma SelectedIsSelection(carried: Option<Resumable>)
    ensures IsSelection(carried, Selected(carried))
  {
    if carried.Some? {
      var steps := carried.value.steps;
      var end := ResumableLength(steps);
      assert end > 0 ==> EndsWithToolResult(steps[end - 1]);
    }
  }

  method SelectResumableSteps(carried: Option<Resumable>) returns (r: Resumable)
    ensures r == Selected(carried)
    ensures IsSelection(carried, r)
  {
    SelectedIsSelection(carried);
    if carried.None? {
      return NOTHING;
    }
    var c := carried.value;
    var end := |c.steps|;
    while end > 0 && !EndsWithToolResult(c.steps[end - 1])
      invariant 0 <= end <= |c.steps|
      invariant ResumableLength(c.steps[..end]) == ResumableLength(c.steps)
    {
      DropUnresumable(c.steps, end);
      end := end - 1;
    }
    r := Resumable(c.steps[..end], Slice(c.attempts, end), c.modelId);
  }

  lemma DropUnresumable(steps: seq<Step>, end: nat)
    requires 0 < end <= |steps| && !EndsWithToolResult(steps[end - 1])
    ensures ResumableLength(steps[..end]) == ResumableLength(steps[..end - 1])
  {
    assert steps[..end][..end - 1] == steps[..end - 1];
  }

  /** Steps added after a resumed prefix never shorten the next resumed prefix. */
  lemma {:induction false} SelectionGrows(prefix: seq<Step>, more: seq<Step>)
    requires prefix == [] || EndsWithToolResult(prefix[|prefix| - 1])
    ensures |prefix| <= ResumableLength(prefix + more)
    ensures prefix <= (prefix + more)[..ResumableLength(prefix + more)]
    ensures (forall i :: 0 <= i < |more| ==> EndsWithToolResult(more[i])) ==>
              ResumableLength(prefix + more) == |prefix + more|
  {
    var end := ResumableLength(prefix + more);
    assert prefix != [] ==> (prefix + more)[|prefix| - 1] == prefix[|prefix| - 1];
    if end < |prefix + more| && more != [] {
      assert (prefix + more)[|prefix + more| - 1] == more[|more| - 1];
    }
  }

  // ---- the request of an attempt ----

  type Settings = string
  type PrepareStep = (seq<Step>, nat, seq<Message>) -> Settings
  type StopCondition = seq<Step> -> bool

  datatype Input = Messages(messages: seq<Message>) | PromptText(text: string)
                 | PromptMessages(messages: seq<Message>) | NoInput

  datatype Params = Params(input: Input, prepareStep: Option<PrepareStep>, stopWhen: Option<seq<StopCondition>>)

  function ResolveBaseMessages(input: Input): Option<seq<Message>> {
    match input
    case Messages(ms) => Some(ms)
    case PromptText(s) => Some([Message(User, Text(s))])
    case PromptMessages(ms) => Some(ms)
    case NoInput => None
  }

  function StripReasoning(messages: seq<Message>): (stripped: seq<Message>)
    ensures |stripped| == |messages|
  {
    seq(|messages|, i requires 0 <= i < |messages| => Stripped(messages[i]))
  }

  function Stripped(m: Message): Message {
    if m.role != Assistant || !m.content.Parts? then m
    else m.(content := Parts(WithoutReasoning(m.content.parts)))
  }

  function WithoutReasoning(parts: seq<Part>): (kept: seq<Part>)
    ensures forall part :: part in kept <==> part in parts && !part.Reasoning?
  {
    if parts == [] then []
    else if parts[0].Reasoning? then WithoutReasoning(parts[1..])
    else [parts[0]] + WithoutReasoning(parts[1..])
  }

  function History(steps: seq<Step>): seq<Message> {
    if steps == [] then [] else History(steps[..|steps| - 1]) + steps[|steps| - 1].messages
  }

  lemma {:induction false} HistoryAppend(a: seq<Step>, b: seq<Step>)
    ensures History(a + b) == History(a) + History(b)
  {
    if b == [] {
      assert a + b == a;
    } else {
      assert (a + b)[..|a + b| - 1] == a + b[..|b| - 1];
      HistoryAppend(a, b[..|b| - 1]);
    }
  }

  function ResumedPrefix(resumed: Resumable, modelId: string): seq<Message> {
    if resumed.modelId == modelId then History(resumed.steps) else StripReasoning(History(resumed.steps))
  }

  function Shift(prefix: seq<Step>, prepare: PrepareStep): PrepareStep {
    (steps: seq<Step>, number: nat, messages: seq<Message>) =>
      prepare(prefix + steps, number + |prefix|, messages)
  }

  function Prefixed(prefix: seq<Step>, condition: StopCondition): StopCondition {
    (steps: seq<Step>) => condition(prefix + steps)
  }

  function AttemptParams(params: Params, resumed: Resumable, modelId: string): Params {
    var base := ResolveBaseMessages(params.input);
    if resumed.steps == [] || base.None? then params
    else Params(
      Messages(base.value + ResumedPrefix(resumed, modelId)),
      match params.prepareStep
      case Some(prepare) => Some(Shift(resumed.steps, prepare))
      case None => None,
      match params.stopWhen
      case Some(cs) => Some(seq(|cs|, i requires 0 <= i < |cs| => Prefixed(resumed.steps, cs[i])))
      case None => None)
  }

  // ---- what that request is ----

  function Said(steps: seq<Step>): (said: seq<seq<Message>>)
    ensures |said| == |steps|
  {
    seq(|steps|, i requires 0 <= i < |steps| => steps[i].messages)
  }

  /** The history is what the steps said, one after the other. */
  lemma {:induction false} HistoryIsSaid(steps: seq<Step>)
    ensures History(steps) == Flatten(Said(steps))
  {
    if steps != [] {
      var init, last := steps[..|steps| - 1], steps[|steps| - 1];
      HistoryIsSaid(init);
      assert Said(steps) == Said(init) + [last.messages];
      FlattenAppend(Said(init), [last.messages]);
      assert Flatten([last.messages]) == last.messages;
    }
  }

  /** How many of the first k parts are not reasoning. */
  function Kept(parts: seq<Part>, k: nat): (n: nat)
    requires k <= |parts|
  {
    if k == 0 then 0 else Kept(parts, k - 1) + (if parts[k - 1].Reasoning? then 0 else 1)
  }

  /** All parts but reasoning, each behind those kept before it. */
  predicate KeptInOrder(kept: seq<Part>, parts: seq<Part>) {
    && |kept| == Kept(parts, |parts|)
    && forall k :: 0 <= k < |parts| && !parts[k].Reasoning? ==>
         Kept(parts, k) < |kept| && kept[Kept(parts, k)] == parts[k]
  }

  lemma {:induction false} KeptOfPrefix(parts: seq<Part>, n: nat, k: nat)
    requires k <= n <= |parts|
    ensures Kept(parts[..n], k) == Kept(parts, k)
  {
    if k > 0 {
      KeptOfPrefix(parts, n, k - 1);
    }
  }

  lemma {:induction false} WithoutReasoningAppend(parts: seq<Part>, last: Part)
    ensures WithoutReasoning(parts + [last]) == WithoutReasoning(parts) + (if last.Reasoning? then [] else [last])
  {
    if parts != [] {
      WithoutReasoningAppend(parts[1..], last);
      assert (parts + [last])[1..] == parts[1..] + [last];
    }
  }

  lemma WithoutReasoningLast(parts: seq<Part>)
    requires parts != []
    ensures var init, last := parts[..|parts| - 1], parts[|parts| - 1];
      WithoutReasoning(parts) == WithoutReasoning(init) + (if last.Reasoning? then [] else [last])
  {
    WithoutReasoningAppend(parts[..|parts| - 1], parts[|parts| - 1]);
    assert parts == parts[..|parts| - 1] + [parts[|parts| - 1]];
  }

  /** A part before the last keeps its place. */
  lemma PlaceStays(kept: seq<Part>, parts: seq<Part>, n: nat, k: nat)
    requires k < n <= |parts| && KeptInOrder(kept, parts[..n]) && !parts[k].Reasoning?
    ensures Kept(parts, k) < |kept| && kept[Kept(parts, k)] == parts[k]
  {
    KeptOfPrefix(parts, n, k);
    assert parts[..n][k] == parts[k];
  }

  /** The last part is kept, behind the others, unless it is reasoning. */
  lemma OneMorePart(kept: seq<Part>, more: seq<Part>, parts: seq<Part>)
    requires parts != [] && KeptInOrder(kept, parts[..|parts| - 1])
    requires var last := parts[|parts| - 1]; more == kept + (if last.Reasoning? then [] else [last])
    ensures KeptInOrder(more, parts)
  {
    var n := |parts| - 1;
    KeptOfPrefix(parts, n, n);
    assert |kept| == Kept(parts, n);
    forall k | 0 <= k < |parts| && !parts[k].Reasoning?
      ensures Kept(parts, k) < |more| && more[Kept(parts, k)] == parts[k]
    {
      if k < n {
        PlaceStays(kept, parts, n, k);
      }
    }
  }

  lemma {:induction false} KeepsTheRest(parts: seq<Part>)
    ensures KeptInOrder(WithoutReasoning(parts), parts)
  {
    if parts != [] {
      KeepsTheRest(parts[..|parts| - 1]);
      WithoutReasoningLast(parts);
      OneMorePart(WithoutReasoning(parts[..|parts| - 1]), WithoutReasoning(parts), parts);
    }
  }

  /** The same message, but an assistant's parts without the reasoning among them. */
  predicate StrippedFrom(sent: Message, m: Message) {
    if m.role == Assistant && m.content.Parts?
    then sent.role == Assistant && sent.content.Parts? && KeptInOrder(sent.content.parts, m.content.parts)
    else sent == m
  }

  lemma StrippedKeepsTheRest(m: Message)
    ensures StrippedFrom(Stripped(m), m)
  {
    if m.role == Assistant && m.content.Parts? {
      KeepsTheRest(m.content.parts);
    }
  }

  /**
   * The request of an attempt on any model. Without resumed steps, or without input, it is the caller's. Otherwise
   * what the resumed steps said follows the caller's messages, stripped of reasoning for another model than theirs.
   */
  lemma AttemptSends(params: Params, resumed: Resumable, modelId: string)
    ensures var inner := AttemptParams(params, resumed, modelId);
      if resumed.steps == [] || params.input.NoInput? then inner == params
      else
        && inner.input.Messages?
        && var own := (match params.input
                       case PromptText(text) => [Message(User, Text(text))]
                       case Messages(ms) => ms
                       case PromptMessages(ms) => ms
                       case NoInput => []);
        var said, sent := Flatten(Said(resumed.steps)), inner.input.messages;
        && |sent| == |own| + |said| && sent[..|own|] == own
        && forall i :: 0 <= i < |said| ==>
             if modelId == resumed.modelId then sent[|own| + i] == said[i]
             else StrippedFrom(sent[|own| + i], said[i])
  {
    HistoryIsSaid(resumed.steps);
    forall m ensures StrippedFrom(Stripped(m), m) {
      StrippedKeepsTheRest(m);
    }
  }

  /** Its hooks see the resumed steps in front of the attempt's own. */
  lemma AttemptHooks(params: Params, resumed: Resumable, modelId: string)
    requires resumed.steps != [] && !params.input.NoInput?
    ensures var inner := AttemptParams(params, resumed, modelId);
      && (inner.prepareStep.Some? <==> params.prepareStep.Some?)
      && (inner.prepareStep.Some? ==>
            forall own, number: nat, messages {:trigger inner.prepareStep.value(own, number, messages)} ::
              inner.prepareStep.value(own, number, messages)
              == params.prepareStep.value(resumed.steps + own, number + |resumed.steps|, messages))
      && (inner.stopWhen.Some? <==> params.stopWhen.Some?)
      && (inner.stopWhen.Some? ==>
            && |inner.stopWhen.value| == |params.stopWhen.value|
            && forall i, own :: 0 <= i < |inner.stopWhen.value| ==>
                 inner.stopWhen.value[i](own) == params.stopWhen.value[i](resumed.steps + own))
  {
  }

  predicate CarriesReasoning(messages: seq<Message>) {
    exists i :: 0 <= i < |messages| && messages[i].role == Assistant && messages[i].content.Parts?
      && exists j :: 0 <= j < |messages[i].content.parts| && messages[i].content.parts[j].Reasoning?
  }

  lemma StrippedCarriesNone(messages: seq<Message>)
    ensures !CarriesReasoning(StripReasoning(messages))
  {
    var stripped := StripReasoning(messages);
    forall i, j | 0 <= i < |stripped| && stripped[i].role == Assistant && stripped[i].content.Parts?
                  && 0 <= j < |stripped[i].content.parts|
      ensures !stripped[i].content.parts[j].Reasoning?
    {
      assert stripped[i].content.parts[j] in stripped[i].content.parts;
    }
  }

  /** Reasoning is resent exactly when the carried steps are credited to the same model. */
  lemma ReasoningResentExactlyWhen(resumed: Resumable, modelId: string)
    ensures CarriesReasoning(ResumedPrefix(resumed, modelId)) <==>
              resumed.modelId == modelId && CarriesReasoning(History(resumed.steps))
  {
    StrippedCarriesNone(History(resumed.steps));
  }

  // ---- the AI SDK's loop, over a deterministic step oracle ----

  /**
   * respond is the provider with the tools it calls; goesOn says that a step's
   * tool calls all have results, so that the loop would ask for another step.
   */
  datatype Sdk = Sdk(respond: (string, seq<Message>, Settings) -> Step, goesOn: Step -> bool, defaults: Settings)

  predicate StopMet(stopWhen: Option<seq<StopCondition>>, steps: seq<Step>) {
    match stopWhen
    case Some(cs) => exists i :: 0 <= i < |cs| && cs[i](steps)
    case None => |steps| == 1
  }

  predicate Continues(sdk: Sdk, params: Params, steps: seq<Step>) {
    steps == [] || (sdk.goesOn(steps[|steps| - 1]) && !StopMet(params.stopWhen, steps))
  }

  function SettingsFor(sdk: Sdk, params: Params, steps: seq<Step>, messages: seq<Message>): Settings {
    match params.prepareStep
    case Some(prepare) => prepare(steps, |steps|, messages)
    case None => sdk.defaults
  }

  function NextStep(sdk: Sdk, modelId: string, params: Params, steps: seq<Step>): Step
    requires !params.input.NoInput?
  {
    var messages := ResolveBaseMessages(params.input).value + History(steps);
    sdk.respond(modelId, messages, SettingsFor(sdk, params, steps, messages))
  }

  /** Each step answers the request made after the ones before it, which let the loop go on. */
  ghost predicate Follows(sdk: Sdk, modelId: string, params: Params, steps: seq<Step>) {
    forall i :: 0 <= i < |steps| ==>
      && Continues(sdk, params, steps[..i])
      && !params.input.NoInput?
      && steps[i] == NextStep(sdk, modelId, params, steps[..i])
  }

  /** The loop is about to request a step: the only point at which it may fail. */
  ghost predicate Requesting(sdk: Sdk, modelId: string, params: Params, steps: seq<Step>) {
    Follows(sdk, modelId, params, steps) && Continues(sdk, params, steps)
  }

  ghost predicate Finished(sdk: Sdk, modelId: string, params: Params, steps: seq<Step>) {
    Follows(sdk, modelId, params, steps) && !Continues(sdk, params, steps)
  }

  lemma {:induction false} FollowersAgree(sdk: Sdk, modelId: string, params: Params, a: seq<Step>, b: seq<Step>, n: nat)
    requires Follows(sdk, modelId, params, a) && Follows(sdk, modelId, params, b)
    requires n <= |a| && n <= |b|
    ensures a[..n] == b[..n]
  {
    if n > 0 {
      FollowersAgree(sdk, modelId, params, a, b, n - 1);
      assert a[n - 1] == NextStep(sdk, modelId, params, a[..n - 1]) == b[n - 1];
      assert a[..n] == a[..n - 1] + [a[n - 1]];
      assert b[..n] == b[..n - 1] + [b[n - 1]];
    }
  }

  /** A deterministic loop finishes in at most one way. */
  lemma FinishedUnique(sdk: Sdk, modelId: string, params: Params, a: seq<Step>, b: seq<Step>)
    requires Finished(sdk, modelId, params, a) && Finished(sdk, modelId, params, b)
    ensures a == b
  {
    var n := if |a| <= |b| then |a| else |b|;
    FollowersAgree(sdk, modelId, params, a, b, n);
    assert a[..|a|] == a && b[..|b|] == b;
  }

  lemma NoPrefixUnderDefaultStop(sdk: Sdk, modelId: string, params: Params, steps: seq<Step>)
    requires Requesting(sdk, modelId, params, steps) && params.stopWhen.None?
    ensures steps == []
  {
    var one := Slice(steps, 1);
    assert |one| == 1 ==> !Continues(sdk, params, one);
  }

  lemma ResumedStopAgrees(sdk: Sdk, params: Params, resumed: Resumable, modelId: string, own: seq<Step>)
    requires params.stopWhen.Some? || resumed.steps == []
    ensures StopMet(AttemptParams(params, resumed, modelId).stopWhen, own) <==>
              if resumed.steps == [] || params.input.NoInput? then StopMet(params.stopWhen, own)
              else StopMet(params.stopWhen, resumed.steps + own)
  {
    if resumed.steps != [] && !params.input.NoInput? {
      var cs := params.stopWhen.value;
      var wrapped := AttemptParams(params, resumed, modelId).stopWhen.value;
      assert forall i :: 0 <= i < |cs| ==> wrapped[i](own) == cs[i](resumed.steps + own);
    }
  }

  lemma ResumedStepAgrees(sdk: Sdk, params: Params, resumed: Resumable, modelId: string, own: seq<Step>)
    requires !params.input.NoInput? && resumed.modelId == modelId
    ensures NextStep(sdk, modelId, AttemptParams(params, resumed, modelId), own)
            == NextStep(sdk, modelId, params, resumed.steps + own)
  {
    if resumed.steps == [] {
      assert resumed.steps + own == own;
    } else {
      ResumedMessagesAgree(params, resumed, modelId, own);
      ResumedSettingsAgree(sdk, params, resumed, modelId, own,
          ResolveBaseMessages(params.input).value + History(resumed.steps + own));
    }
  }

  lemma ResumedMessagesAgree(params: Params, resumed: Resumable, modelId: string, own: seq<Step>)
    requires !params.input.NoInput? && resumed.modelId == modelId && resumed.steps != []
    ensures var inner := AttemptParams(params, resumed, modelId);
      !inner.input.NoInput?
      && ResolveBaseMessages(inner.input).value + History(own)
         == ResolveBaseMessages(params.input).value + History(resumed.steps + own)
  {
    var base := ResolveBaseMessages(params.input).value;
    HistoryAppend(resumed.steps, own);
    assert base + History(resumed.steps) + History(own) == base + (History(resumed.steps) + History(own));
  }

  lemma ResumedSettingsAgree(sdk: Sdk, params: Params, resumed: Resumable, modelId: string, own: seq<Step>,
      messages: seq<Message>)
    requires !params.input.NoInput? && resumed.steps != []
    ensures SettingsFor(sdk, AttemptParams(params, resumed, modelId), own, messages)
            == SettingsFor(sdk, params, resumed.steps + own, messages)
  {
  }

  /**
   * Continuing from a prefix the loop itself produced, the resumed loop makes the
   * steps the uninterrupted loop would make next, and stops where it would stop.
   */
  lemma ResumedRunExtends(sdk: Sdk, modelId: string, params: Params, resumed: Resumable, own: seq<Step>)
    requires Requesting(sdk, modelId, params, resumed.steps)
    requires resumed.steps == [] || resumed.modelId == modelId
    requires Follows(sdk, modelId, AttemptParams(params, resumed, modelId), own)
    ensures Follows(sdk, modelId, params, resumed.steps + own)
    ensures Continues(sdk, params, resumed.steps + own)
            <==> Continues(sdk, AttemptParams(params, resumed, modelId), own)
  {
    var whole, inner := resumed.steps + own, AttemptParams(params, resumed, modelId);
    if resumed.steps == [] {
      assert whole == own;
      return;
    }
    if params.stopWhen.None? {
      NoPrefixUnderDefaultStop(sdk, modelId, params, resumed.steps);
    }
    assert !params.input.NoInput?;
    ContinuesAgree(sdk, modelId, params, resumed, own);
    forall i | 0 <= i < |whole|
      ensures Continues(sdk, params, whole[..i])
      ensures whole[i] == NextStep(sdk, modelId, params, whole[..i])
    {
      if i < |resumed.steps| {
        assert whole[..i] == resumed.steps[..i];
      } else {
        var k := i - |resumed.steps|;
        assert whole[..i] == resumed.steps + own[..k];
        ContinuesAgree(sdk, modelId, params, resumed, own[..k]);
        ResumedStepAgrees(sdk, params, resumed, modelId, own[..k]);
      }
    }
  }

  lemma ContinuesAgree(sdk: Sdk, modelId: string, params: Params, resumed: Resumable, own: seq<Step>)
    requires Continues(sdk, params, resumed.steps) && resumed.steps != []
    requires params.stopWhen.Some? && !params.input.NoInput?
    ensures Continues(sdk, params, resumed.steps + own)
            <==> Continues(sdk, AttemptParams(params, resumed, modelId), own)
  {
    ResumedStopAgrees(sdk, params, resumed, modelId, own);
    if own == [] {
      assert resumed.steps + own == resumed.steps;
    } else {
      assert (resumed.steps + own)[|resumed.steps + own| - 1] == own[|own| - 1];
    }
  }
}
