/**
 * The Kimi K2 stream fix: rewrite each complete line of a server-sent event stream that
 * arrives in arbitrary chunks (section 9.2.5 of the WHATWG HTML standard, with lines
 * ended by \n only), and pass an unterminated last line through as it is.
 */
module SseRewriter {
  import opened Basics
  import opened JsText

  /** A tool call of choices[0].delta; kind is its type field. */
  datatype ToolCall = ToolCall(kind: Option<string>, other: string)

  /** What JSON.parse shows of a data line: the delta's tool_calls array, if it has one. */
  datatype Payload = Payload(toolCalls: Option<seq<ToolCall>>, other: string)

  /** parse is None where JSON.parse throws. */
  datatype Json = Json(parse: string -> Option<Payload>, stringify: Payload -> string)

  /** The same call, its type replaced where it was the empty string. */
  predicate FixedFrom(after: ToolCall, before: ToolCall) {
    && after.other == before.other
    && (before.kind == Some("") ==> after.kind == Some("function"))
    && (before.kind != Some("") ==> after.kind == before.kind)
  }

  function FixCall(call: ToolCall): ToolCall {
    if call.kind == Some("") then call.(kind := Some("function")) else call
  }

  function FixPayload(data: Payload): (fixed: Payload)
    requires data.toolCalls.Some?
    ensures fixed.other == data.other && fixed.toolCalls.Some?
    ensures |fixed.toolCalls.value| == |data.toolCalls.value|
    ensures forall i :: 0 <= i < |data.toolCalls.value| ==>
      var before, after := data.toolCalls.value[i], fixed.toolCalls.value[i];
      FixedFrom(after, before)
  {
    var calls := data.toolCalls.value;
    data.(toolCalls := Some(seq(|calls|, i requires 0 <= i < |calls| => FixCall(calls[i]))))
  }

  /** The line that replaces a complete line, newline not included. */
  function NewLine(json: Json, line: string): string {
    if !("data: " <= line) then line
    else
      var text := line[6..];
      if Trim(text) == "[DONE]" || Trim(text) == "" then line
      else match json.parse(text)
        case Some(data) =>
          if data.toolCalls.Some? then "data: " + json.stringify(FixPayload(data)) else line
        case None => line
  }

  function NewLines(json: Json, lines: seq<string>): (rewritten: seq<string>)
    ensures |rewritten| == |lines|
  {
    seq(|lines|, i requires 0 <= i < |lines| => NewLine(json, lines[i]))
  }

  function Terminated(lines: seq<string>): (pieces: seq<string>)
    ensures |pieces| == |lines|
  {
    seq(|lines|, i requires 0 <= i < |lines| => lines[i] + "\n")
  }

  function Lines(json: Json, lines: seq<string>): seq<string> {
    Terminated(NewLines(json, lines))
  }

  /** The whole-text form: every complete line rewritten once, in order, then the raw tail. */
  function Rewritten(json: Json, text: string): string {
    Flatten(Lines(json, Complete(text))) + Tail(text)
  }

  /** The newline-terminated lines of a text, and what follows them. */
  function Complete(text: string): seq<string> {
    Split(text)[..|Split(text)| - 1]
  }

  function Tail(text: string): string {
    Split(text)[|Split(text)| - 1]
  }

  /** Text after a cut rewrites by itself: the complete lines before it are settled. */
  lemma RewrittenAppend(json: Json, before: string, chunk: string)
    ensures Tail(before + chunk) == Tail(Tail(before) + chunk)
    ensures Lines(json, Complete(before + chunk)) ==
            Lines(json, Complete(before)) + Lines(json, Complete(Tail(before) + chunk))
  {
    SplitAppend(before, chunk);
    assert Complete(before + chunk) == Complete(before) + Complete(Tail(before) + chunk);
    LinesAppend(json, Complete(before), Complete(Tail(before) + chunk));
  }

  lemma LinesAppend(json: Json, a: seq<string>, b: seq<string>)
    ensures Lines(json, a + b) == Lines(json, a) + Lines(json, b)
  {
  }

  /** The for loop over the complete lines of one read. */
  method Enqueue(json: Json, before: seq<string>, lines: seq<string>) returns (out: seq<string>)
    ensures out == before + Lines(json, lines)
  {
    out := before;
    for i := 0 to |lines|
      invariant out == before + Lines(json, lines[..i])
    {
      out := out + [NewLine(json, lines[i]) + "\n"];
    }
    assert lines[..|lines|] == lines;
  }

  /**
   * The stream: chunks are the decoded reads, out the pieces enqueued. Whatever the
   * chunking, their concatenation is the whole-text form of the whole text.
   */
  method Transform(json: Json, chunks: seq<string>) returns (out: seq<string>)
    ensures Flatten(out) == Rewritten(json, Flatten(chunks))
  {
    out := [];
    var buffer := "";
    ghost var seen := "";
    for n := 0 to |chunks|
      invariant seen == Flatten(chunks[..n])
      invariant buffer == Tail(seen)
      invariant out == Lines(json, Complete(seen))
    {
      RewrittenAppend(json, seen, chunks[n]);
      assert chunks[..n + 1] == chunks[..n] + [chunks[n]];
      FlattenAppend(chunks[..n], [chunks[n]]);
      assert Flatten([chunks[n]]) == chunks[n];
      seen := seen + chunks[n];

      buffer := buffer + chunks[n];
      var lines := Split(buffer);
      buffer := lines[|lines| - 1];
      out := Enqueue(json, out, lines[..|lines| - 1]);
    }
    assert chunks[..|chunks|] == chunks;
    if buffer != "" {
      FlattenAppend(out, [buffer]);
      assert Flatten([buffer]) == buffer;
      out := out + [buffer];
    }
  }

  // ---- what the whole-text form is ----

  /** JSON.stringify without indentation prints no newline. */
  ghost predicate OneLine(json: Json) {
    forall data :: NoNewline(json.stringify(data))
  }

  lemma NewLineIsOneLine(json: Json, line: string)
    requires OneLine(json) && NoNewline(line)
    ensures NoNewline(NewLine(json, line))
  {
  }

  function Printed(lines: seq<string>, tail: string): string {
    if lines == [] then tail else lines[0] + "\n" + Printed(lines[1..], tail)
  }

  lemma {:induction false} FlattenTerminated(lines: seq<string>, tail: string)
    ensures Flatten(Terminated(lines)) + tail == Printed(lines, tail)
  {
    if lines != [] {
      FlattenTerminated(lines[1..], tail);
      assert Terminated(lines)[1..] == Terminated(lines[1..]);
      assert (lines[0] + "\n" + Flatten(Terminated(lines[1..]))) + tail
          == lines[0] + "\n" + (Flatten(Terminated(lines[1..])) + tail);
    }
  }

  lemma {:induction false} PrintedSplit(lines: seq<string>, tail: string)
    requires NoNewline(tail) && forall i :: 0 <= i < |lines| ==> NoNewline(lines[i])
    ensures Split(Printed(lines, tail)) == lines + [tail]
  {
    if lines == [] {
      SplitWhole(tail);
    } else {
      PrintedSplit(lines[1..], tail);
      SplitLine(lines[0], Printed(lines[1..], tail));
      assert lines + [tail] == [lines[0]] + (lines[1..] + [tail]);
    }
  }

  /** A data line with neither nothing nor the end mark behind its prefix. */
  ghost predicate HasPayload(line: string) {
    "data: " <= line && !AllSpace(line[6..]) && !Surrounds(line[6..], "[DONE]")
  }

  /** The payload printed is the one parsed, each of its calls fixed. */
  ghost predicate PrintsFixed(json: Json, after: string, data: Payload) {
    exists fixed: Payload ::
      && after == "data: " + json.stringify(fixed) && fixed.other == data.other
      && data.toolCalls.Some? && fixed.toolCalls.Some? && |fixed.toolCalls.value| == |data.toolCalls.value|
      && forall c :: 0 <= c < |data.toolCalls.value| ==> FixedFrom(fixed.toolCalls.value[c], data.toolCalls.value[c])
  }

  /** Only a line whose payload parses and has tool calls changes. */
  ghost predicate RewrittenFrom(json: Json, after: string, before: string) {
    if HasPayload(before) && json.parse(before[6..]).Some? && json.parse(before[6..]).value.toolCalls.Some?
    then PrintsFixed(json, after, json.parse(before[6..]).value)
    else after == before
  }

  lemma PayloadIsTrimmed(text: string)
    ensures Trim(text) == "" <==> AllSpace(text)
    ensures Trim(text) == "[DONE]" <==> Surrounds(text, "[DONE]")
  {
    TrimIs(text);
    SurroundsNothing(text);
    if AllSpace(text) {
      SpacesTrim(text);
    }
    if Surrounds(text, "[DONE]") {
      SurroundedIsTrim(text, "[DONE]");
    }
  }

  lemma NewLineRewrites(json: Json, line: string)
    ensures RewrittenFrom(json, NewLine(json, line), line)
  {
    if "data: " <= line {
      PayloadIsTrimmed(line[6..]);
      if HasPayload(line) && json.parse(line[6..]).Some? && json.parse(line[6..]).value.toolCalls.Some? {
        var fixed := FixPayload(json.parse(line[6..]).value);
        assert NewLine(json, line) == "data: " + json.stringify(fixed);
      }
    }
  }

  /** Line by line: as many lines as before, each the rewrite of the line in its place, the tail untouched. */
  lemma RewritesLineByLine(json: Json, text: string)
    requires OneLine(json)
    ensures var before, after := Split(text), Split(Rewritten(json, text));
      && |after| == |before|
      && after[|after| - 1] == before[|before| - 1]
      && forall i :: 0 <= i < |before| - 1 ==> RewrittenFrom(json, after[i], before[i])
  {
    var lines := Complete(text);
    SplitCuts(text);
    forall i | 0 <= i < |lines|
      ensures NoNewline(NewLines(json, lines)[i])
      ensures RewrittenFrom(json, NewLines(json, lines)[i], lines[i])
    {
      NewLineIsOneLine(json, lines[i]);
      NewLineRewrites(json, lines[i]);
    }
    FlattenTerminated(NewLines(json, lines), Tail(text));
    PrintedSplit(NewLines(json, lines), Tail(text));
  }
}
