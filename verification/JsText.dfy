/** The parts of JavaScript's string library the models use: trim, split by newline, line starts. */
module JsText {

  /** White space and line terminators, as trim() and \s read them. */
  predicate IsSpace(c: char) {
    c == '\t' || c == '\n' || c == '\U{0B}' || c == '\U{0C}' || c == '\r' || c == ' ' || c == '\U{A0}'
    || c == '\U{1680}' || ('\U{2000}' <= c <= '\U{200A}') || c == '\U{2028}' || c == '\U{2029}'
    || c == '\U{202F}' || c == '\U{205F}' || c == '\U{3000}' || c == '\U{FEFF}'
  }

  function TrimStart(s: string): (t: string)
    ensures t == "" || !IsSpace(t[0])
    ensures |t| <= |s|
  {
    if s != "" && IsSpace(s[0]) then TrimStart(s[1..]) else s
  }

  function TrimEnd(s: string): (t: string)
    ensures t <= s
    ensures t == "" || !IsSpace(t[|t| - 1])
  {
    if s != "" && IsSpace(s[|s| - 1]) then TrimEnd(s[..|s| - 1]) else s
  }

  function Trim(s: string): string {
    TrimEnd(TrimStart(s))
  }

  predicate Trimmed(s: string) {
    s == "" || (!IsSpace(s[0]) && !IsSpace(s[|s| - 1]))
  }

  predicate AllSpace(s: string) {
    forall i :: 0 <= i < |s| ==> IsSpace(s[i])
  }

  /** By their code points. */
  lemma SpaceCodes(c: char)
    ensures IsSpace(c) <==>
              || 9 <= c as int <= 13
              || 8192 <= c as int <= 8202
              || c as int in {32, 160, 5760, 8232, 8233, 8239, 8287, 12288, 65279}
  {
  }

  lemma {:induction false} TrimStartSpaces(ws: string, s: string)
    requires AllSpace(ws) && (s == "" || !IsSpace(s[0]))
    ensures TrimStart(ws + s) == s
  {
    if ws == "" {
      assert ws + s == s;
    } else {
      assert (ws + s)[1..] == ws[1..] + s;
      TrimStartSpaces(ws[1..], s);
    }
  }

  lemma {:induction false} TrimEndSpaces(s: string, ws: string)
    requires AllSpace(ws) && (s == "" || !IsSpace(s[|s| - 1]))
    ensures TrimEnd(s + ws) == s
  {
    if ws == "" {
      assert s + ws == s;
    } else {
      assert (s + ws)[..|s + ws| - 1] == s + ws[..|ws| - 1];
      TrimEndSpaces(s, ws[..|ws| - 1]);
    }
  }

  /** Trimmed text with white space behind it trims back to itself. */
  lemma TrimBehind(s: string, ws: string)
    requires AllSpace(ws) && Trimmed(s)
    ensures Trim(s + ws) == s
  {
    if s == "" {
      assert s + ws == ws + s;
      TrimStartSpaces(ws, s);
    } else {
      assert (s + ws)[0] == s[0];
      TrimEndSpaces(s, ws);
    }
  }

  lemma {:induction false} TrimStartCuts(s: string)
    ensures s[|s| - |TrimStart(s)|..] == TrimStart(s) && AllSpace(s[..|s| - |TrimStart(s)|])
  {
    if s != "" && IsSpace(s[0]) {
      TrimStartCuts(s[1..]);
      var k := |s| - |TrimStart(s)|;
      assert s[1..][k - 1..] == s[k..];
      assert forall i :: 1 <= i < k ==> s[i] == s[1..][..k - 1][i - 1];
    }
  }

  lemma {:induction false} TrimEndCuts(s: string)
    ensures AllSpace(s[|TrimEnd(s)|..])
  {
    if s != "" && IsSpace(s[|s| - 1]) {
      var init, k := s[..|s| - 1], |TrimEnd(s)|;
      TrimEndCuts(init);
      assert forall i :: k <= i < |init| ==> s[i] == init[k..][i - k];
    }
  }

  /** s is the text with nothing but white space around it. */
  ghost predicate Surrounds(s: string, text: string) {
    exists a, b :: 0 <= a <= b <= |s| && s[a..b] == text && AllSpace(s[..a]) && AllSpace(s[b..])
  }

  lemma SliceOfRest(s: string, a: nat, b: nat)
    requires a <= b <= |s|
    ensures s[a..b] == s[a..][..b - a] && s[b..] == s[a..][b - a..]
  {
  }

  /** What trim() leaves has no white space at its ends and is surrounded by nothing else. */
  lemma TrimIs(s: string)
    ensures Surrounds(s, Trim(s)) && Trimmed(Trim(s))
  {
    var t, a := TrimStart(s), |s| - |TrimStart(s)|;
    var b := a + |TrimEnd(t)|;
    TrimStartCuts(s);
    TrimEndCuts(t);
    SliceOfRest(s, a, b);
    assert Trim(s) == t[..b - a];
    assert Surrounds(s, s[a..b]);
  }

  /** Nothing but white space around nothing. */
  lemma SurroundsNothing(s: string)
    ensures Surrounds(s, "") <==> AllSpace(s)
  {
    if AllSpace(s) {
      assert s[0..0] == "" && s[..0] == "" && s[0..] == s;
    }
    if a, b :| 0 <= a <= b <= |s| && s[a..b] == "" && AllSpace(s[..a]) && AllSpace(s[b..]) {
      assert forall i :: 0 <= i < |s| ==> IsSpace(if i < a then s[..a][i] else s[b..][i - b]);
    }
  }

  lemma SpacesTrim(s: string)
    requires AllSpace(s)
    ensures Trim(s) == ""
  {
    TrimStartSpaces(s, "");
    assert s + "" == s;
  }

  lemma MiddleTrims(before: string, text: string, behind: string)
    requires AllSpace(before) && AllSpace(behind) && text != "" && Trimmed(text)
    ensures Trim(before + (text + behind)) == text
  {
    assert (text + behind)[0] == text[0];
    TrimStartSpaces(before, text + behind);
    TrimEndSpaces(text, behind);
  }

  lemma ThreePieces(s: string, a: nat, b: nat)
    requires a <= b <= |s|
    ensures s[..a] + (s[a..b] + s[b..]) == s
  {
    assert s[a..b] + s[b..] == s[a..];
    assert s[..a] + s[a..] == s;
  }

  lemma SurroundedIsTrim(s: string, text: string)
    requires Surrounds(s, text) && Trimmed(text)
    ensures Trim(s) == text
  {
    if text == "" {
      SurroundsNothing(s);
      SpacesTrim(s);
    } else {
      var a, b :| 0 <= a <= b <= |s| && s[a..b] == text && AllSpace(s[..a]) && AllSpace(s[b..]);
      ThreePieces(s, a, b);
      MiddleTrims(s[..a], text, s[b..]);
    }
  }

  /** s.split('\n'): at least one piece; the last is what follows the last newline. */
  function Split(s: string): (pieces: seq<string>)
    ensures pieces != []
  {
    if s == "" then [""] else Cut(Split(s[..|s| - 1]), s[|s| - 1])
  }

  function Cut(pieces: seq<string>, c: char): (more: seq<string>)
    requires pieces != []
    ensures more != []
  {
    if c == '\n' then pieces + [""]
    else pieces[..|pieces| - 1] + [pieces[|pieces| - 1] + [c]]
  }

  lemma CutIsLocal(head: seq<string>, pieces: seq<string>, c: char)
    requires pieces != []
    ensures Cut(head + pieces, c) == head + Cut(pieces, c)
  {
    if c != '\n' {
      assert (head + pieces)[..|head + pieces| - 1] == head + pieces[..|pieces| - 1];
    }
  }

  function Join(pieces: seq<string>): string
    requires pieces != []
  {
    if |pieces| == 1 then pieces[0] else Join(pieces[..|pieces| - 1]) + "\n" + pieces[|pieces| - 1]
  }

  predicate NoNewline(s: string) {
    forall i :: 0 <= i < |s| ==> s[i] != '\n'
  }

  /** split cuts at every newline and nowhere else. */
  lemma {:induction false} SplitCuts(s: string)
    ensures Join(Split(s)) == s
    ensures forall i :: 0 <= i < |Split(s)| ==> NoNewline(Split(s)[i])
  {
    if s != "" {
      SplitCuts(s[..|s| - 1]);
      CutJoins(Split(s[..|s| - 1]), s[|s| - 1]);
      CutKeepsLines(Split(s[..|s| - 1]), s[|s| - 1]);
      assert s == s[..|s| - 1] + [s[|s| - 1]];
    }
  }

  lemma CutJoins(pieces: seq<string>, c: char)
    requires pieces != []
    ensures Join(Cut(pieces, c)) == Join(pieces) + [c]
  {
    var more := Cut(pieces, c);
    assert more[..|more| - 1] == if c == '\n' then pieces else pieces[..|pieces| - 1];
  }

  lemma CutKeepsLines(pieces: seq<string>, c: char)
    requires pieces != [] && forall i :: 0 <= i < |pieces| ==> NoNewline(pieces[i])
    ensures forall i :: 0 <= i < |Cut(pieces, c)| ==> NoNewline(Cut(pieces, c)[i])
  {
    var last := pieces[|pieces| - 1];
    assert c != '\n' ==> NoNewline(last + [c]);
  }

  /** s extends init by c. */
  lemma SplitSnoc(s: string, init: string, c: char)
    requires s != "" && s[..|s| - 1] == init && s[|s| - 1] == c
    ensures Split(s) == Cut(Split(init), c)
  {
  }

  lemma LastOfSum(x: string, y: string)
    requires y != ""
    ensures (x + y)[..|x + y| - 1] == x + y[..|y| - 1] && (x + y)[|x + y| - 1] == y[|y| - 1]
  {
  }

  lemma CutBehind(head: seq<string>, whole: seq<string>, part: seq<string>, c: char)
    requires part != [] && whole == head + part
    ensures Cut(whole, c) == head + Cut(part, c)
  {
    CutIsLocal(head, part, c);
  }

  /** Text appended after a cut only continues the last piece. */
  lemma {:induction false} SplitAppend(x: string, y: string)
    ensures var p := Split(x); Split(x + y) == p[..|p| - 1] + Split(p[|p| - 1] + y)
    decreases |y|
  {
    var head, last := Split(x)[..|Split(x)| - 1], Split(x)[|Split(x)| - 1];
    if y == "" {
      assert x + y == x && last + y == last;
      SplitCuts(x);
      SplitWhole(last);
    } else {
      var z, c := y[..|y| - 1], y[|y| - 1];
      SplitAppend(x, z);
      LastOfSum(x, y);
      LastOfSum(last, y);
      SplitSnoc(x + y, x + z, c);
      SplitSnoc(last + y, last + z, c);
      CutBehind(head, Split(x + z), Split(last + z), c);
    }
  }

  lemma {:induction false} SplitWhole(s: string)
    requires NoNewline(s)
    ensures Split(s) == [s]
  {
    if s != "" {
      var init, c := s[..|s| - 1], s[|s| - 1];
      SplitWhole(init);
      CutOnePiece(init, c);
      assert s == init + [c];
    }
  }

  lemma CutOnePiece(piece: string, c: char)
    requires c != '\n'
    ensures Cut([piece], c) == [piece + [c]]
  {
    assert [piece][..0] == [];
  }

  /** A line and its newline, then more text. */
  lemma SplitLine(line: string, rest: string)
    requires NoNewline(line)
    ensures Split(line + "\n" + rest) == [line] + Split(rest)
  {
    SplitWhole(line);
    assert (line + "\n")[..|line|] == line;
    assert Split(line + "\n") == [line, ""];
    SplitAppend(line + "\n", rest);
    assert "" + rest == rest;
  }
}
