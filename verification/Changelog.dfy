/** CHANGELOG.md as text: built from a header, a pending block and released sections, and read back. */
module Changelog {
  import opened Basics
  import opened JsText

  /** The fixed texts of a changelog. */
  datatype Layout = Layout(header: string, start: string, end: string)

  const SECTION := "## ["

  predicate At(s: string, pat: string, i: int) {
    0 <= i && i + |pat| <= |s| && forall m :: 0 <= m < |pat| ==> s[i + m] == pat[m]
  }

  predicate IsLineTerminator(c: char) {
    c == '\n' || c == '\r' || c == '\U{2028}' || c == '\U{2029}'
  }

  /** A match of /^## \[/m. */
  predicate SectionAt(s: string, i: int) {
    At(s, SECTION, i) && (i == 0 || IsLineTerminator(s[i - 1]))
  }

  function FindFrom(s: string, pat: string, from: nat): (found: Option<nat>)
    requires from <= |s|
    ensures found.Some? ==> from <= found.value && found.value + |pat| <= |s|
    decreases |s| - from
  {
    if At(s, pat, from) then Some(from) else if from == |s| then None else FindFrom(s, pat, from + 1)
  }

  function FindSection(s: string, from: nat): (found: Option<nat>)
    requires from <= |s|
    ensures found.Some? ==> from <= found.value <= |s|
    decreases |s| - from
  {
    if SectionAt(s, from) then Some(from) else if from == |s| then None else FindSection(s, from + 1)
  }

  // ---- the string functions of the script ----

  datatype Span = Span(from: nat, to: nat)

  /** The lazy pattern start[\s\S]*?end: from the first start to the first end behind it. */
  function Block(l: Layout, content: string): (span: Option<Span>)
    ensures span.Some? ==> span.value.from <= span.value.to <= |content|
  {
    match FindFrom(content, l.start, 0)
    case None => None
    case Some(i) =>
      match FindFrom(content, l.end, i + |l.start|)
      case None => None
      case Some(j) => Some(Span(i, j + |l.end|))
  }

  /** The text without that span and the white space behind it. */
  function WithoutBlock(l: Layout, content: string): string {
    match Block(l, content)
    case None => content
    case Some(span) => Excise(content, span)
  }

  function Excise(s: string, span: Span): string
    requires span.from <= span.to <= |s|
  {
    s[..span.from] + TrimStart(s[span.to..])
  }

  function RemovePendingBlock(l: Layout, content: string): string {
    Trim(WithoutBlock(l, content))
  }

  /** From the first section heading on. */
  function SectionsIn(text: string): string {
    match FindSection(text, 0)
    case None => ""
    case Some(i) => Trim(text[i..])
  }

  function ExtractHistoricalSections(l: Layout, changelog: string): string {
    SectionsIn(RemovePendingBlock(l, changelog))
  }

  /** body is everything renderPendingSection prints between its markers. */
  function PendingSection(l: Layout, body: string): string {
    l.start + "\n" + body + "\n" + l.end
  }

  function JoinParts(parts: seq<string>): string {
    if parts == [] then "" else if |parts| == 1 then parts[0]
    else parts[0] + "\n\n" + JoinParts(parts[1..])
  }

  function NonEmpty(part: string): seq<string> {
    if part == "" then [] else [part]
  }

  function BuildFullChangelog(l: Layout, pending: Option<string>, history: string): string {
    var parts := NonEmpty(l.header)
                 + (if pending.Some? then NonEmpty(PendingSection(l, pending.value)) else [])
                 + (if history != "" then NonEmpty(Trim(history)) else []);
    Trim(JoinParts(parts)) + "\n"
  }

  // ---- what layouts and histories look like ----

  predicate Free(s: string, c: char) {
    forall i :: 0 <= i < |s| ==> s[i] != c
  }

  predicate IsMarker(m: string) {
    m != "" && m[0] == '<' && !IsSpace(m[|m| - 1]) && NoNewline(m)
  }

  predicate GoodLayout(l: Layout) {
    l.header != "" && Trimmed(l.header) && Free(l.header, '<') && Free(l.header, '[')
    && IsMarker(l.start) && IsMarker(l.end)
  }

  /** Released sections: none, or trimmed text that starts with a section heading. */
  predicate IsHistory(h: string) {
    h == "" || (Trimmed(h) && SECTION <= h)
  }

  /** The text holds a start marker with an end marker somewhere behind it. */
  ghost predicate HasBlock(l: Layout, s: string) {
    exists i, j :: At(s, l.start, i) && At(s, l.end, j) && i + |l.start| <= j
  }

  /** The search finds the first match. */
  lemma {:induction false} FindsFirst(s: string, pat: string, from: nat)
    requires from <= |s|
    ensures match FindFrom(s, pat, from)
            case None => forall k :: from <= k ==> !At(s, pat, k)
            case Some(i) => At(s, pat, i) && forall k :: from <= k < i ==> !At(s, pat, k)
    decreases |s| - from
  {
    if !At(s, pat, from) && from < |s| {
      FindsFirst(s, pat, from + 1);
    }
  }

  lemma Found(s: string, pat: string, from: nat, i: nat)
    requires from <= i && At(s, pat, i) && forall k :: from <= k < i ==> !At(s, pat, k)
    ensures FindFrom(s, pat, from) == Some(i)
  {
    FindsFirst(s, pat, from);
  }

  lemma {:induction false} FindsFirstSection(s: string, from: nat)
    requires from <= |s|
    ensures match FindSection(s, from)
            case None => forall k :: from <= k ==> !SectionAt(s, k)
            case Some(i) => SectionAt(s, i) && forall k :: from <= k < i ==> !SectionAt(s, k)
    decreases |s| - from
  {
    if !SectionAt(s, from) && from < |s| {
      FindsFirstSection(s, from + 1);
    }
  }

  // ---- text after the header ----

  /** header, blank line, rest: nothing of interest before the rest. */
  function Page(l: Layout, rest: string): string {
    l.header + "\n\n" + rest
  }

  lemma PageAt(l: Layout, rest: string, i: nat)
    requires i <= |rest|
    ensures Page(l, rest)[|l.header| + 2 + i..] == rest[i..]
    ensures Page(l, rest)[..|l.header| + 2] == l.header + "\n\n"
  {
    assert Page(l, rest)[|l.header| + 2..] == rest;
  }

  /** A marker on a page is a marker behind its header. */
  lemma MarkerBehindHeader(l: Layout, rest: string, m: string, k: int)
    requires GoodLayout(l) && IsMarker(m)
    ensures At(Page(l, rest), m, k) <==> At(rest, m, k - |l.header| - 2)
  {
    MarkerStarts(Page(l, rest), m, k);
    NoAngleInHeader(l, rest);
    if k >= |l.header| + 2 {
      AtBehind(l.header + "\n\n", rest, m, k - |l.header| - 2);
    }
  }

  lemma NoAngleInHeader(l: Layout, rest: string)
    requires GoodLayout(l)
    ensures forall i :: 0 <= i < |l.header| + 2 ==> Page(l, rest)[i] != '<'
  {
  }

  /** A match behind some text is a match there. */
  lemma AtBehind(before: string, rest: string, m: string, i: nat)
    ensures At(before + rest, m, |before| + i) <==> At(rest, m, i)
  {
    var s, n := before + rest, |before|;
    assert forall j :: 0 <= j < |rest| ==> s[n + j] == rest[j];
    if At(s, m, n + i) {
      assert forall j :: 0 <= j < |m| ==> rest[i + j] == m[j];
    }
    if At(rest, m, i) {
      assert forall j :: 0 <= j < |m| ==> s[n + i + j] == m[j];
    }
  }

  lemma SectionChars(s: string, k: int)
    requires At(s, SECTION, k)
    ensures s[k] == '#' && s[k + 1] == '#' && s[k + 2] == ' ' && s[k + 3] == '['
  {
    assert SECTION[0] == '#' && SECTION[1] == '#' && SECTION[2] == ' ' && SECTION[3] == '[';
    assert s[k + 0] == '#';
  }

  /** A section heading on a page starts behind its header. */
  lemma SectionBehindHeader(l: Layout, rest: string, k: int)
    requires GoodLayout(l)
    ensures SectionAt(Page(l, rest), k) <==> SectionAt(rest, k - |l.header| - 2)
  {
    var page, n := Page(l, rest), |l.header| + 2;
    assert page[n - 2] == '\n' && page[n - 1] == '\n';
    assert forall i :: 0 <= i < |rest| ==> page[n + i] == rest[i];
    assert forall i :: 0 <= i < n ==> page[i] != '[';
    if At(page, SECTION, k) {
      SectionChars(page, k);
      assert k >= n;
      assert forall i :: 0 <= i < |SECTION| ==> rest[k - n + i] == SECTION[i];
    }
    if At(rest, SECTION, k - n) {
      assert forall i :: 0 <= i < |SECTION| ==> page[k + i] == SECTION[i];
    }
    assert k > n && k - n <= |rest| ==> page[k - 1] == rest[k - n - 1];
  }

  lemma NoSectionWithoutBracket(s: string, k: int)
    requires Free(s, '[')
    ensures !SectionAt(s, k)
  {
    if At(s, SECTION, k) {
      SectionChars(s, k);
    }
  }

  lemma ReadsFrom(text: string, i: nat, tail: string)
    requires SectionAt(text, i) && text[i..] == tail
    requires forall k :: 0 <= k < i ==> !SectionAt(text, k)
    ensures SectionsIn(text) == Trim(tail)
  {
    FindsFirstSection(text, 0);
  }

  lemma ReadsNothing(text: string)
    requires forall k :: 0 <= k ==> !SectionAt(text, k)
    ensures FindSection(text, 0) == None && SectionsIn(text) == ""
  {
    FindsFirstSection(text, 0);
  }

  lemma NoSectionInHeader(l: Layout)
    requires GoodLayout(l)
    ensures SectionsIn(l.header) == ""
  {
    forall k ensures !SectionAt(l.header, k) {
      NoSectionWithoutBracket(l.header, k);
    }
    ReadsNothing(l.header);
  }

  /** The sections read from a page are those of its rest, seen from a line start. */
  lemma SectionsOfPage(l: Layout, rest: string)
    requires GoodLayout(l)
    ensures SectionsIn(Page(l, rest)) == SectionsIn(rest)
  {
    forall k ensures SectionAt(Page(l, rest), k) <==> SectionAt(rest, k - (|l.header| + 2)) {
      SectionBehindHeader(l, rest, k);
    }
    FindsFirstSection(rest, 0);
    match FindSection(rest, 0) {
      case Some(i) =>
        PageAt(l, rest, i);
        ReadsFrom(Page(l, rest), |l.header| + 2 + i, rest[i..]);
      case None => ReadsNothing(Page(l, rest));
    }
  }

  /** The header alone, or a page. */
  function HeaderThen(l: Layout, rest: string): string {
    if rest == "" then l.header else Page(l, rest)
  }

  lemma ReadsBehindHeader(l: Layout, rest: string)
    requires GoodLayout(l)
    ensures SectionsIn(HeaderThen(l, rest)) == SectionsIn(rest)
  {
    SectionsOfPage(l, rest);
    NoSectionInHeader(l);
    ReadsNothing("");
  }

  lemma TrimPage(l: Layout, rest: string)
    requires GoodLayout(l) && Trimmed(rest)
    ensures Trim(Page(l, rest)) == HeaderThen(l, rest)
    ensures Trim(Page(l, rest) + "\n") == Trim(Page(l, rest))
  {
    var page := Page(l, rest);
    if rest == "" {
      assert page == l.header + "\n\n" && page + "\n" == l.header + "\n\n\n";
      TrimBehind(l.header, "\n\n");
      TrimBehind(l.header, "\n\n\n");
    } else {
      assert page[0] == l.header[0] && page[|page| - 1] == rest[|rest| - 1];
      assert page + "" == page;
      TrimBehind(page, "");
      TrimBehind(page, "\n");
    }
  }

  lemma HistoryReadsItself(history: string)
    requires IsHistory(history)
    ensures SectionsIn(history) == history
  {
    assert history + "" == history && history[0..] == history;
    TrimBehind(history, "");
    if history == "" { ReadsNothing(""); } else { ReadsFrom(history, 0, history); }
  }

  // ---- round trip without a pending block ----

  lemma BuildWithout(l: Layout, history: string)
    requires GoodLayout(l) && IsHistory(history)
    ensures BuildFullChangelog(l, None, history) ==
            HeaderThen(l, history) + "\n"
  {
    assert history + "" == history && l.header + "" == l.header;
    TrimBehind(history, "");
    TrimBehind(l.header, "");
    TrimPage(l, history);
    TwoParts(l.header, history);
  }

  lemma TwoParts(header: string, history: string)
    requires header != "" && Trim(history) == history
    ensures JoinParts(NonEmpty(header) + [] + (if history != "" then NonEmpty(Trim(history)) else []))
            == if history == "" then header else header + "\n\n" + history
  {
    if history != "" {
      JoinTwo(header, history);
      assert [header] + [] + [history] == [header, history];
    } else {
      assert [header] + [] + [] == [header];
    }
  }

  lemma MarkerBeforeNewline(m: string, s: string, i: int)
    requires IsMarker(m)
    ensures At(s + "\n", m, i) <==> At(s, m, i)
  {
    var longer := s + "\n";
    assert longer[|s|] == '\n' && IsSpace('\n');
    if At(longer, m, i) {
      var k := |m| - 1;
      assert longer[i + k] == m[k];
      assert forall j :: 0 <= j < |m| ==> s[i + j] == m[j];
    }
    if At(s, m, i) {
      assert forall j :: 0 <= j < |m| ==> longer[i + j] == m[j];
    }
  }

  /** Markers on the written page are those of the history. */
  lemma MarkerOnPage(l: Layout, history: string, m: string, k: int)
    requires GoodLayout(l) && IsMarker(m)
    ensures At(Page(l, history) + "\n", m, k) <==> At(history, m, k - |l.header| - 2)
  {
    assert Page(l, history + "\n") == Page(l, history) + "\n";
    MarkerBeforeNewline(m, history, k - |l.header| - 2);
    MarkerBehindHeader(l, history + "\n", m, k);
  }

  lemma BlockOfPage(l: Layout, history: string)
    requires GoodLayout(l)
    ensures HasBlock(l, Page(l, history) + "\n") <==> HasBlock(l, history)
  {
    var page, n := Page(l, history) + "\n", |l.header| + 2;
    if i, j :| At(page, l.start, i) && At(page, l.end, j) && i + |l.start| <= j {
      MarkerOnPage(l, history, l.start, i);
      MarkerOnPage(l, history, l.end, j);
    }
    if i, j :| At(history, l.start, i) && At(history, l.end, j) && i + |l.start| <= j {
      MarkerOnPage(l, history, l.start, n + i);
      MarkerOnPage(l, history, l.end, n + j);
    }
  }

  lemma NoBlockNothingRemoved(l: Layout, s: string)
    requires !HasBlock(l, s)
    ensures WithoutBlock(l, s) == s
  {
    FindsFirst(s, l.start, 0);
    var i := FindFrom(s, l.start, 0);
    if i.Some? {
      FindsFirst(s, l.end, i.value + |l.start|);
    }
  }

  lemma BlockSpans(l: Layout, s: string, i: nat, j: nat)
    requires i + |l.start| <= |s|
    requires FindFrom(s, l.start, 0) == Some(i) && FindFrom(s, l.end, i + |l.start|) == Some(j)
    ensures Block(l, s) == Some(Span(i, j + |l.end|))
  {
  }

  /** A block makes the text shorter by at least its markers, and starts no earlier than the first start. */
  lemma BlockShortens(l: Layout, s: string)
    requires HasBlock(l, s)
    ensures |WithoutBlock(l, s)| <= |s| - |l.start| - |l.end|
    ensures exists i :: At(s, l.start, i) && s[..i] <= WithoutBlock(l, s)
  {
    var a, b :| At(s, l.start, a) && At(s, l.end, b) && a + |l.start| <= b;
    FindsFirst(s, l.start, 0);
    var i := FindFrom(s, l.start, 0).value;
    FindsFirst(s, l.end, i + |l.start|);
    var j := FindFrom(s, l.end, i + |l.start|).value;
    BlockSpans(l, s, i, j);
    assert WithoutBlock(l, s) == s[..i] + TrimStart(s[j + |l.end|..]);
    assert At(s, l.start, i) && s[..i] <= WithoutBlock(l, s);
  }

  /**
   * Without a pending block, released sections read back unchanged exactly when they hold
   * no start marker followed by an end marker.
   */
  lemma RoundTripWithout(l: Layout, history: string)
    requires GoodLayout(l) && IsHistory(history)
    ensures ExtractHistoricalSections(l, BuildFullChangelog(l, None, history)) == history <==> !HasBlock(l, history)
  {
    BuildWithout(l, history);
    var text := HeaderThen(l, history);
    BlockOfPage(l, history);
    if !HasBlock(l, history) {
      if history == "" { HeaderHasNoBlock(l); }
      NoBlockNothingRemoved(l, text + "\n");
      TrimPage(l, history);
      TrimBehind(l.header, "\n");
      assert Trim(text + "\n") == text;
      ReadsBehindHeader(l, history);
      HistoryReadsItself(history);
    } else {
      BlockShortens(l, text + "\n");
      ShortenedHistory(l, history);
    }
  }

  /** What stands inside a marker found in a text. */
  lemma MarkerChars(s: string, m: string, k: int, i: nat)
    requires IsMarker(m) && At(s, m, k) && i < |m|
    ensures s[k + i] == m[i] && s[k + i] != '\n'
  {
    assert s[k + i] == m[i];
  }

  lemma MarkerStarts(s: string, m: string, k: int)
    requires IsMarker(m)
    ensures At(s, m, k) ==> 0 <= k < |s| && s[k] == '<'
  {
    assert At(s, m, k) ==> s[k + 0] == m[0];
  }

  lemma HeaderHasNoBlock(l: Layout)
    requires GoodLayout(l)
    ensures !HasBlock(l, l.header + "\n")
  {
    forall i ensures !At(l.header + "\n", l.start, i) {
      MarkerStarts(l.header + "\n", l.start, i);
    }
  }

  lemma SectionOfPrefix(t: string, s: string, k: int)
    requires t <= s && SectionAt(t, k)
    ensures SectionAt(s, k)
  {
    assert forall i :: 0 <= i < |SECTION| ==> s[k + i] == SECTION[i];
  }

  lemma TrimShortens(s: string)
    ensures |Trim(s)| <= |s|
    ensures s != "" && !IsSpace(s[0]) ==> Trim(s) <= s
  {
  }

  lemma ExtractIsShort(l: Layout, rest: string, text: string)
    requires GoodLayout(l) && text <= Page(l, rest)
    ensures |SectionsIn(text)| <= |rest|
  {
    var found := FindSection(text, 0);
    FindsFirstSection(text, 0);
    if found.Some? {
      SectionOfPrefix(text, Page(l, rest), found.value);
      SectionBehindHeader(l, rest, found.value);
      TrimShortens(text[found.value..]);
    }
  }

  lemma StillAPage(l: Layout, rest: string, i: nat, w: string)
    requires |l.header| + 2 <= i <= |Page(l, rest)| && Page(l, rest)[..i] <= w
    ensures |l.header| + 2 <= |w| && w == Page(l, w[|l.header| + 2..])
  {
    var n := |l.header| + 2;
    assert w[..n] == Page(l, rest)[..n] == l.header + "\n\n";
    assert w == w[..n] + w[n..];
  }

  lemma ShortenedHistory(l: Layout, history: string)
    requires GoodLayout(l) && HasBlock(l, history)
    ensures |ExtractHistoricalSections(l, Page(l, history) + "\n")| < |history|
  {
    var rest, n := history + "\n", |l.header| + 2;
    var page := Page(l, rest);
    assert page == Page(l, history) + "\n";
    BlockOfPage(l, history);
    BlockShortens(l, page);
    var without := WithoutBlock(l, page);
    var i :| At(page, l.start, i) && page[..i] <= without;
    MarkerBehindHeader(l, rest, l.start, i);
    StillAPage(l, rest, i, without);
    TrimmedPageIsShort(l, without[n..]);
  }

  lemma TrimmedPageIsShort(l: Layout, rest: string)
    requires GoodLayout(l)
    ensures |SectionsIn(Trim(Page(l, rest)))| <= |rest|
  {
    assert Page(l, rest)[0] == l.header[0];
    TrimShortens(Page(l, rest));
    ExtractIsShort(l, rest, Trim(Page(l, rest)));
  }

  // ---- round trip with a pending block ----

  /** The part of a page behind its header: the block, and the history if there is one. */
  function Rest(l: Layout, body: string, history: string): string {
    PendingSection(l, body) + Behind(history)
  }

  function Behind(history: string): string {
    if history == "" then "" else "\n\n" + history
  }

  lemma RestTrimmed(l: Layout, body: string, history: string)
    requires GoodLayout(l) && IsHistory(history)
    ensures Trimmed(Rest(l, body, history)) && Rest(l, body, history) != ""
    ensures PendingSection(l, body) != ""
  {
    var rest := Rest(l, body, history);
    assert rest[0] == l.start[0] == '<';
    assert rest[|rest| - 1] == if history == "" then l.end[|l.end| - 1] else history[|history| - 1];
  }

  lemma BuildWith(l: Layout, body: string, history: string)
    requires GoodLayout(l) && IsHistory(history)
    ensures BuildFullChangelog(l, Some(body), history) == Page(l, Rest(l, body, history)) + "\n"
  {
    var section := PendingSection(l, body);
    RestTrimmed(l, body, history);
    assert history + "" == history;
    TrimBehind(history, "");
    TrimPage(l, Rest(l, body, history));
    PartsJoined(l.header, section, history);
  }

  /** The changelog is the header, the pending block between its markers if there is one, and the history. */
  lemma BuiltText(l: Layout, pending: Option<string>, history: string)
    requires GoodLayout(l) && IsHistory(history)
    ensures var block := if pending.Some? then "\n\n" + l.start + "\n" + pending.value + "\n" + l.end else "";
      var released := if history == "" then "" else "\n\n" + history;
      BuildFullChangelog(l, pending, history) == l.header + block + released + "\n"
  {
    match pending {
      case None => BuildWithout(l, history);
      case Some(body) =>
        BuildWith(l, body, history);
        BlockBehindHeader(l, body, Behind(history));
    }
  }

  lemma BlockBehindHeader(l: Layout, body: string, behind: string)
    ensures Page(l, PendingSection(l, body) + behind) ==
              l.header + ("\n\n" + l.start + "\n" + body + "\n" + l.end) + behind
  {
  }

  lemma PartsJoined(header: string, section: string, history: string)
    requires header != "" && section != "" && Trim(history) == history
    ensures JoinParts(NonEmpty(header) + NonEmpty(section) + (if history != "" then NonEmpty(Trim(history)) else []))
            == header + "\n\n" + (section + Behind(history))
  {
    JoinTwo(header, section);
    JoinThree(header, section, history);
    if history == "" {
      assert [header] + [section] + [] == [header, section];
      assert section + Behind(history) == section;
    } else {
      assert [header] + [section] + [history] == [header, section, history];
      assert section + "\n\n" + history == section + Behind(history);
    }
  }

  lemma JoinTwo(a: string, b: string)
    ensures JoinParts([a, b]) == a + "\n\n" + b
  {
    assert [a, b][1..] == [b];
  }

  lemma JoinThree(a: string, b: string, c: string)
    ensures JoinParts([a, b, c]) == a + "\n\n" + (b + "\n\n" + c)
  {
    assert [a, b, c][1..] == [b, c];
    JoinTwo(b, c);
  }

  lemma NewlineOutside(s: string, m: string, k: int, q: nat)
    requires IsMarker(m) && At(s, m, k) && q < |s| && s[q] == '\n'
    ensures q < k || q >= k + |m|
  {
    if k <= q < k + |m| {
      MarkerChars(s, m, k, q - k);
    }
  }

  lemma InsidePart(s: string, part: string, a: nat, m: string, k: int)
    requires a + |part| <= |s| && s[a..a + |part|] == part
    requires a <= k && k + |m| <= a + |part| && At(s, m, k)
    ensures At(part, m, k - a)
  {
    assert forall i :: 0 <= i < |part| ==> part[i] == s[a + i];
    assert forall i :: 0 <= i < |m| ==> part[k - a + i] == m[i];
  }

  /** An end marker between the start marker and the block's own end lies in the body. */
  lemma EndInsideBody(l: Layout, body: string, behind: string, k: int)
    requires GoodLayout(l) && |l.start| <= k < |l.start| + |body| + 2
    requires At(PendingSection(l, body) + behind, l.end, k)
    ensures At(body, l.end, k - |l.start| - 1)
  {
    var s, a := PendingSection(l, body) + behind, |l.start| + 1;
    assert s[a - 1] == '\n' && s[a + |body|] == '\n' && s[a..a + |body|] == body;
    NewlineOutside(s, l.end, k, a - 1);
    NewlineOutside(s, l.end, k, a + |body|);
    InsidePart(s, body, a, l.end, k);
  }

  /** Where the search for the end of the block stops: at the body's first end marker, else at the block's own. */
  function BlockEnd(l: Layout, body: string): nat {
    |l.start| + 1 + match FindFrom(body, l.end, 0) { case Some(k) => k case None => |body| + 1 }
  }

  /** What the block leaves behind: nothing, or the text behind a stray end marker and the block's own end. */
  function Leftover(l: Layout, body: string): string {
    match FindFrom(body, l.end, 0)
    case None => ""
    case Some(k) => body[k + |l.end|..] + "\n" + l.end
  }

  lemma AtInside(before: string, m: string, behind: string)
    ensures At(before + m + behind, m, |before|)
    ensures (before + m + behind)[|before| + |m|..] == behind
  {
    var s := before + m + behind;
    assert forall i :: 0 <= i < |m| ==> s[|before| + i] == m[i];
  }

  /** start + nl + inner + nl + end + behind, cut at the first end: behind a stray one inside, or behind the own one. */
  lemma OwnEnd(start: string, nl: string, body: string, end: string, behind: string, e: nat)
    requires e == |start| + |nl| + |body| + |nl|
    ensures var s := start + nl + body + nl + end + behind;
      At(s, end, e) && s[e + |end|..] == "" + behind
  {
    AtInside(start + nl + body + nl, end, behind);
    assert "" + behind == behind;
  }

  lemma StrayEnd(start: string, nl: string, body: string, end: string, behind: string, k: nat, e: nat)
    requires At(body, end, k) && e == |start| + |nl| + k
    ensures var s := start + nl + body + nl + end + behind;
      At(s, end, e) && s[e + |end|..] == body[k + |end|..] + nl + end + behind
  {
    var a, b := start + nl, nl + end + behind;
    assert start + nl + body + nl + end + behind == a + body + b;
    StrayBetween(a, body, end, b, k);
    assert body[k + |end|..] + b == body[k + |end|..] + nl + end + behind;
  }

  lemma StrayBetween(a: string, body: string, end: string, b: string, k: nat)
    requires At(body, end, k)
    ensures At(a + body + b, end, |a| + k) && (a + body + b)[|a| + k + |end|..] == body[k + |end|..] + b
  {
    var s := a + body + b;
    assert forall i :: 0 <= i < |end| ==> s[|a| + k + i] == end[i];
  }

  lemma EndMarksInBlock(l: Layout, body: string, behind: string)
    requires GoodLayout(l)
    ensures var s := PendingSection(l, body) + behind;
      At(s, l.end, BlockEnd(l, body)) && s[BlockEnd(l, body) + |l.end|..] == Leftover(l, body) + behind
  {
    match FindFrom(body, l.end, 0) {
      case None =>
        OwnEnd(l.start, "\n", body, l.end, behind, BlockEnd(l, body));
      case Some(k) =>
        FindsFirst(body, l.end, 0);
        StrayEnd(l.start, "\n", body, l.end, behind, k, BlockEnd(l, body));
    }
  }

  lemma StartMarksBlock(l: Layout, body: string, behind: string)
    ensures At(PendingSection(l, body) + behind, l.start, 0)
  {
    var s := PendingSection(l, body) + behind;
    assert forall i :: 0 <= i < |l.start| ==> s[i] == l.start[i];
  }

  /** The first end marker behind the start is the body's first, or else the block's own. */
  lemma FirstEnd(l: Layout, body: string, behind: string)
    requires GoodLayout(l)
    ensures var s := PendingSection(l, body) + behind;
      FindFrom(s, l.start, 0) == Some(0) && FindFrom(s, l.end, |l.start|) == Some(BlockEnd(l, body))
  {
    var s, e := PendingSection(l, body) + behind, BlockEnd(l, body);
    EndMarksInBlock(l, body, behind);
    StartMarksBlock(l, body, behind);
    FindsFirst(body, l.end, 0);
    forall k | |l.start| <= k < e ensures !At(s, l.end, k) {
      if At(s, l.end, k) {
        EndInsideBody(l, body, behind, k);
      }
    }
    Found(s, l.start, 0, 0);
    Found(s, l.end, |l.start|, e);
  }

  /** A marker found behind the header is found there on the page. */
  lemma FoundOnPage(l: Layout, rest: string, m: string, from: nat, i: nat, pageFrom: nat, pageAt: nat)
    requires GoodLayout(l) && IsMarker(m) && from <= |rest| && FindFrom(rest, m, from) == Some(i)
    requires pageFrom == |l.header| + 2 + from || (pageFrom == from == 0)
    requires pageAt == |l.header| + 2 + i
    ensures FindFrom(Page(l, rest), m, pageFrom) == Some(pageAt)
  {
    forall k ensures At(Page(l, rest), m, k) <==> At(rest, m, k - (|l.header| + 2)) {
      MarkerBehindHeader(l, rest, m, k);
    }
    FindsFirst(rest, m, from);
    Found(Page(l, rest), m, pageFrom, pageAt);
  }

  lemma BlockOnPage(l: Layout, rest: string, j: nat)
    requires GoodLayout(l) && |l.start| <= |rest|
    requires FindFrom(rest, l.start, 0) == Some(0) && FindFrom(rest, l.end, |l.start|) == Some(j)
    ensures Block(l, Page(l, rest)) == Some(Span(|l.header| + 2, |l.header| + 2 + (j + |l.end|)))
  {
    var n := |l.header| + 2;
    StartOnPage(l, rest);
    FoundOnPage(l, rest, l.end, |l.start|, j, n + |l.start|, n + j);
    BlockSpans(l, Page(l, rest), n, n + j);
  }

  lemma StartOnPage(l: Layout, rest: string)
    requires GoodLayout(l) && FindFrom(rest, l.start, 0) == Some(0)
    ensures FindFrom(Page(l, rest), l.start, 0) == Some(|l.header| + 2)
  {
    FoundOnPage(l, rest, l.start, 0, 0, 0, |l.header| + 2);
  }

  lemma ExcisePage(l: Layout, rest: string, k: nat, behind: string)
    requires k <= |rest| && rest[k..] == behind
    requires Block(l, Page(l, rest)) == Some(Span(|l.header| + 2, |l.header| + 2 + k))
    ensures WithoutBlock(l, Page(l, rest)) == Page(l, TrimStart(behind))
  {
    var page, n := Page(l, rest), |l.header| + 2;
    PageAt(l, rest, k);
    assert page[..n] == l.header + "\n\n" && page[n + k..] == behind;
    ExciseParts(page, n, n + k, l.header + "\n\n", behind);
  }

  lemma ExciseParts(s: string, i: nat, j: nat, before: string, behind: string)
    requires i <= j <= |s| && s[..i] == before && s[j..] == behind
    ensures Excise(s, Span(i, j)) == before + TrimStart(behind)
  {
  }

  /** Cutting the block out of a page whose rest starts with it. */
  lemma CutFromPage(l: Layout, rest: string, j: nat, behind: string)
    requires GoodLayout(l) && |l.start| <= |rest|
    requires FindFrom(rest, l.start, 0) == Some(0) && FindFrom(rest, l.end, |l.start|) == Some(j)
    requires rest[j + |l.end|..] == behind
    ensures WithoutBlock(l, Page(l, rest)) == Page(l, TrimStart(behind))
  {
    BlockOnPage(l, rest, j);
    ExcisePage(l, rest, j + |l.end|, behind);
  }

  lemma CutBlock(l: Layout, body: string, behind: string)
    requires GoodLayout(l)
    ensures WithoutBlock(l, Page(l, PendingSection(l, body) + behind)) == Page(l, TrimStart(Leftover(l, body) + behind))
  {
    var rest := PendingSection(l, body) + behind;
    FirstEnd(l, body, behind);
    EndMarksInBlock(l, body, behind);
    CutFromPage(l, rest, BlockEnd(l, body), Leftover(l, body) + behind);
  }

  /** What is left of the page behind its header once the block is cut and the text trimmed. */
  function Remains(l: Layout, body: string, history: string): string {
    TrimStart(Leftover(l, body) + Behind(history))
  }

  lemma RemainsTrimmed(l: Layout, body: string, history: string)
    requires GoodLayout(l) && IsHistory(history)
    ensures Trimmed(Remains(l, body, history))
    ensures Remains(l, body, history) != "" ==>
      TrimStart(Leftover(l, body) + Behind(history) + "\n") == Remains(l, body, history) + "\n"
    ensures Remains(l, body, history) == "" ==> TrimStart(Leftover(l, body) + Behind(history) + "\n") == ""
  {
    var text := Leftover(l, body) + Behind(history);
    assert text == "" || !IsSpace(text[|text| - 1]);
    TrimStartKeepsEnd(text);
    TrimStartSpaces("\n", "");
    assert "\n" + "" == "\n" && "" + "\n" == "\n";
  }

  lemma {:induction false} TrimStartKeepsEnd(s: string)
    requires s == "" || !IsSpace(s[|s| - 1])
    ensures Trimmed(TrimStart(s)) && (s != "" ==> TrimStart(s) != "")
    ensures s != "" ==> TrimStart(s + "\n") == TrimStart(s) + "\n"
  {
    if s != "" && IsSpace(s[0]) {
      assert (s + "\n")[1..] == s[1..] + "\n";
      TrimStartKeepsEnd(s[1..]);
    }
  }

  /** Reading a changelog with a pending block reads what remains of it behind the header. */
  lemma ReadsRemains(l: Layout, body: string, history: string)
    requires GoodLayout(l) && IsHistory(history)
    ensures ExtractHistoricalSections(l, BuildFullChangelog(l, Some(body), history))
        == SectionsIn(Remains(l, body, history))
  {
    BuildWith(l, body, history);
    BlockRemoved(l, body, history);
    ReadsBehindHeader(l, Remains(l, body, history));
  }

  lemma Regroup(a: string, b: string, c: string, d: string)
    ensures a + (b + c) + d == a + (b + (c + d))
    ensures b + (c + d) == b + c + d
    ensures b == "" ==> a + (c + d) == a + c + d
  {
  }

  lemma BlockRemoved(l: Layout, body: string, history: string)
    requires GoodLayout(l) && IsHistory(history)
    ensures RemovePendingBlock(l, Page(l, Rest(l, body, history)) + "\n") == HeaderThen(l, Remains(l, body, history))
  {
    var text, behind := Remains(l, body, history), Behind(history) + "\n";
    Regroup(l.header + "\n\n", PendingSection(l, body), Behind(history), "\n");
    CutBlock(l, body, behind);
    Regroup("", Leftover(l, body), Behind(history), "\n");
    RemainsTrimmed(l, body, history);
    Regroup(l.header + "\n\n", "", text, "\n");
    TrimPage(l, text);
  }

  lemma SectionTextTrimmed(text: string, i: nat)
    requires SectionAt(text, i) && !IsSpace(text[|text| - 1])
    ensures Trim(text[i..]) == text[i..]
  {
    SectionChars(text, i);
    assert text[i..] + "" == text[i..];
    TrimBehind(text[i..], "");
  }

  /** What the block leaves behind, as the reader meets it, holds no section heading. */
  predicate Harmless(l: Layout, body: string) {
    FindSection(TrimStart(Leftover(l, body)), 0) == None
  }

  /**
   * With a pending block, released sections read back unchanged exactly when the block's text
   * holds no end marker, or no section heading behind the first one. Markers in the history
   * itself do no harm.
   */
  lemma RoundTripWith(l: Layout, body: string, history: string)
    requires GoodLayout(l) && IsHistory(history)
    ensures ExtractHistoricalSections(l, BuildFullChangelog(l, Some(body), history)) == history <==> Harmless(l, body)
  {
    ReadsRemains(l, body, history);
    var stray := Leftover(l, body);
    if stray == "" {
      RemainsOfCleanBlock(l, body, history);
      HistoryReadsItself(history);
    } else {
      RemainsBehindStray(stray, history);
      TrimStartKeepsEnd(stray);
      StrayThenHistory(TrimStart(stray), history);
    }
  }

  lemma RemainsOfCleanBlock(l: Layout, body: string, history: string)
    requires GoodLayout(l) && IsHistory(history) && Leftover(l, body) == ""
    ensures Harmless(l, body) && Remains(l, body, history) == history
  {
    assert "" + Behind(history) == Behind(history);
    TrimStartSpaces("\n\n", history);
    ReadsNothing("");
  }

  lemma {:induction false} RemainsBehindStray(stray: string, history: string)
    requires stray != "" && !IsSpace(stray[|stray| - 1])
    ensures TrimStart(stray + Behind(history)) == TrimStart(stray) + Behind(history)
  {
    if IsSpace(stray[0]) {
      assert (stray + Behind(history))[1..] == stray[1..] + Behind(history);
      RemainsBehindStray(stray[1..], history);
    }
  }

  /** Sections of some text followed by the history: those of the text come first. */
  lemma StrayThenHistory(t: string, history: string)
    requires t != "" && !IsSpace(t[|t| - 1]) && IsHistory(history)
    ensures FindSection(t, 0) == None ==> SectionsIn(t + Behind(history)) == history
    ensures FindSection(t, 0).Some? ==> |SectionsIn(t + Behind(history))| > |history|
  {
    SectionsStayInside(t, history);
    FindsFirstSection(t, 0);
    match FindSection(t, 0) {
      case Some(i) => StrayIsRead(t + Behind(history), i, |history|);
      case None => OnlyHistory(t, history);
    }
  }

  lemma SectionsStayInside(t: string, history: string)
    ensures forall k | k < |t| + 2 :: SectionAt(t + Behind(history), k) <==> SectionAt(t, k)
  {
    forall k | k < |t| + 2 ensures SectionAt(t + Behind(history), k) <==> SectionAt(t, k) {
      SectionStaysInside(t, history, k);
    }
  }

  lemma StrayIsRead(text: string, i: nat, n: nat)
    requires SectionAt(text, i) && !IsSpace(text[|text| - 1]) && i + n < |text|
    requires forall k :: 0 <= k < i ==> !SectionAt(text, k)
    ensures |SectionsIn(text)| > n
  {
    ReadsFrom(text, i, text[i..]);
    SectionTextTrimmed(text, i);
  }

  lemma OnlyHistory(t: string, history: string)
    requires IsHistory(history)
    requires forall k | k < |t| + 2 :: !SectionAt(t + Behind(history), k)
    ensures SectionsIn(t + Behind(history)) == history
  {
    if history == "" {
      ReadsNothing(t + Behind(history));
    } else {
      HistoryBehind(t, history);
      ReadsFrom(t + Behind(history), |t| + 2, history);
      assert history + "" == history;
      TrimBehind(history, "");
    }
  }

  lemma HistoryBehind(t: string, history: string)
    requires history != "" && IsHistory(history)
    ensures (t + Behind(history))[|t| + 2..] == history
    ensures SectionAt(t + Behind(history), |t| + 2)
  {
    var text, n := t + Behind(history), |t| + 2;
    assert text[n - 1] == '\n';
    assert forall i :: 0 <= i < |SECTION| ==> text[n + i] == SECTION[i];
  }

  /** A section heading that starts before the history lies within the text before it. */
  lemma SectionStaysInside(t: string, history: string, k: int)
    requires k < |t| + 2
    ensures SectionAt(t + Behind(history), k) <==> SectionAt(t, k)
  {
    var text := t + Behind(history);
    assert forall i :: 0 <= i < |t| ==> text[i] == t[i];
    if At(text, SECTION, k) {
      SectionChars(text, k);
      assert |t| < |text| ==> text[|t|] == '\n' && text[|t| + 1] == '\n';
      assert k + |SECTION| <= |t|;
      assert forall i :: 0 <= i < |SECTION| ==> t[k + i] == SECTION[i];
    }
    if At(t, SECTION, k) {
      assert forall i :: 0 <= i < |SECTION| ==> text[k + i] == SECTION[i];
    }
  }

  // ---- repeated prepares ----

  /** The changelog after a sequence of runs that each read it and write it with a new pending block. */
  function Rewritten(l: Layout, changelog: string, blocks: seq<Option<string>>): string {
    if blocks == [] then changelog
    else
      var before := Rewritten(l, changelog, blocks[..|blocks| - 1]);
      BuildFullChangelog(l, blocks[|blocks| - 1], ExtractHistoricalSections(l, before))
  }

  /** The condition under which a changelog written with this block gives its released sections back. */
  ghost predicate KeepsHistory(l: Layout, block: Option<string>, history: string) {
    match block
    case None => !HasBlock(l, history)
    case Some(body) => Harmless(l, body)
  }

  /** Writing a changelog and reading its released sections back is the identity exactly then. */
  lemma RoundTrip(l: Layout, block: Option<string>, history: string)
    requires GoodLayout(l) && IsHistory(history)
    ensures ExtractHistoricalSections(l, BuildFullChangelog(l, block, history)) == history
            <==> KeepsHistory(l, block, history)
  {
    match block {
      case None => RoundTripWithout(l, history);
      case Some(body) => RoundTripWith(l, body, history);
    }
  }

  /** However often the pending block is rewritten, the released sections stay as they were. */
  lemma {:induction false} PreparesKeepReleasedSections(l: Layout, history: string, first: Option<string>,
      blocks: seq<Option<string>>)
    requires GoodLayout(l) && IsHistory(history) && KeepsHistory(l, first, history)
    requires forall block :: block in blocks ==> KeepsHistory(l, block, history)
    ensures ExtractHistoricalSections(l, Rewritten(l, BuildFullChangelog(l, first, history), blocks)) == history
  {
    if blocks == [] {
      RoundTrip(l, first, history);
    } else {
      PreparesKeepReleasedSections(l, history, first, blocks[..|blocks| - 1]);
      RoundTrip(l, blocks[|blocks| - 1], history);
    }
  }

  // ---- the layout of this repository ----

  const GATHERED := "变更记录按 PR 驱动整理：自动清理 PR/commit 前缀与常见英文工程表述，"
  const SUMMARISED := "尽量产出可直接用于发布通知的中文摘要。"
  const HEADER_LINES: seq<string> := [
    "# Changelog",
    "",
    "所有重要的项目更改都将记录在此文件中。",
    "",
    "本项目遵循 语义化版本 规范。",
    "版本号由 GitHub Actions 自动维护，发布说明统一使用中文记录。",
    GATHERED + SUMMARISED,
    "",
    "---"
  ]
  const PENDING_START := "<!-- release:pending:start -->"
  const PENDING_END := "<!-- release:pending:end -->"
  const REPOSITORY := Layout(Join(HEADER_LINES), PENDING_START, PENDING_END)

  lemma {:induction false} JoinFree(lines: seq<string>, c: char)
    requires lines != [] && c != '\n' && forall i :: 0 <= i < |lines| ==> Free(lines[i], c)
    ensures Free(Join(lines), c)
  {
    if |lines| > 1 {
      JoinFree(lines[..|lines| - 1], c);
      var joined, last := Join(lines[..|lines| - 1]), lines[|lines| - 1];
      assert Join(lines) == joined + "\n" + last;
    }
  }

  lemma {:induction false} JoinEnds(lines: seq<string>)
    requires lines != [] && lines[0] != "" && lines[|lines| - 1] != ""
    ensures var s, last := Join(lines), lines[|lines| - 1];
      s != "" && s[0] == lines[0][0] && s[|s| - 1] == last[|last| - 1]
  {
    if |lines| > 1 {
      JoinStarts(lines);
    }
  }

  lemma {:induction false} JoinStarts(lines: seq<string>)
    requires lines != [] && lines[0] != ""
    ensures lines[0] <= Join(lines)
  {
    if |lines| > 1 {
      JoinStarts(lines[..|lines| - 1]);
    }
  }

  lemma HeaderLinesFree(c: char)
    requires c == '<' || c == '['
    ensures forall i :: 0 <= i < |HEADER_LINES| ==> Free(HEADER_LINES[i], c)
  {
    assert Free(HEADER_LINES[0], c);
    assert Free(HEADER_LINES[1], c);
    assert Free(HEADER_LINES[2], c);
    assert Free(HEADER_LINES[4], c);
    assert Free(HEADER_LINES[5], c);
    assert Free(GATHERED, c) && Free(SUMMARISED, c);
    assert Free(HEADER_LINES[6], c);
    assert Free(HEADER_LINES[8], c);
  }

  /** The texts of the script meet the conditions of the round trip. */
  lemma RepositoryLayout()
    ensures GoodLayout(REPOSITORY)
  {
    JoinEnds(HEADER_LINES);
    HeaderLinesFree('<');
    HeaderLinesFree('[');
    JoinFree(HEADER_LINES, '<');
    JoinFree(HEADER_LINES, '[');
  }

  // ---- inputs that do not read back ----

  /**
   * Released notes that quote both markers in bullets. An operations note "- <!-- ... -->" gets there: only
   * lines that themselves start with a comment are dropped (scripts/update-version-changelog.js:738-746).
   */
  function QuotingHistory(l: Layout): string {
    "## [1]\n- " + l.start + "\n- " + l.end
  }

  lemma QuotedBlock(l: Layout, heading: string, between: string)
    ensures HasBlock(l, heading + l.start + between + l.end)
  {
    var s, j := heading + l.start + between + l.end, |heading| + |l.start| + |between|;
    assert forall i :: 0 <= i < |l.start| ==> s[|heading| + i] == l.start[i];
    assert forall i :: 0 <= i < |l.end| ==> s[j + i] == l.end[i];
    assert At(s, l.start, |heading|) && At(s, l.end, j);
  }

  lemma QuotingIsHistory(l: Layout)
    requires GoodLayout(l)
    ensures IsHistory(QuotingHistory(l))
  {
    var h := QuotingHistory(l);
    assert h[|h| - 1] == l.end[|l.end| - 1];
  }

  /** Without a pending block they are cut out when they are read. */
  lemma QuotedMarkersAreLost()
    ensures var h := QuotingHistory(REPOSITORY);
      IsHistory(h) && ExtractHistoricalSections(REPOSITORY, BuildFullChangelog(REPOSITORY, None, h)) != h
  {
    RepositoryLayout();
    QuotingIsHistory(REPOSITORY);
    QuotedBlock(REPOSITORY, "## [1]\n- ", "\n- ");
    RoundTripWithout(REPOSITORY, QuotingHistory(REPOSITORY));
  }

  /**
   * A pending note that quotes the end marker and goes on with a heading. One item of the generated opsNotes
   * with a line break in it gets there: items are not split into lines (scripts/update-version-changelog.js:748-751).
   */
  function QuotingBody(l: Layout): string {
    "- " + l.end + "\n## [9]"
  }

  lemma QuotedEnd(l: Layout)
    requires GoodLayout(l)
    ensures Leftover(l, QuotingBody(l)) == "\n## [9]" + "\n" + l.end
  {
    AtInside("- ", l.end, "\n## [9]");
    QuotedEndFound(l.end, QuotingBody(l));
    LeftoverFrom(l, QuotingBody(l), 2, "\n## [9]");
  }

  lemma QuotedEndFound(end: string, body: string)
    requires IsMarker(end) && At(body, end, 2) && body[0] == '-' && body[1] == ' '
    ensures FindFrom(body, end, 0) == Some(2)
  {
    MarkerStarts(body, end, 0);
    MarkerStarts(body, end, 1);
    Found(body, end, 0, 2);
  }

  lemma LeftoverFrom(l: Layout, body: string, k: nat, behind: string)
    requires FindFrom(body, l.end, 0) == Some(k) && body[k + |l.end|..] == behind
    ensures Leftover(l, body) == behind + "\n" + l.end
  {
  }

  lemma HeadingLeftOver(end: string)
    ensures FindSection(TrimStart("\n## [9]" + "\n" + end), 0) == Some(0)
  {
    var rest := "## [9]\n" + end;
    assert "\n## [9]" + "\n" + end == "\n" + rest;
    TrimStartSpaces("\n", rest);
    assert SectionAt(rest, 0);
    FindsFirstSection(rest, 0);
  }

  /** Its heading is read as a released section, whatever the history. */
  lemma QuotedHeadingIsRead(history: string)
    requires IsHistory(history)
    ensures ExtractHistoricalSections(REPOSITORY,
        BuildFullChangelog(REPOSITORY, Some(QuotingBody(REPOSITORY)), history))
            != history
  {
    RepositoryLayout();
    QuotedEnd(REPOSITORY);
    HeadingLeftOver(REPOSITORY.end);
    RoundTripWith(REPOSITORY, QuotingBody(REPOSITORY), history);
  }
}
