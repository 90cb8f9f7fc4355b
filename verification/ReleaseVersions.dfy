/** Release levels, version bumps (clauses 6 to 8 and 11 of Semantic Versioning 2.0.0) and pending entries. */
module ReleaseVersions {
  import opened Basics

  datatype Level = Patch | Minor | Major

  datatype Version = Version(major: nat, minor: nat, patch: nat)

  function Rank(level: Level): nat {
    match level case Patch => 1 case Minor => 2 case Major => 3
  }

  /** Clause 11: major, minor and patch, compared in that order. */
  predicate Precedes(v: Version, w: Version) {
    v.major < w.major || (v.major == w.major && (v.minor < w.minor || (v.minor == w.minor && v.patch < w.patch)))
  }

  predicate AtMost(v: Version, w: Version) {
    v == w || Precedes(v, w)
  }

  function BumpVersion(base: Version, level: Level): Version {
    match level
    case Major => Version(base.major + 1, 0, 0)
    case Minor => Version(base.major, base.minor + 1, 0)
    case Patch => Version(base.major, base.minor, base.patch + 1)
  }

  /** Clause 6 to 8: a bump changes nothing left of its place, and is the least such version above base. */
  predicate KeepsLeftOf(v: Version, base: Version, level: Level) {
    match level
    case Major => true
    case Minor => v.major == base.major
    case Patch => v.major == base.major && v.minor == base.minor
  }

  predicate RaisesAt(v: Version, base: Version, level: Level) {
    match level
    case Major => v.major > base.major
    case Minor => v.minor > base.minor
    case Patch => v.patch > base.patch
  }

  lemma BumpIsLeast(base: Version, level: Level, v: Version)
    ensures var b := BumpVersion(base, level);
      Precedes(base, b) && KeepsLeftOf(b, base, level) && RaisesAt(b, base, level)
    ensures KeepsLeftOf(v, base, level) && RaisesAt(v, base, level) ==> AtMost(BumpVersion(base, level), v)
  {
  }

  lemma BumpMonotone(base: Version, low: Level, high: Level)
    requires Rank(low) <= Rank(high)
    ensures AtMost(BumpVersion(base, low), BumpVersion(base, high))
  {
  }

  /** What a bump at a level keeps of its base. */
  function Cut(v: Version, level: Level): Version {
    match level
    case Major => Version(v.major, 0, 0)
    case Minor => Version(v.major, v.minor, 0)
    case Patch => v
  }

  /** A bump at a level at least as high is at least as high a version exactly when what it keeps is. */
  lemma BumpsCompare(low: Version, l: Level, high: Version, h: Level)
    requires Rank(l) <= Rank(h)
    ensures AtMost(BumpVersion(low, l), BumpVersion(high, h)) <==> AtMost(Cut(low, h), Cut(high, h))
  {
  }

  // ---- the highest of a list of levels ----

  function HigherOf(a: Option<Level>, b: Option<Level>): Option<Level> {
    if b.None? then a else if a.None? || Rank(b.value) > Rank(a.value) then b else a
  }

  function Highest(levels: seq<Option<Level>>): Option<Level> {
    if levels == [] then None else HigherOf(Highest(levels[..|levels| - 1]), levels[|levels| - 1])
  }

  /** Highest is in the list and bounds it; None exactly when the list holds no level. */
  lemma {:induction false} HighestIsMaximum(levels: seq<Option<Level>>)
    ensures Highest(levels).Some? ==> Highest(levels) in levels
    ensures forall i :: 0 <= i < |levels| && levels[i].Some? ==>
              Highest(levels).Some? && Rank(levels[i].value) <= Rank(Highest(levels).value)
  {
    if levels != [] {
      HighestIsMaximum(levels[..|levels| - 1]);
    }
  }

  /** What the commit subject and body patterns decide. */
  datatype Commit = Commit(ignored: bool, breaking: bool, feature: bool)

  function LevelOf(c: Commit): Option<Level> {
    if c.ignored then None else if c.breaking then Some(Major) else if c.feature then Some(Minor) else Some(Patch)
  }

  function LevelsOf(commits: seq<Commit>): seq<Option<Level>> {
    seq(|commits|, i requires 0 <= i < |commits| => LevelOf(commits[i]))
  }

  predicate SomeCounts(commits: seq<Commit>) {
    exists i :: 0 <= i < |commits| && !commits[i].ignored
  }

  predicate SomeBreaks(commits: seq<Commit>) {
    exists i :: 0 <= i < |commits| && !commits[i].ignored && commits[i].breaking
  }

  predicate SomeAdds(commits: seq<Commit>) {
    exists i :: 0 <= i < |commits| && !commits[i].ignored && commits[i].feature
  }

  /** A breaking commit calls for a major release, else a feature for a minor one, else any commit for a patch. */
  ghost predicate CallFor(commits: seq<Commit>, level: Option<Level>) {
    && (level == Some(Major) <==> SomeBreaks(commits))
    && (level == Some(Minor) <==> SomeAdds(commits) && !SomeBreaks(commits))
    && (level == None <==> !SomeCounts(commits))
  }

  lemma HighestSays(levels: seq<Option<Level>>)
    ensures Highest(levels) == Some(Major) <==> Some(Major) in levels
    ensures Highest(levels) == Some(Minor) <==> Some(Minor) in levels && Some(Major) !in levels
    ensures Highest(levels) == None <==> forall level :: level in levels ==> level == None
  {
    HighestIsMaximum(levels);
  }

  lemma CommitsCallFor(commits: seq<Commit>)
    ensures CallFor(commits, Highest(LevelsOf(commits)))
  {
    var levels := LevelsOf(commits);
    HighestSays(levels);
    forall i | 0 <= i < |commits| ensures LevelOf(commits[i]) in levels {
      assert levels[i] == LevelOf(commits[i]);
    }
  }

  method AnalyzeReleaseLevel(commits: seq<Commit>) returns (level: Option<Level>)
    ensures CallFor(commits, level)
    ensures level == Highest(LevelsOf(commits))
  {
    CommitsCallFor(commits);
    level := None;
    ghost var levels := LevelsOf(commits);
    for i := 0 to |commits|
      invariant level == Highest(levels[..i]) && level != Some(Major)
    {
      assert levels[..i + 1][..i] == levels[..i];
      var commit := commits[i];
      if commit.ignored { continue; }
      if commit.breaking {
        MajorSettles(levels, i);
        return Some(Major);
      }
      if commit.feature {
        level := Some(Minor);
        continue;
      }
      if level.None? {
        level := Some(Patch);
      }
    }
    assert levels[..|levels|] == levels;
  }

  lemma MajorSettles(levels: seq<Option<Level>>, i: nat)
    requires i < |levels| && levels[i] == Some(Major)
    ensures Highest(levels) == Some(Major)
  {
    HighestIsMaximum(levels);
  }

  // ---- pending entries ----

  /** number is 0 for an entry without a pull request number; level may be missing in old files. */
  datatype Entry = Entry(number: nat, level: Option<Level>, text: string)

  function EntryLevel(e: Entry): Level {
    if e.level.Some? then e.level.value else Patch
  }

  function EntryLevels(entries: seq<Entry>): (levels: seq<Option<Level>>)
    ensures |levels| == |entries|
  {
    seq(|entries|, i requires 0 <= i < |entries| => Some(EntryLevel(entries[i])))
  }

  /** A major entry calls for a major release, else a minor one for a minor, else any entry for a patch. */
  ghost predicate CallForRelease(entries: seq<Entry>, level: Option<Level>) {
    && (level == Some(Major) <==> exists i :: 0 <= i < |entries| && entries[i].level == Some(Major))
    && (level == Some(Minor) <==>
          (exists i :: 0 <= i < |entries| && entries[i].level == Some(Minor))
          && !exists i :: 0 <= i < |entries| && entries[i].level == Some(Major))
    && (level == None <==> entries == [])
  }

  lemma EntriesCallFor(entries: seq<Entry>)
    ensures CallForRelease(entries, Highest(EntryLevels(entries)))
  {
    var levels := EntryLevels(entries);
    HighestSays(levels);
    forall i | 0 <= i < |entries| ensures Some(EntryLevel(entries[i])) in levels {
      assert levels[i] == Some(EntryLevel(entries[i]));
    }
    if entries != [] {
      assert Some(EntryLevel(entries[0])) in levels;
    }
  }

  method AggregateEntryLevels(entries: seq<Entry>) returns (max: Option<Level>)
    ensures CallForRelease(entries, max)
    ensures max == Highest(EntryLevels(entries))
  {
    EntriesCallFor(entries);
    max := None;
    ghost var levels := EntryLevels(entries);
    for i := 0 to |entries|
      invariant max == Highest(levels[..i]) && (max.None? <==> i == 0)
    {
      assert levels[..i + 1][..i] == levels[..i];
      var level := EntryLevel(entries[i]);
      if max.None? || Rank(level) > Rank(max.value) {
        max := Some(level);
      }
    }
    assert levels[..|levels|] == levels;
  }

  /** findIndex of the same nonzero number; |entries| when there is none. */
  function IndexOf(entries: seq<Entry>, number: nat): (index: nat)
    ensures index <= |entries|
    ensures index < |entries| ==> entries[index].number == number && number != 0
    ensures forall i :: 0 <= i < index && number != 0 ==> entries[i].number != number
  {
    if entries == [] then 0
    else if entries[0].number != 0 && entries[0].number == number then 0
    else 1 + IndexOf(entries[1..], number)
  }

  function Upserted(entries: seq<Entry>, e: Entry): seq<Entry> {
    var i := IndexOf(entries, e.number);
    if i < |entries| then entries[i := e] else entries + [e]
  }

  function Upserts(start: seq<Entry>, arrivals: seq<Entry>): seq<Entry> {
    if arrivals == [] then start
    else Upserted(Upserts(start, arrivals[..|arrivals| - 1]), arrivals[|arrivals| - 1])
  }

  predicate Seen(arrivals: seq<Entry>, number: nat) {
    number != 0 && exists i :: 0 <= i < |arrivals| && arrivals[i].number == number
  }

  /** The arrivals that were the first of their number, or have none. */
  function FirstSeen(arrivals: seq<Entry>): seq<Entry> {
    if arrivals == [] then []
    else
      var init, last := arrivals[..|arrivals| - 1], arrivals[|arrivals| - 1];
      if Seen(init, last.number) then FirstSeen(init) else FirstSeen(init) + [last]
  }

  /** The last arrival with e's number; e itself if it has none. */
  function LatestOf(arrivals: seq<Entry>, e: Entry): Entry {
    if arrivals == [] || e.number == 0 then e
    else if arrivals[|arrivals| - 1].number == e.number then arrivals[|arrivals| - 1]
    else LatestOf(arrivals[..|arrivals| - 1], e)
  }

  function LatestInFirstSeenOrder(arrivals: seq<Entry>): (entries: seq<Entry>)
    ensures |entries| == |FirstSeen(arrivals)|
  {
    var first := FirstSeen(arrivals);
    seq(|first|, i requires 0 <= i < |first| => LatestOf(arrivals, first[i]))
  }

  predicate DistinctNumbers(entries: seq<Entry>) {
    forall i, j :: 0 <= i < j < |entries| && entries[i].number != 0 ==> entries[i].number != entries[j].number
  }

  lemma SeenSnoc(arrivals: seq<Entry>, e: Entry, number: nat)
    ensures Seen(arrivals + [e], number) <==> Seen(arrivals, number) || (number != 0 && e.number == number)
  {
    var more := arrivals + [e];
    assert more[|arrivals|] == e;
    assert forall i :: 0 <= i < |arrivals| ==> more[i] == arrivals[i];
  }

  /** The same numbers, each once. */
  lemma {:induction false} FirstSeenNumbers(arrivals: seq<Entry>)
    ensures forall n :: Seen(FirstSeen(arrivals), n) <==> Seen(arrivals, n)
    ensures DistinctNumbers(FirstSeen(arrivals))
  {
    if arrivals != [] {
      var init, last := arrivals[..|arrivals| - 1], arrivals[|arrivals| - 1];
      FirstSeenNumbers(init);
      assert arrivals == init + [last];
      forall n ensures Seen(FirstSeen(arrivals), n) <==> Seen(arrivals, n) {
        SeenSnoc(init, last, n);
        SeenSnoc(FirstSeen(init), last, n);
      }
      if !Seen(init, last.number) {
        DistinctSnoc(FirstSeen(init), last);
      }
    }
  }

  lemma DistinctSnoc(entries: seq<Entry>, e: Entry)
    requires DistinctNumbers(entries) && !Seen(entries, e.number)
    ensures DistinctNumbers(entries + [e])
  {
  }

  lemma LatestKeepsNumber(arrivals: seq<Entry>, e: Entry)
    ensures LatestOf(arrivals, e).number == e.number
  {
  }

  /** Upserting arrivals one by one leaves, for each number, its last entry in its first-seen place. */
  lemma {:induction false} UpsertsKeepLatest(arrivals: seq<Entry>)
    ensures Upserts([], arrivals) == LatestInFirstSeenOrder(arrivals)
  {
    if arrivals != [] {
      var init, last := arrivals[..|arrivals| - 1], arrivals[|arrivals| - 1];
      UpsertsKeepLatest(init);
      LatestUpserted(init, last);
      assert arrivals == init + [last];
    }
  }

  /** One more arrival: upserted into the summary of those before it. */
  lemma LatestUpserted(init: seq<Entry>, last: Entry)
    ensures Upserted(LatestInFirstSeenOrder(init), last) == LatestInFirstSeenOrder(init + [last])
  {
    var before, first := LatestInFirstSeenOrder(init), FirstSeen(init);
    FirstSeenNumbers(init);
    assert (init + [last])[..|init|] == init;
    forall i | 0 <= i < |first| ensures before[i].number == first[i].number {
      LatestKeepsNumber(init, first[i]);
    }
    if Seen(init, last.number) {
      var i :| 0 <= i < |first| && first[i].number == last.number;
      assert before[i].number == last.number;
      assert IndexOf(before, last.number) < |before|;
    }
  }
}
