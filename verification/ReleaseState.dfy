/**
 * The release state machine: pull requests accumulate as pending entries on develop, a
 * release moves them into the last release. A repository is its package version, its pending
 * state file and its released changelog sections; git tags come from outside.
 */
module ReleaseState {
  import opened Basics
  import opened ReleaseVersions

  datatype Release = Release(version: Version, date: string, entries: seq<Entry>)

  datatype Pending = Pending(
    baseVersion: Version, nextVersion: Version, entries: seq<Entry>, lastRelease: Option<Release>)

  datatype Tag = Tag(version: Version, date: string)

  /** publish is upsertReleaseSection of a rendered release; sections are opaque text. */
  type Publish = (string, Release) -> string

  function EmptyPending(base: Version): Pending {
    Pending(base, base, [], None)
  }

  // ---- what each operation makes of the state ----

  function Synced(publish: Publish, pending: Pending, history: string, tag: Option<Tag>): (Pending, string) {
    if tag.None? then (pending, history)
    else if pending.entries == [] then
      (if pending.baseVersion != tag.value.version then EmptyPending(tag.value.version) else pending, history)
    else if pending.nextVersion == tag.value.version then
      var release := Release(tag.value.version, tag.value.date, pending.entries);
      (EmptyPending(tag.value.version).(lastRelease := Some(release)), publish(history, release))
    else (pending, history)
  }

  function BaseFor(tag: Option<Tag>, packageVersion: Version): Version {
    if tag.Some? then tag.value.version else packageVersion
  }

  function NextFor(base: Version, entries: seq<Entry>, packageVersion: Version): Version {
    match Highest(EntryLevels(entries))
    case Some(level) => BumpVersion(base, level)
    case None => packageVersion
  }

  function Prepared(pending: Pending, base: Version, packageVersion: Version, entry: Option<Entry>): Pending {
    var entries := if entry.Some? then Upserted(pending.entries, entry.value) else pending.entries;
    pending.(baseVersion := base, entries := entries, nextVersion := NextFor(base, entries, packageVersion))
  }

  // ---- the program ----

  class Repository {
    var packageVersion: Version
    var pending: Pending
    var history: string
    const publish: Publish

    constructor (packageVersion: Version, publish: Publish)
      ensures this.packageVersion == packageVersion && pending == EmptyPending(packageVersion)
      ensures history == "" && this.publish == publish
    {
      this.packageVersion := packageVersion;
      this.publish := publish;
      pending, history := EmptyPending(packageVersion), "";
    }

    ghost function Abstract(): Repo
      reads this
    {
      Repo(packageVersion, pending, history)
    }

    method UpsertPendingEntry(state: Pending, entry: Entry) returns (updated: Pending)
      ensures updated == state.(entries := Upserted(state.entries, entry))
    {
      var index := IndexOf(state.entries, entry.number);
      if index < |state.entries| {
        updated := state.(entries := state.entries[index := entry]);
      } else {
        updated := state.(entries := state.entries + [entry]);
      }
    }

    /** prepare: entry is the merged pull request without its level, commits the pushed commits. */
    method Prepare(tag: Option<Tag>, entry: Option<Entry>, commits: seq<Commit>)
      modifies this
      ensures Abstract() == PrepareStep(publish, old(Abstract()), tag, Graded(entry, commits))
      ensures pending.baseVersion == if tag.Some? then tag.value.version else old(packageVersion)
      ensures pending.entries == [] ==> packageVersion == pending.nextVersion == old(packageVersion)
      ensures pending.entries != [] ==>
                packageVersion == pending.nextVersion && Precedes(pending.baseVersion, pending.nextVersion)
    {
      var base := if tag.Some? then tag.value.version else packageVersion;
      var (synced, sections) := Synced(publish, pending, history, tag);
      if entry.Some? {
        var level := AnalyzeReleaseLevel(commits);
        var graded := entry.value.(level := if level.None? then Some(Patch) else level);
        synced := UpsertPendingEntry(synced, graded);
      }
      var releaseLevel := AggregateEntryLevels(synced.entries);
      var next := if releaseLevel.Some? then BumpVersion(base, releaseLevel.value) else packageVersion;
      if releaseLevel.Some? { BumpIsLeast(base, releaseLevel.value, base); }
      pending := synced.(baseVersion := base, nextVersion := next);
      packageVersion := next;
      history := sections;
    }

    /** finalize: with nothing pending, nothing is written. */
    method Finalize(tag: Option<Tag>, date: string) returns (released: bool)
      modifies this
      ensures Abstract() == FinalizeStep(publish, old(Abstract()), tag, date)
      ensures released <==> old(pending.entries) != []
                            && !(tag.Some? && tag.value.version == old(pending.nextVersion))
      ensures released ==>
                var release := Release(packageVersion, date, old(pending.entries));
                && packageVersion == old(packageVersion)
                && pending == Pending(packageVersion, packageVersion, [], Some(release))
                && history == publish(old(history), release)
      ensures !released ==> Abstract() == old(Abstract())
    {
      var (synced, sections) := Synced(publish, pending, history, tag);
      if |synced.entries| == 0 {
        return false;
      }
      var release := Release(packageVersion, date, synced.entries);
      history := publish(sections, release);
      pending := EmptyPending(packageVersion).(lastRelease := Some(release));
      released := true;
    }
  }

  // ---- runs ----

  datatype Repo = Repo(packageVersion: Version, pending: Pending, history: string)

  function Graded(entry: Option<Entry>, commits: seq<Commit>): Option<Entry> {
    if entry.None? then None
    else var level := Highest(LevelsOf(commits));
         Some(entry.value.(level := if level.None? then Some(Patch) else level))
  }

  /** A merged pull request is graded by the pushed commits; without a commit that counts it is a patch. */
  lemma GradedByCommits(entry: Entry, commits: seq<Commit>)
    ensures var graded := Graded(Some(entry), commits);
      && graded.Some? && graded.value.number == entry.number && graded.value.text == entry.text
      && graded.value.level == Some(if SomeBreaks(commits) then Major else if SomeAdds(commits) then Minor else Patch)
  {
    CommitsCallFor(commits);
    match Highest(LevelsOf(commits)) {
      case None =>
      case Some(Major) =>
      case Some(Minor) =>
      case Some(Patch) =>
    }
  }

  function PrepareStep(publish: Publish, r: Repo, tag: Option<Tag>, entry: Option<Entry>): Repo {
    var (synced, history) := Synced(publish, r.pending, r.history, tag);
    var pending := Prepared(synced, BaseFor(tag, r.packageVersion), r.packageVersion, entry);
    Repo(pending.nextVersion, pending, history)
  }

  function FinalizeStep(publish: Publish, r: Repo, tag: Option<Tag>, date: string): Repo {
    var (synced, history) := Synced(publish, r.pending, r.history, tag);
    if synced.entries == [] then r
    else
      var release := Release(r.packageVersion, date, synced.entries);
      Repo(r.packageVersion, EmptyPending(r.packageVersion).(lastRelease := Some(release)), publish(history, release))
  }

  datatype Operation = DoPrepare(tag: Option<Tag>, entry: Option<Entry>) | DoFinalize(tag: Option<Tag>, date: string)

  function Step(publish: Publish, r: Repo, op: Operation): Repo {
    match op
    case DoPrepare(tag, entry) => PrepareStep(publish, r, tag, entry)
    case DoFinalize(tag, date) => FinalizeStep(publish, r, tag, date)
  }

  function Run(publish: Publish, r: Repo, ops: seq<Operation>): Repo
    decreases |ops|
  {
    if ops == [] then r else Run(publish, Step(publish, r, ops[0]), ops[1..])
  }

  /** While entries are pending, the next version is the base bumped by their highest level. */
  ghost predicate Consistent(r: Repo) {
    && DistinctNumbers(r.pending.entries)
    && (r.pending.entries != [] ==>
          && Highest(EntryLevels(r.pending.entries)).Some?
          && r.packageVersion == r.pending.nextVersion
          && r.pending.nextVersion == BumpVersion(r.pending.baseVersion, Highest(EntryLevels(r.pending.entries)).value)
          && Precedes(r.pending.baseVersion, r.pending.nextVersion))
  }

  lemma UpsertedDistinct(entries: seq<Entry>, e: Entry)
    requires DistinctNumbers(entries)
    ensures DistinctNumbers(Upserted(entries, e)) && Upserted(entries, e) != []
  {
  }

  lemma LevelsKnown(entries: seq<Entry>)
    requires entries != []
    ensures Highest(EntryLevels(entries)).Some?
  {
    HighestIsMaximum(EntryLevels(entries));
    assert EntryLevels(entries)[0].Some?;
  }

  lemma StepConsistent(publish: Publish, r: Repo, op: Operation)
    requires Consistent(r)
    ensures Consistent(Step(publish, r, op))
  {
    match op {
      case DoPrepare(tag, entry) =>
        var synced := Synced(publish, r.pending, r.history, tag).0;
        if entry.Some? { UpsertedDistinct(synced.entries, entry.value); }
        var after := PrepareStep(publish, r, tag, entry).pending;
        if after.entries != [] {
          LevelsKnown(after.entries);
          BumpIsLeast(after.baseVersion, Highest(EntryLevels(after.entries)).value, after.baseVersion);
        }
      case DoFinalize(_, _) =>
    }
  }

  lemma {:induction false} RunConsistent(publish: Publish, r: Repo, ops: seq<Operation>)
    requires Consistent(r)
    ensures Consistent(Run(publish, r, ops))
    decreases |ops|
  {
    if ops != [] {
      StepConsistent(publish, r, ops[0]);
      RunConsistent(publish, Step(publish, r, ops[0]), ops[1..]);
    }
  }

  /** The tag is of the version the pending entries were heading for: they are released. */
  predicate Releases(r: Repo, tag: Option<Tag>) {
    tag.Some? && r.pending.nextVersion == tag.value.version
  }

  /** A finalize takes exactly the pending entries, under the version their levels call for, above the base. */
  lemma ReleaseTakesPending(publish: Publish, start: Repo, ops: seq<Operation>, tag: Option<Tag>, date: string)
    requires Consistent(start)
    ensures var r := Run(publish, start, ops);
      var released := FinalizeStep(publish, r, tag, date);
      released != r ==>
        && released.pending.entries == []
        && Released(r, released, Release(r.packageVersion, date, r.pending.entries), publish)
  {
    RunConsistent(publish, start, ops);
  }

  /** From r to after, its pending entries became the last release, under the version they call for. */
  ghost predicate Released(r: Repo, after: Repo, release: Release, publish: Publish) {
    && r.pending.entries != [] && release.entries == r.pending.entries
    && after.pending.lastRelease == Some(release) && after.history == publish(r.history, release)
    && Highest(EntryLevels(r.pending.entries)).Some?
    && release.version == BumpVersion(r.pending.baseVersion, Highest(EntryLevels(r.pending.entries)).value)
    && Precedes(r.pending.baseVersion, release.version)
  }

  /**
   * The release by sync: a prepare under the tag of the version that was pending takes exactly the pending
   * entries, and only its own entry stays pending, on top of the tag. Under any other tag nothing is released.
   */
  lemma TagReleasesPending(publish: Publish, start: Repo, ops: seq<Operation>, tag: Tag, entry: Option<Entry>)
    requires Consistent(start) && Run(publish, start, ops).pending.entries != []
    ensures var r := Run(publish, start, ops);
      var after := PrepareStep(publish, r, Some(tag), entry);
      if Releases(r, Some(tag)) then
        && Released(r, after, Release(tag.version, tag.date, r.pending.entries), publish)
        && after.pending.baseVersion == tag.version
        && after.pending.entries == (if entry.Some? then [entry.value] else [])
      else
        after.pending.lastRelease == r.pending.lastRelease && after.history == r.history
  {
    RunConsistent(publish, start, ops);
  }

  /**
   * With nothing pending, a prepare leaves the released sections alone and forgets the last release only under a tag
   * of another version than the base; its own entry is all that is pending then.
   */
  lemma NothingPendingToRelease(publish: Publish, r: Repo, tag: Option<Tag>, entry: Option<Entry>)
    requires r.pending.entries == []
    ensures var after := PrepareStep(publish, r, tag, entry);
      && after.history == r.history
      && after.pending.entries == (if entry.Some? then [entry.value] else [])
      && after.pending.lastRelease == (if tag.Some? && tag.value.version != r.pending.baseVersion then None
                                       else r.pending.lastRelease)
      && (entry.None? ==> after.packageVersion == r.packageVersion)
  {
    if entry.None? {
      EntriesCallFor([]);
    }
  }

  /** Syncing to one tag twice is syncing once. */
  lemma SyncIdempotent(publish: Publish, pending: Pending, history: string, tag: Option<Tag>)
    ensures var once := Synced(publish, pending, history, tag); Synced(publish, once.0, once.1, tag) == once
  {
  }

  /** The tag of a release that has just been finalized here is already synced, whatever tag the finalize saw. */
  lemma FinalizedNeedsNoSync(publish: Publish, r: Repo, tag: Option<Tag>, date: string, tagDate: string)
    requires Synced(publish, r.pending, r.history, tag).0.entries != []
    ensures var released := FinalizeStep(publish, r, tag, date);
      Synced(publish, released.pending, released.history, Some(Tag(r.packageVersion, tagDate)))
      == (released.pending, released.history)
  {
  }

  // ---- what is pending after a run ----

  /**
   * The entries that arrived since pending was last emptied, on top of those pending at the start: a prepare
   * drops them when their release is tagged, a finalize when it is not (it leaves tagged ones to the next prepare).
   */
  function Outstanding(publish: Publish, r: Repo, ops: seq<Operation>): seq<Entry> {
    if ops == [] then r.pending.entries
    else
      var init := ops[..|ops| - 1];
      var before, earlier := Run(publish, r, init), Outstanding(publish, r, init);
      match ops[|ops| - 1]
      case DoPrepare(tag, entry) =>
        (if Releases(before, tag) then [] else earlier) + (if entry.Some? then [entry.value] else [])
      case DoFinalize(tag, _) =>
        if Releases(before, tag) then earlier else []
  }

  lemma {:induction false} RunSnoc(publish: Publish, r: Repo, ops: seq<Operation>)
    requires ops != []
    ensures Run(publish, r, ops) == Step(publish, Run(publish, r, ops[..|ops| - 1]), ops[|ops| - 1])
    decreases |ops|
  {
    if |ops| == 1 {
      assert ops[1..] == [] && ops[..0] == [];
    } else {
      RunSnoc(publish, Step(publish, r, ops[0]), ops[1..]);
      assert ops[1..][..|ops| - 2] == ops[..|ops| - 1][1..];
    }
  }

  lemma {:induction false} DistinctAreLatest(entries: seq<Entry>)
    requires DistinctNumbers(entries)
    ensures LatestInFirstSeenOrder(entries) == entries
  {
    if entries != [] {
      var init, last := entries[..|entries| - 1], entries[|entries| - 1];
      DistinctAreLatest(init);
      LatestUpserted(init, last);
      assert entries == init + [last];
      assert IndexOf(init, last.number) == |init|;
    }
  }

  /** One operation on a repository whose entries are the summary of some arrivals. */
  lemma StepSummarizes(publish: Publish, r: Repo, op: Operation, earlier: seq<Entry>)
    requires r.pending.entries == LatestInFirstSeenOrder(earlier)
    ensures Step(publish, r, op).pending.entries == LatestInFirstSeenOrder(
      match op
      case DoPrepare(tag, entry) =>
        (if Releases(r, tag) then [] else earlier) + (if entry.Some? then [entry.value] else [])
      case DoFinalize(tag, _) => if Releases(r, tag) then earlier else [])
  {
    assert LatestInFirstSeenOrder([]) == [];
    match op {
      case DoPrepare(tag, entry) =>
        var kept := if Releases(r, tag) then [] else earlier;
        assert Synced(publish, r.pending, r.history, tag).0.entries == LatestInFirstSeenOrder(kept);
        if entry.Some? { LatestUpserted(kept, entry.value); }
        assert kept + [] == kept;
      case DoFinalize(_, _) =>
    }
  }

  /**
   * After any run of prepares and finalizes, under any tags: pending holds the last entry of each number among
   * those outstanding, in first-seen order, and the next version is the base bumped by their highest level.
   */
  lemma {:induction false} PendingIsOutstanding(publish: Publish, r: Repo, ops: seq<Operation>)
    requires Consistent(r)
    ensures var p := Run(publish, r, ops).pending;
      && p.entries == LatestInFirstSeenOrder(Outstanding(publish, r, ops))
      && (p.entries != [] ==>
            Highest(EntryLevels(p.entries)).Some?
            && p.nextVersion == BumpVersion(p.baseVersion, Highest(EntryLevels(p.entries)).value)
            && Precedes(p.baseVersion, p.nextVersion))
  {
    RunConsistent(publish, r, ops);
    if ops == [] {
      DistinctAreLatest(r.pending.entries);
    } else {
      var init := ops[..|ops| - 1];
      PendingIsOutstanding(publish, r, init);
      RunSnoc(publish, r, ops);
      StepSummarizes(publish, Run(publish, r, init), ops[|ops| - 1], Outstanding(publish, r, init));
    }
  }

  // ---- accumulating entries over one release ----

  function Prepares(publish: Publish, r: Repo, tag: Option<Tag>, arrivals: seq<Entry>): Repo {
    if arrivals == [] then r
    else PrepareStep(publish, Prepares(publish, r, tag, arrivals[..|arrivals| - 1]), tag,
        Some(arrivals[|arrivals| - 1]))
  }

  /** Synced to the tag, r has nothing pending: there was nothing, or the tag released it. */
  predicate FreshAt(publish: Publish, r: Repo, tag: Tag) {
    Synced(publish, r.pending, r.history, Some(tag)).0.entries == []
  }

  /** The last entry of each number in first-seen order, and the tag bumped by their highest level. */
  ghost predicate Accumulated(p: Pending, tag: Tag, arrivals: seq<Entry>) {
    && p.entries == LatestInFirstSeenOrder(arrivals) && p.entries != []
    && p.baseVersion == tag.version
    && Highest(EntryLevels(p.entries)).Some?
    && p.nextVersion == BumpVersion(tag.version, Highest(EntryLevels(p.entries)).value)
    && Precedes(tag.version, p.nextVersion)
  }

  /** One prepare at a tag: its entry joins those the tag leaves pending. */
  lemma PrepareAdds(publish: Publish, r: Repo, tag: Tag, e: Entry, earlier: seq<Entry>)
    requires Synced(publish, r.pending, r.history, Some(tag)).0.entries == LatestInFirstSeenOrder(earlier)
    ensures Accumulated(PrepareStep(publish, r, Some(tag), Some(e)).pending, tag, earlier + [e])
  {
    LatestUpserted(earlier, e);
    var entries := LatestInFirstSeenOrder(earlier + [e]);
    LevelsKnown(entries);
    BumpIsLeast(tag.version, Highest(EntryLevels(entries)).value, tag.version);
  }

  lemma AccumulatedNeedsNoSync(publish: Publish, p: Pending, history: string, tag: Tag, arrivals: seq<Entry>)
    requires Accumulated(p, tag, arrivals)
    ensures Synced(publish, p, history, Some(tag)) == (p, history)
  {
  }

  /** Pull requests merged after a tag accumulate in pending. */
  lemma {:induction false} PreparesAccumulate(publish: Publish, r: Repo, tag: Tag, arrivals: seq<Entry>)
    requires FreshAt(publish, r, tag) && arrivals != []
    ensures Accumulated(Prepares(publish, r, Some(tag), arrivals).pending, tag, arrivals)
  {
    var init, last := arrivals[..|arrivals| - 1], arrivals[|arrivals| - 1];
    var before := Prepares(publish, r, Some(tag), init);
    if init == [] {
      assert LatestInFirstSeenOrder(init) == [];
    } else {
      PreparesAccumulate(publish, r, tag, init);
      AccumulatedNeedsNoSync(publish, before.pending, before.history, tag, init);
    }
    PrepareAdds(publish, before, tag, last, init);
    assert arrivals == init + [last];
  }

  /** Meanwhile what the tag released stays published as the sync left it. */
  lemma {:induction false} PreparesKeepReleased(publish: Publish, r: Repo, tag: Tag, arrivals: seq<Entry>)
    requires FreshAt(publish, r, tag) && arrivals != []
    ensures var after := Prepares(publish, r, Some(tag), arrivals);
      var synced := Synced(publish, r.pending, r.history, Some(tag));
      after.pending.lastRelease == synced.0.lastRelease && after.history == synced.1
  {
    var init := arrivals[..|arrivals| - 1];
    if init != [] {
      var before := Prepares(publish, r, Some(tag), init);
      PreparesKeepReleased(publish, r, tag, init);
      PreparesAccumulate(publish, r, tag, init);
      AccumulatedNeedsNoSync(publish, before.pending, before.history, tag, init);
    }
  }

  /**
   * After any run that leaves entries pending, a prepare for a new pull request keeps the next version from
   * falling if and only if its tag releases what was pending, or its base is not below the old base in the
   * places that the new highest level keeps.
   */
  lemma NextVersionKeptExactlyWhen(publish: Publish, start: Repo, ops: seq<Operation>, tag: Option<Tag>, e: Entry)
    requires Consistent(start)
    requires var r := Run(publish, start, ops); r.pending.entries != [] && !Seen(r.pending.entries, e.number)
    ensures var r := Run(publish, start, ops);
      var level := HighestLevel(r.pending.entries + [e]);
      AtMost(r.pending.nextVersion, PrepareStep(publish, r, tag, Some(e)).pending.nextVersion)
      <==> Releases(r, tag) || AtMost(Cut(r.pending.baseVersion, level), Cut(BaseFor(tag, r.packageVersion), level))
  {
    RunConsistent(publish, start, ops);
    var r := Run(publish, start, ops);
    var base := BaseFor(tag, r.packageVersion);
    if Releases(r, tag) {
      LevelsKnown([e]);
      BumpIsLeast(base, HighestLevel([e]), base);
    } else {
      HighestGrows(r.pending.entries, e);
      BumpsCompare(r.pending.baseVersion, HighestLevel(r.pending.entries), base, HighestLevel(r.pending.entries + [e]));
    }
  }

  function HighestLevel(entries: seq<Entry>): Level
    requires entries != []
  {
    LevelsKnown(entries);
    Highest(EntryLevels(entries)).value
  }

  /** So it never falls under a tag that is not below the old base: the same tag, a later one, or none. */
  lemma NewNumbersNeverLower(publish: Publish, start: Repo, ops: seq<Operation>, tag: Option<Tag>, e: Entry)
    requires Consistent(start)
    requires var r := Run(publish, start, ops);
      r.pending.entries != [] && !Seen(r.pending.entries, e.number)
      && AtMost(r.pending.baseVersion, BaseFor(tag, r.packageVersion))
    ensures var r := Run(publish, start, ops);
      AtMost(r.pending.nextVersion, PrepareStep(publish, r, tag, Some(e)).pending.nextVersion)
  {
    NextVersionKeptExactlyWhen(publish, start, ops, tag, e);
  }

  // ---- a run in which it falls ----

  const FRESH := Repo(Version(1, 0, 0), EmptyPending(Version(1, 0, 0)), "")

  function PatchEntry(number: nat): Entry {
    Entry(number, Some(Patch), "")
  }

  /** Three patches before the first tag. */
  const UNTAGGED := [DoPrepare(None, Some(PatchEntry(1))), DoPrepare(None, Some(PatchEntry(2))),
                     DoPrepare(None, Some(PatchEntry(3)))]

  predicate AllPatches(entries: seq<Entry>) {
    forall i :: 0 <= i < |entries| ==> entries[i].level == Some(Patch)
  }

  lemma PatchesCallForPatch(entries: seq<Entry>)
    requires entries != [] && AllPatches(entries)
    ensures Highest(EntryLevels(entries)) == Some(Patch)
  {
    LevelsKnown(entries);
    HighestIsMaximum(EntryLevels(entries));
  }

  lemma PatchPrepared(publish: Publish, r: Repo, tag: Option<Tag>, number: nat)
    requires AllPatches(r.pending.entries) && !Releases(r, tag) && !Seen(r.pending.entries, number)
    requires r.pending.entries == [] ==> tag.None?
    ensures var base := BaseFor(tag, r.packageVersion);
      var next := Version(base.major, base.minor, base.patch + 1);
      PrepareStep(publish, r, tag, Some(PatchEntry(number)))
      == Repo(next, Pending(base, next, r.pending.entries + [PatchEntry(number)], r.pending.lastRelease), r.history)
  {
    PatchesCallForPatch(r.pending.entries + [PatchEntry(number)]);
  }

  lemma ThreePatches(publish: Publish)
    ensures Run(publish, FRESH, UNTAGGED) ==
      Repo(Version(1, 0, 3),
           Pending(Version(1, 0, 2), Version(1, 0, 3), [PatchEntry(1), PatchEntry(2), PatchEntry(3)], None), "")
  {
    PatchPrepared(publish, FRESH, None, 1);
    var one := Step(publish, FRESH, UNTAGGED[0]);
    PatchPrepared(publish, one, None, 2);
    var two := Step(publish, one, UNTAGGED[1]);
    PatchPrepared(publish, two, None, 3);
    var three := Step(publish, two, UNTAGGED[2]);
    assert UNTAGGED[1..][0] == UNTAGGED[1] && UNTAGGED[1..][1..] == [UNTAGGED[2]];
    assert Run(publish, FRESH, UNTAGGED) == Run(publish, one, UNTAGGED[1..]) == Run(publish, two, [UNTAGGED[2]]);
    assert Run(publish, two, [UNTAGGED[2]]) == Run(publish, three, []);
  }

  /**
   * Three untagged patches head for 1.0.3; when the first tag then is 1.0.1, an earlier state of theirs that
   * was released, the fourth heads for 1.0.2.
   */
  lemma OlderTagCanLower(publish: Publish)
    ensures Consistent(FRESH)
    ensures var r := Run(publish, FRESH, UNTAGGED);
      && r.pending.entries != [] && !Seen(r.pending.entries, 4) && r.pending.nextVersion == Version(1, 0, 3)
      && PrepareStep(publish, r, Some(Tag(Version(1, 0, 1), "")), Some(PatchEntry(4))).pending.nextVersion
         == Version(1, 0, 2)
  {
    ThreePatches(publish);
    PatchPrepared(publish, Run(publish, FRESH, UNTAGGED), Some(Tag(Version(1, 0, 1), "")), 4);
  }

  /** One more entry calls for a level at least as high. */
  lemma HighestGrows(entries: seq<Entry>, e: Entry)
    requires entries != []
    ensures Rank(HighestLevel(entries)) <= Rank(HighestLevel(entries + [e]))
  {
    LevelsKnown(entries);
    LevelsKnown(entries + [e]);
    var levels, more := EntryLevels(entries), EntryLevels(entries + [e]);
    assert more[..|levels|] == levels;
  }

  /** Before the first tag the base is the package version itself, so every prepare climbs. */
  lemma UntaggedPrepareClimbs(publish: Publish, r: Repo, entry: Option<Entry>)
    ensures var after := PrepareStep(publish, r, None, entry);
      && after.pending.baseVersion == r.packageVersion
      && (after.pending.entries != [] <==> Precedes(r.packageVersion, after.packageVersion))
  {
    var after := PrepareStep(publish, r, None, entry);
    if after.pending.entries != [] {
      LevelsKnown(after.pending.entries);
      BumpIsLeast(r.packageVersion, Highest(EntryLevels(after.pending.entries)).value, r.packageVersion);
    }
  }
}
