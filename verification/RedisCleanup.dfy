/**
 * The retired-prefix clean-up: scan, snapshot, flush a backup, then compare and delete, while other
 * clients write. Every script evaluation is one atomic step of the log; the store at each step is arbitrary.
 */
module RedisCleanup {
  import opened Basics
  import opened RedisContent

  const MAX_PAGES: nat := 200
  const MAX_KEYS: nat := 5000

  datatype Page = Page(last: bool, keys: seq<string>)

  /** Everything outside the script: scan replies, the store and the connection at each step, the digest. */
  datatype Env<!D> = Env(
    page: nat -> Option<Page>,
    store: nat -> map<string, Stored>,
    lost: nat -> bool,
    permitted: string -> bool,
    backupWritten: bool,
    digest: Data -> D)

  datatype Entry<D> = Entry(key: string, digest: D, data: Data)

  datatype Event<D> =
    | Read(key: string, found: Option<Stored>)
    | Flush(entries: seq<Entry<D>>)
    | Compare(key: string, found: Option<Stored>, removed: bool)

  datatype Report = Report(found: nat, backedUp: nat, deleted: nat, changedOrExpired: int)

  predicate Listed(prefixes: seq<string>, key: string) {
    exists i :: 0 <= i < |prefixes| && prefixes[i] + ":" <= key
  }

  /** The key goes on with a colon behind one of the prefixes. */
  ghost predicate UnderPrefix(prefixes: seq<string>, key: string) {
    exists p :: p in prefixes && |p| < |key| && key[..|p|] == p && key[|p|] == ':'
  }

  lemma ListedIsUnder(prefixes: seq<string>, key: string)
    ensures Listed(prefixes, key) <==> UnderPrefix(prefixes, key)
  {
    if i :| 0 <= i < |prefixes| && prefixes[i] + ":" <= key {
      var p := prefixes[i];
      assert (p + ":")[..|p|] == p && (p + ":")[|p|] == ':';
    }
    if p :| p in prefixes && |p| < |key| && key[..|p|] == p && key[|p|] == ':' {
      var i :| 0 <= i < |prefixes| && prefixes[i] == p;
      assert prefixes[i] + ":" <= key;
    }
  }

  function Lookup(store: map<string, Stored>, key: string): Option<Stored> {
    if key in store then Some(store[key]) else None
  }

  ghost predicate Injective<D>(digest: Data -> D) {
    forall x, y :: digest(x) == digest(y) ==> x == y
  }

  // ---- scanning ----

  /** The keys under a listed prefix on the first n pages. */
  ghost predicate OnPages<D>(env: Env<D>, prefixes: seq<string>, n: nat, key: string) {
    UnderPrefix(prefixes, key) && exists r :: 0 <= r < n && env.page(r).Some? && key in env.page(r).value.keys
  }

  predicate IsLast<D>(env: Env<D>, n: nat) {
    env.page(n).Some? && env.page(n).value.last
  }

  /** Pages 0 to n - 1 arrived and did not end the scan. */
  predicate Reached<D>(env: Env<D>, n: nat) {
    forall m :: 0 <= m < n ==> env.page(m).Some? && !IsLast(env, m)
  }

  /** The keys are those on the pages up to the first zero cursor. */
  ghost predicate Scanned<D>(env: Env<D>, prefixes: seq<string>, keys: seq<string>) {
    exists n: nat :: n < 200 && Reached(env, n) && IsLast(env, n)
                     && forall k :: k in keys <==> OnPages(env, prefixes, n + 1, k)
  }

  /** More keys than allowed stand on the first n pages. */
  ghost predicate TooMany<D>(env: Env<D>, prefixes: seq<string>, n: nat) {
    exists keys: seq<string> ::
      Distinct(keys) && |keys| > 5000 && forall k :: k in keys ==> OnPages(env, prefixes, n, k)
  }

  /** A page that the scan gets to is lost, or is one page or one key too many. */
  ghost predicate ScanFails<D>(env: Env<D>, prefixes: seq<string>) {
    exists n: nat :: Reached(env, n) && (env.page(n).None? || n >= 200 || TooMany(env, prefixes, n + 1))
  }

  method AddListed(prefixes: seq<string>, page: seq<string>, before: seq<string>) returns (keys: seq<string>)
    requires Distinct(before)
    ensures Distinct(keys) && before <= keys
    ensures forall k :: k in keys <==> k in before || (k in page && UnderPrefix(prefixes, k))
  {
    keys := before;
    for i := 0 to |page|
      invariant Distinct(keys) && before <= keys
      invariant forall k :: k in keys <==> k in before || (k in page[..i] && UnderPrefix(prefixes, k))
    {
      ListedIsUnder(prefixes, page[i]);
      if Listed(prefixes, page[i]) && page[i] !in keys {
        keys := keys + [page[i]];
      }
    }
    assert page[..|page|] == page;
  }

  /** Pages until the cursor is back at zero; at most 200 of them and at most 5000 keys, or an error. */
  method Scan<D>(env: Env<D>, prefixes: seq<string>) returns (scanned: Option<seq<string>>)
    ensures scanned.Some? ==> Distinct(scanned.value) && |scanned.value| <= 5000
    ensures scanned.Some? ==> Scanned(env, prefixes, scanned.value)
    ensures scanned.None? ==> ScanFails(env, prefixes)
  {
    var keys: seq<string> := [];
    var rounds := 0;
    var last := false;
    while !last
      invariant Distinct(keys) && |keys| <= MAX_KEYS && rounds <= MAX_PAGES
      invariant last ==> 0 < rounds && IsLast(env, rounds - 1) && Reached(env, rounds - 1)
      invariant !last ==> Reached(env, rounds)
      invariant forall k :: k in keys <==> OnPages(env, prefixes, rounds, k)
      decreases !last, MAX_PAGES - rounds
    {
      var page := env.page(rounds);
      if page.None? { return None; }
      keys := AddListed(prefixes, page.value.keys, keys);
      rounds := rounds + 1;
      if rounds > MAX_PAGES || |keys| > MAX_KEYS {
        assert Reached(env, rounds - 1);
        return None;
      }
      last := page.value.last;
    }
    return Some(keys);
  }

  // ---- snapshot ----

  /** The entries pushed for a run of reads: one for each key that was found. */
  function Captured<D>(digest: Data -> D, events: seq<Event<D>>): seq<Entry<D>> {
    if events == [] then []
    else Captured(digest, events[..|events| - 1]) + EntryOf(digest, events[|events| - 1])
  }

  function EntryOf<D>(digest: Data -> D, read: Event<D>): seq<Entry<D>> {
    if read.Read? && read.found.Some? && Canonical(read.found.value).Some?
    then [Entry(read.key, digest(Canonical(read.found.value).value), Canonical(read.found.value).value)]
    else []
  }

  function NextRead<D>(env: Env<D>, keys: seq<string>, start: nat, n: nat): Event<D>
    requires n < |keys|
  {
    Read(keys[n], Lookup(env.store(start + n), keys[n]))
  }

  /** Read i of the run looked at key i, in the store of its moment. */
  ghost predicate ReadsInOrder<D>(env: Env<D>, keys: seq<string>, start: nat, events: seq<Event<D>>) {
    |events| <= |keys|
    && forall i :: 0 <= i < |events| ==> events[i] == NextRead(env, keys, start, i)
  }

  /** The script did not answer with an error. */
  predicate Supported<D>(event: Event<D>) {
    event.Flush? || (event.found.Some? ==> !event.found.value.Unsupported?)
  }

  ghost predicate AllSupported<D>(events: seq<Event<D>>) {
    forall e :: e in events ==> Supported(e)
  }

  lemma SupportedStep<D>(events: seq<Event<D>>, e: Event<D>)
    ensures AllSupported(events + [e]) <==> AllSupported(events) && Supported(e)
  {
    assert forall x :: x in events + [e] <==> x in events || x == e;
  }

  /** The connection is lost at a step, or a step before failed. */
  ghost predicate Broken<D>(env: Env<D>, t: nat, events: seq<Event<D>>) {
    // The match is there for the proofs: the verifier keeps such a body folded where it is asserted.
    match env case Env(_, _, _, _, _, _) => env.lost(t) || !AllSupported(events)
  }

  /** No step failed, and no request was lost before, between or behind the steps. */
  ghost predicate AllAnswered<D>(env: Env<D>, start: nat, events: seq<Event<D>>) {
    // Folded, as Broken is.
    match env case Env(_, _, _, _, _, _) =>
      AllSupported(events) && (events != [] ==> forall t :: start <= t <= start + |events| ==> !env.lost(t))
  }

  /** Where a request of reads stands: in order, with or without an error reply, and not lost so far. */
  ghost predicate Reading<D>(env: Env<D>, keys: seq<string>, start: nat, events: seq<Event<D>>, failed: bool) {
    // Folded, as Broken is.
    match env case Env(_, _, _, _, _, _) =>
      && ReadsInOrder(env, keys, start, events)
      && (!failed <==> AllSupported(events))
      && forall t :: start <= t < start + |events| ==> !env.lost(t)
  }

  lemma ReadStep<D>(env: Env<D>, keys: seq<string>, start: nat, events: seq<Event<D>>, failed: bool)
    requires Reading(env, keys, start, events, failed) && |events| < |keys| && !env.lost(start + |events|)
    ensures var read := NextRead(env, keys, start, |events|);
      Reading(env, keys, start, events + [read], failed || !Supported(read))
  {
    NextInOrder(env, keys, start, events);
    SupportedStep(events, NextRead(env, keys, start, |events|));
  }

  lemma NextInOrder<D>(env: Env<D>, keys: seq<string>, start: nat, events: seq<Event<D>>)
    requires ReadsInOrder(env, keys, start, events) && |events| < |keys|
    ensures ReadsInOrder(env, keys, start, events + [NextRead(env, keys, start, |events|)])
  {
    var read := NextRead(env, keys, start, |events|);
    forall i | 0 <= i < |events + [read]| ensures (events + [read])[i] == NextRead(env, keys, start, i) {
      assert (events + [read])[i] == if i < |events| then events[i] else read;
    }
  }

  lemma CapturedStep<D>(digest: Data -> D, events: seq<Event<D>>, read: Event<D>)
    ensures Captured(digest, events + [read]) == Captured(digest, events) + EntryOf(digest, read)
  {
    assert (events + [read])[..|events|] == events;
  }

  /** One request of reads; not answered if the connection is lost at any step or a key has an unsupported type. */
  method ReadBatch<D>(env: Env<D>, keys: seq<string>, start: nat, before: seq<Event<D>>, end: nat)
    returns (answered: bool, events: seq<Event<D>>)
    requires ReadsInOrder(env, keys, start, before) && AllAnswered(env, start, before) && |before| < end <= |keys|
    ensures ReadsInOrder(env, keys, start, events) && |events| <= end
    ensures answered ==> |events| == end && AllAnswered(env, start, events)
    ensures !answered ==> Broken(env, start + |events|, events)
  {
    events := before;
    var failed := false;
    while |events| < end
      invariant Reading(env, keys, start, events, failed) && |events| <= end
    {
      if env.lost(start + |events|) { return false, events; }
      var read := NextRead(env, keys, start, |events|);
      ReadStep(env, keys, start, events, failed);
      failed := failed || !Supported(read);
      events := events + [read];
    }
    answered := !failed && !env.lost(start + |events|);
  }

  /** The snapshots pushed for one batch of replies. */
  method Push<D>(digest: Data -> D, taken: seq<Entry<D>>, events: seq<Event<D>>, from: nat) returns (all: seq<Entry<D>>)
    requires from <= |events| && taken == Captured(digest, events[..from])
    ensures all == Captured(digest, events)
  {
    all := taken;
    for i := from to |events|
      invariant all == Captured(digest, events[..i])
    {
      CapturedStep(digest, events[..i], events[i]);
      assert events[..i + 1] == events[..i] + [events[i]];
      all := all + EntryOf(digest, events[i]);
    }
    assert events[..|events|] == events;
  }

  /** Batches of 50 reads. */
  method Snapshot<D>(env: Env<D>, keys: seq<string>, start: nat)
    returns (snapshots: Option<seq<Entry<D>>>, events: seq<Event<D>>)
    ensures ReadsInOrder(env, keys, start, events)
    ensures snapshots.Some? ==> |events| == |keys| && snapshots.value == Captured(env.digest, events)
                                && AllAnswered(env, start, events)
    ensures snapshots.None? ==> Broken(env, start + |events|, events)
  {
    events := [];
    var taken: seq<Entry<D>> := [];
    while |events| < |keys|
      invariant ReadsInOrder(env, keys, start, events)
      invariant taken == Captured(env.digest, events)
      invariant AllAnswered(env, start, events)
    {
      var from, end := |events|, if |events| + 50 <= |keys| then |events| + 50 else |keys|;
      var answered, more := ReadBatch(env, keys, start, events, end);
      ReadsAgree(env, keys, start, events, more);
      events := more;
      if !answered { return None, events; }
      taken := Push(env.digest, taken, events, from);
    }
    return Some(taken), events;
  }

  lemma ReadsAgree<D>(env: Env<D>, keys: seq<string>, start: nat, a: seq<Event<D>>, b: seq<Event<D>>)
    requires ReadsInOrder(env, keys, start, a) && ReadsInOrder(env, keys, start, b)
    ensures |a| <= |b| ==> b[..|a|] == a
  {
  }

  // ---- compare and delete ----

  /** What DELETE_UNCHANGED does to a key whose content at that moment is found. */
  predicate Unchanged<D(==)>(digest: Data -> D, found: Option<Stored>, entry: Entry<D>) {
    found.Some? && Canonical(found.value).Some? && digest(Canonical(found.value).value) == entry.digest
  }

  function NextCompare<D(==)>(env: Env<D>, entries: seq<Entry<D>>, start: nat, n: nat): Event<D>
    requires n < |entries|
  {
    var found := Lookup(env.store(start + n), entries[n].key);
    Compare(entries[n].key, found, Unchanged(env.digest, found, entries[n]))
  }

  ghost predicate ComparesInOrder<D>(env: Env<D>, entries: seq<Entry<D>>, start: nat, events: seq<Event<D>>) {
    |events| <= |entries|
    && forall i :: 0 <= i < |events| ==> events[i] == NextCompare(env, entries, start, i)
  }

  function Removals<D>(events: seq<Event<D>>): nat {
    if events == [] then 0
    else
      var last := events[|events| - 1];
      Removals(events[..|events| - 1]) + (if last.Compare? && last.removed then 1 else 0)
  }

  /** Where a request of comparisons stands. */
  ghost predicate Comparing<D>(env: Env<D>, entries: seq<Entry<D>>, start: nat, events: seq<Event<D>>, failed: bool) {
    // Folded, as Broken is.
    match env case Env(_, _, _, _, _, _) =>
      && ComparesInOrder(env, entries, start, events)
      && (!failed <==> AllSupported(events))
      && forall t :: start <= t < start + |events| ==> !env.lost(t)
  }

  lemma CompareStep<D>(env: Env<D>, entries: seq<Entry<D>>, start: nat, events: seq<Event<D>>, failed: bool)
    requires Comparing(env, entries, start, events, failed) && |events| < |entries| && !env.lost(start + |events|)
    ensures var compare := NextCompare(env, entries, start, |events|);
      Comparing(env, entries, start, events + [compare], failed || !Supported(compare))
  {
    NextCompareInOrder(env, entries, start, events);
    SupportedStep(events, NextCompare(env, entries, start, |events|));
  }

  lemma NextCompareInOrder<D>(env: Env<D>, entries: seq<Entry<D>>, start: nat, events: seq<Event<D>>)
    requires ComparesInOrder(env, entries, start, events) && |events| < |entries|
    ensures ComparesInOrder(env, entries, start, events + [NextCompare(env, entries, start, |events|)])
  {
    var compare := NextCompare(env, entries, start, |events|);
    forall i | 0 <= i < |events + [compare]| ensures (events + [compare])[i] == NextCompare(env, entries, start, i) {
      assert (events + [compare])[i] == if i < |events| then events[i] else compare;
    }
  }

  lemma RemovalsStep<D>(events: seq<Event<D>>, compare: Event<D>)
    requires compare.Compare?
    ensures Removals(events + [compare]) == Removals(events) + if compare.removed then 1 else 0
  {
    assert (events + [compare])[..|events|] == events;
  }

  /** One request of comparisons: how many keys it deleted, if it is answered. */
  method CompareBatch<D(==)>(env: Env<D>, entries: seq<Entry<D>>, start: nat, before: seq<Event<D>>, end: nat)
    returns (answered: bool, count: nat, events: seq<Event<D>>)
    requires ComparesInOrder(env, entries, start, before) && AllAnswered(env, start, before)
        && |before| < end <= |entries|
    ensures ComparesInOrder(env, entries, start, events) && |events| <= end
    ensures Removals(events) == Removals(before) + count
    ensures answered ==> |events| == end && AllAnswered(env, start, events)
    ensures !answered ==> Broken(env, start + |events|, events)
  {
    events, count := before, 0;
    var failed := false;
    while |events| < end
      invariant Comparing(env, entries, start, events, failed) && |events| <= end
      invariant Removals(events) == Removals(before) + count
    {
      if env.lost(start + |events|) { return false, count, events; }
      var compare := NextCompare(env, entries, start, |events|);
      CompareStep(env, entries, start, events, failed);
      RemovalsStep(events, compare);
      failed := failed || !Supported(compare);
      count := count + if compare.removed then 1 else 0;
      events := events + [compare];
    }
    answered := !failed && !env.lost(start + |events|);
  }

  /** Batches of 50 comparisons; an error reply or a lost connection ends the run, deletions done stay done. */
  method DeleteUnchanged<D(==)>(env: Env<D>, entries: seq<Entry<D>>, start: nat)
    returns (deleted: Option<nat>, events: seq<Event<D>>)
    ensures ComparesInOrder(env, entries, start, events)
    ensures deleted.Some? ==>
              |events| == |entries| && deleted.value == Removals(events) && AllAnswered(env, start, events)
    ensures deleted.None? ==> Broken(env, start + |events|, events)
  {
    events := [];
    var total := 0;
    while |events| < |entries|
      invariant ComparesInOrder(env, entries, start, events)
      invariant total == Removals(events)
      invariant AllAnswered(env, start, events)
    {
      var end := if |events| + 50 <= |entries| then |events| + 50 else |entries|;
      var answered, count;
      answered, count, events := CompareBatch(env, entries, start, events, end);
      if !answered { return None, events; }
      total := total + count;
    }
    return Some(total), events;
  }

  // ---- the whole run ----

  /** Reads of the keys in order, the flush of all their entries, comparisons of those entries in order. */
  ghost predicate BackedRun<D>(env: Env<D>, keys: seq<string>, log: seq<Event<D>>) {
    // Folded, as Broken is.
    match env case Env(_, _, _, _, _, _) =>
      && |keys| < |log|
      && ReadsInOrder(env, keys, 0, log[..|keys|])
      && AllSupported(log[..|keys|])
      && log[|keys|] == Flush(Captured(env.digest, log[..|keys|]))
      && ComparesInOrder(env, Captured(env.digest, log[..|keys|]), |keys| + 1, log[|keys| + 1..])
  }

  ghost predicate RunOf<D>(env: Env<D>, prefixes: seq<string>, keys: seq<string>, log: seq<Event<D>>) {
    Distinct(keys) && (forall k :: k in keys ==> UnderPrefix(prefixes, k))
    && (ReadsInOrder(env, keys, 0, log) || BackedRun(env, keys, log))
  }

  predicate Acceptable<D>(env: Env<D>, prefixes: seq<string>, apply: bool, backup: string) {
    prefixes != [] && (forall p :: p in prefixes ==> env.permitted(p)) && (apply ==> backup != "")
  }

  /** The body of the script: None when it ends in an error. */
  method CleanUp<D(==)>(env: Env<D>, prefixes: seq<string>, apply: bool, backup: string)
    returns (report: Option<Report>, log: seq<Event<D>>, ghost keys: seq<string>)
    ensures RunOf(env, prefixes, keys, log)
    ensures log != [] || report.Some? ==> Scanned(env, prefixes, keys)
    ensures !apply || backup == "" || !env.backupWritten ==> forall e :: e in log ==> e.Read?
    ensures report.Some? ==> prefixes != [] && (forall p :: p in prefixes ==> env.permitted(p))
                             && (apply ==> backup != "")
    ensures report.Some? ==> |log| >= |keys|
                             && report.value.found == |keys|
                             && report.value.backedUp == |Captured(env.digest, log[..|keys|])|
    ensures report.Some? && apply ==> |log| == |keys| + 1 + report.value.backedUp
                                      && report.value.deleted == Removals(log)
                                      && report.value.changedOrExpired >= 0
                                      && report.value.deleted + report.value.changedOrExpired == report.value.backedUp
    ensures report.Some? && !apply ==> report.value.deleted == 0 == report.value.changedOrExpired
    ensures report.None? ==>
              || prefixes == [] || (exists p :: p in prefixes && !env.permitted(p)) || (apply && backup == "")
              || ScanFails(env, prefixes) || (apply && !env.backupWritten)
              || Broken(env, |log|, log)
  {
    log, keys := [], [];
    if !Acceptable(env, prefixes, apply, backup) {
      return None, log, keys;
    }
    var scanned := Scan(env, prefixes);
    if scanned.None? {
      return None, log, keys;
    }
    keys := scanned.value;
    ScannedListed(env, prefixes, keys);
    report, log := Process(env, scanned.value, apply);
  }

  /** From the snapshot on: with apply, the backup is flushed before anything is compared. */
  method Process<D(==)>(env: Env<D>, keys: seq<string>, apply: bool)
      returns (report: Option<Report>, log: seq<Event<D>>)
    ensures ReadsInOrder(env, keys, 0, log) || BackedRun(env, keys, log)
    ensures !apply || !env.backupWritten ==> forall e :: e in log ==> e.Read?
    ensures report.Some? ==> |log| >= |keys| && report.value.found == |keys|
                             && report.value.backedUp == |Captured(env.digest, log[..|keys|])|
    ensures report.Some? && apply ==> |log| == |keys| + 1 + report.value.backedUp
                                      && report.value.deleted == Removals(log)
                                      && report.value.changedOrExpired >= 0
                                      && report.value.deleted + report.value.changedOrExpired == report.value.backedUp
    ensures report.Some? && !apply ==> report.value.deleted == 0 == report.value.changedOrExpired
    ensures report.None? ==> (apply && !env.backupWritten) || Broken(env, |log|, log)
  {
    var snapshots, taken := Snapshot(env, keys, 0);
    OnlyReads(env, keys, taken);
    if snapshots.None? || (apply && !env.backupWritten) {
      return None, taken;
    }
    var entries := snapshots.value;
    assert taken[..|keys|] == taken;
    if apply {
      report, log := FlushAndDelete(env, keys, taken, entries);
    } else {
      report, log := Some(Report(|keys|, |entries|, 0, 0)), taken;
    }
  }

  /** The flush of all entries, then their comparisons. */
  method FlushAndDelete<D(==)>(env: Env<D>, keys: seq<string>, taken: seq<Event<D>>, entries: seq<Entry<D>>)
    returns (report: Option<Report>, log: seq<Event<D>>)
    requires ReadsInOrder(env, keys, 0, taken) && |taken| == |keys| && AllSupported(taken)
    requires entries == Captured(env.digest, taken)
    ensures BackedRun(env, keys, log) && |Captured(env.digest, log[..|keys|])| == |entries|
    ensures report.Some? ==> report.value.found == |keys| && report.value.backedUp == |entries|
                             && |log| == |keys| + 1 + |entries|
                             && report.value.deleted == Removals(log) && report.value.changedOrExpired >= 0
                             && report.value.deleted + report.value.changedOrExpired == report.value.backedUp
    ensures report.None? ==> Broken(env, |log|, log)
  {
    var start := |keys| + 1;
    var deleted, compares := DeleteUnchanged(env, entries, start);
    log := Flushed(taken, entries, compares);
    LogIsBacked(env, keys, taken, entries, compares);
    if deleted.None? {
      LogBreaks(env, start, taken, entries, compares);
      return None, log;
    }
    LogRemovals(env, keys, taken, entries, compares);
    report := Some(Report(|keys|, |entries|, deleted.value, |entries| - deleted.value));
  }

  lemma ScannedListed<D>(env: Env<D>, prefixes: seq<string>, keys: seq<string>)
    requires Scanned(env, prefixes, keys)
    ensures forall k :: k in keys ==> UnderPrefix(prefixes, k)
  {
  }

  function Flushed<D>(taken: seq<Event<D>>, entries: seq<Entry<D>>, compares: seq<Event<D>>): (log: seq<Event<D>>)
    ensures |log| == |taken| + 1 + |compares|
  {
    taken + [Flush(entries)] + compares
  }

  lemma LogIsBacked<D>(env: Env<D>, keys: seq<string>, taken: seq<Event<D>>, entries: seq<Entry<D>>,
                       compares: seq<Event<D>>)
    requires ReadsInOrder(env, keys, 0, taken) && |taken| == |keys| && AllSupported(taken)
    requires entries == Captured(env.digest, taken) && ComparesInOrder(env, entries, |keys| + 1, compares)
    ensures var log := Flushed(taken, entries, compares);
      BackedRun(env, keys, log) && |Captured(env.digest, log[..|keys|])| == |entries|
  {
    var log := Flushed(taken, entries, compares);
    assert log[..|keys|] == taken && log[|keys| + 1..] == compares;
  }

  lemma LogRemovals<D>(env: Env<D>, keys: seq<string>, taken: seq<Event<D>>, entries: seq<Entry<D>>,
                       compares: seq<Event<D>>)
    requires ReadsInOrder(env, keys, 0, taken)
    ensures Removals(Flushed(taken, entries, compares)) == Removals(compares) <= |compares|
  {
    OnlyReads(env, keys, taken);
    NoRemovalsBefore(taken + [Flush(entries)], compares);
  }

  lemma LogBreaks<D>(env: Env<D>, start: nat, taken: seq<Event<D>>, entries: seq<Entry<D>>, compares: seq<Event<D>>)
    requires start == |taken| + 1 && Broken(env, start + |compares|, compares)
    ensures Broken(env, |Flushed(taken, entries, compares)|, Flushed(taken, entries, compares))
  {
    var log := Flushed(taken, entries, compares);
    forall e | e in compares ensures e in log {
      assert e in taken + [Flush(entries)] + compares;
    }
  }

  lemma {:induction false} NoRemovalsBefore<D>(events: seq<Event<D>>, compares: seq<Event<D>>)
    requires forall e :: e in events ==> !e.Compare?
    ensures Removals(events + compares) == Removals(compares) <= |compares|
  {
    if compares != [] {
      var init, last := compares[..|compares| - 1], compares[|compares| - 1];
      NoRemovalsBefore(events, init);
      assert (events + compares)[..|events + compares| - 1] == events + init;
    } else if events != [] {
      assert events + [] == events;
      NoRemovalsBefore(events[..|events| - 1], []);
      assert events[..|events| - 1] + [] == events[..|events| - 1];
    } else {
      assert events + compares == [];
    }
  }

  /** Every entry comes from a read of its key; later entries from later reads. */
  lemma {:induction false} EntryWasRead<D>(digest: Data -> D, events: seq<Event<D>>, i: nat) returns (r: nat)
    requires i < |Captured(digest, events)|
    ensures r < |events| && EntryOf(digest, events[r]) == [Captured(digest, events)[i]]
    ensures |Captured(digest, events[..r])| == i
  {
    var init := events[..|events| - 1];
    if i < |Captured(digest, init)| {
      r := EntryWasRead(digest, init, i);
      assert init[..r] == events[..r];
    } else {
      r := |events| - 1;
    }
  }

  /** With an injective digest, unchanged means: present, and the content the entry was taken from. */
  lemma UnchangedExactlyWhen<D>(digest: Data -> D, was: Stored, found: Option<Stored>, entry: Entry<D>)
    requires Injective(digest) && Canonical(was) == Some(entry.data) && entry.digest == digest(entry.data)
    ensures Unchanged(digest, found, entry) <==> found.Some? && SameContent(was, found.value)
    ensures Unchanged(digest, found, entry) ==> Canonical(found.value) == Some(entry.data)
  {
    if found.Some? && Canonical(found.value).Some? {
      ReadsEquallyExactlyWhen(was, found.value);
    }
  }

  lemma OnlyReads<D>(env: Env<D>, keys: seq<string>, events: seq<Event<D>>)
    ensures ReadsInOrder(env, keys, 0, events) ==> forall i :: 0 <= i < |events| ==> events[i].Read?
  {
    assert ReadsInOrder(env, keys, 0, events) ==>
        forall i :: 0 <= i < |events| ==> events[i] == NextRead(env, keys, 0, i);
  }

  /** A comparison in the log is that of one flushed entry. */
  lemma ComparedEntry<D>(env: Env<D>, prefixes: seq<string>, keys: seq<string>, log: seq<Event<D>>, c: nat)
      returns (i: nat)
    requires RunOf(env, prefixes, keys, log) && c < |log| && log[c].Compare?
    ensures BackedRun(env, keys, log) && c == |keys| + 1 + i && i < |Captured(env.digest, log[..|keys|])|
    ensures log[c] == NextCompare(env, Captured(env.digest, log[..|keys|]), |keys| + 1, i)
  {
    OnlyReads(env, keys, log);
    OnlyReads(env, keys, log[..|keys|]);
    forall k | 0 <= k < |keys| ensures log[k].Read? {
      assert log[k] == log[..|keys|][k];
    }
    i := c - (|keys| + 1);
    assert log[|keys| + 1..][i] == log[c];
  }

  /**
   * Backup before delete. Whatever other clients write between the steps, a key is compared only after an
   * entry for it, read from the store under a listed prefix, is in the flushed backup; and it is removed at
   * that moment if and only if its content then is still what that entry was read from.
   */
  lemma BackupBeforeDelete<D>(env: Env<D>, prefixes: seq<string>, keys: seq<string>, log: seq<Event<D>>, c: nat)
      returns (r: nat, f: nat, entry: Entry<D>)
    requires RunOf(env, prefixes, keys, log) && Injective(env.digest)
    requires c < |log| && log[c].Compare?
    ensures r < f < c && log[f].Flush? && entry in log[f].entries
    ensures entry.key == log[c].key && UnderPrefix(prefixes, entry.key)
    ensures log[r] == Read(entry.key, Lookup(env.store(r), entry.key))
    ensures log[c].found == Lookup(env.store(c), entry.key)
    ensures log[r].found.Some? && Canonical(log[r].found.value) == Some(entry.data)
    ensures log[c].removed <==> log[c].found.Some? && SameContent(log[r].found.value, log[c].found.value)
    ensures log[c].removed ==> Canonical(log[c].found.value) == Some(entry.data)
  {
    f := |keys|;
    var i := ComparedEntry(env, prefixes, keys, log, c);
    entry := Captured(env.digest, log[..f])[i];
    r := EntryWasRead(env.digest, log[..f], i);
    assert log[r] == log[..f][r] == NextRead(env, keys, 0, r);
    UnchangedExactlyWhen(env.digest, log[r].found.value, log[c].found, entry);
  }

  /** No key is compared, and so none deleted, twice. */
  lemma ComparedOnce<D>(env: Env<D>, prefixes: seq<string>, keys: seq<string>, log: seq<Event<D>>, c: nat, d: nat)
    requires RunOf(env, prefixes, keys, log)
    requires c < d < |log| && log[c].Compare? && log[d].Compare?
    ensures log[c].key != log[d].key
  {
    var taken := log[..|keys|];
    var i := ComparedEntry(env, prefixes, keys, log, c);
    var j := ComparedEntry(env, prefixes, keys, log, d);
    var r := EntryWasRead(env.digest, taken, i);
    var q := EntryWasRead(env.digest, taken, j);
    assert taken[r] == NextRead(env, keys, 0, r) && taken[q] == NextRead(env, keys, 0, q);
  }

  /** What was found is captured. */
  lemma {:induction false} FoundIsCaptured<D>(digest: Data -> D, events: seq<Event<D>>, r: nat)
      returns (entry: Entry<D>)
    requires r < |events| && events[r].Read? && events[r].found.Some? && !events[r].found.value.Unsupported?
    ensures entry in Captured(digest, events) && entry.key == events[r].key
    ensures Canonical(events[r].found.value) == Some(entry.data) && entry.digest == digest(entry.data)
  {
    var init := events[..|events| - 1];
    if r < |init| {
      entry := FoundIsCaptured(digest, init, r);
    } else {
      entry := Entry(events[r].key, digest(Canonical(events[r].found.value).value),
                     Canonical(events[r].found.value).value);
      assert EntryOf(digest, events[r]) == [entry];
    }
  }

  /**
   * The backup is complete: each scanned key was read once before the flush, and if it was found there, the flushed
   * entries include one for it, from which that content can be restored.
   */
  lemma BackupIsComplete<D>(env: Env<D>, prefixes: seq<string>, keys: seq<string>, log: seq<Event<D>>, f: nat, r: nat)
    requires RunOf(env, prefixes, keys, log) && f < |log| && log[f].Flush? && r < |keys|
    ensures f == |keys| && log[r] == Read(keys[r], Lookup(env.store(r), keys[r]))
    ensures log[r].found.Some? ==>
              exists entry :: entry in log[f].entries && entry.key == keys[r]
                              && SameContent(log[r].found.value, Restored(entry.data))
                              && entry.digest == env.digest(entry.data)
  {
    FlushIsBehindReads(env, prefixes, keys, log, f);
    var taken := log[..|keys|];
    assert log[r] == taken[r] == NextRead(env, keys, 0, r);
    if log[r].found.Some? {
      assert taken[r] in taken && Supported(taken[r]);
      var entry := FoundIsCaptured(env.digest, taken, r);
      ReadingRestores(log[r].found.value);
      assert entry in log[f].entries;
    }
  }

  lemma FlushIsBehindReads<D>(env: Env<D>, prefixes: seq<string>, keys: seq<string>, log: seq<Event<D>>, f: nat)
    requires RunOf(env, prefixes, keys, log) && f < |log| && log[f].Flush?
    ensures f == |keys| && BackedRun(env, keys, log)
  {
    OnlyReads(env, keys, log);
    OnlyReads(env, keys, log[..|keys|]);
  }
}
