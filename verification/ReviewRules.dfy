/**
 * The rules for bridging a review, stated over the snapshot alone: the assessment denies for the first of them that
 * fails and is eligible if none does. Nothing here is used by the assessment.
 */
module ReviewRules {
  import opened Basics
  import opened ReviewAssessment

  predicate CodexAccount(user: User) {
    user.id == 199175422 && user.login == "chatgpt-codex-connector[bot]"
  }

  predicate WorkflowBot(user: User) {
    user.id == 41898282 && user.login == "github-actions[bot]" && user.bot
  }

  predicate Guarded(name: string) {
    || ".github/" <= name
    || name == "scripts/codex-review-approval.js"
    || name == "tests/scripts/codex-review-approval.spec.ts"
  }

  // ---- the rules, in order ----

  predicate Ready(s: Snapshot) {
    s.pr.open && !s.pr.draft && s.pr.baseRef == "develop"
  }

  predicate SameRepository(s: Snapshot) {
    s.pr.headRepo.Some? && s.pr.headRepo.value == s.pr.baseRepo
  }

  predicate AuthorityUntouched(s: Snapshot) {
    forall file :: file in s.files ==> !Guarded(file.filename) && !Guarded(file.previousFilename)
  }

  predicate FilesComplete(s: Snapshot) {
    |s.files| == s.pr.changedFiles
  }

  predicate Summarizes(c: Comment) {
    CodexAccount(c.user) && c.user.bot && "<!-- codex-pull-request-review-summary -->" <= c.body
  }

  ghost predicate TheSummary(s: Snapshot, c: Comment) {
    exists i :: 0 <= i < |s.comments| && s.comments[i] == c && Summarizes(c)
      && forall j :: 0 <= j < |s.comments| && j != i ==> !Summarizes(s.comments[j])
  }

  ghost predicate OneSummary(s: Snapshot) {
    exists c :: TheSummary(s, c)
  }

  predicate HasCodeReview(c: Comment) {
    exists row :: row in c.rows && row.codeReview
  }

  /** Every row was completed by now, at a prefix of the head. */
  predicate RowsDone(s: Snapshot, c: Comment, now: int) {
    forall row :: row in c.rows ==>
      row.completedAt.Some? && row.completedAt.value <= now && row.sha.Some? && row.sha.value <= s.pr.headSha
  }

  predicate NotRunning(s: Snapshot) {
    forall r :: r in s.reactions ==> !(CodexAccount(r.user) && r.content == Eyes)
  }

  /** A thumb of Codex, up to now, and not before the second in which any row was completed. */
  predicate FreshThumb(r: Reaction, c: Comment, now: int) {
    && CodexAccount(r.user) && r.content == ThumbsUp && r.createdAt.Some? && r.createdAt.value <= now
    && forall row :: row in c.rows && row.completedAt.Some? ==>
         r.createdAt.value >= row.completedAt.value - row.completedAt.value % 1000
  }

  predicate HasFreshThumb(s: Snapshot, c: Comment, now: int) {
    exists r :: r in s.reactions && FreshThumb(r, c, now)
  }

  predicate NoFindings(s: Snapshot) {
    && (forall r :: r in s.reviews && CodexAccount(r.user) && r.user.bot && r.commitId == s.pr.headSha ==>
          r.state == Dismissed || r.state == Approved)
    && (forall r :: r in s.inlineComments && CodexAccount(r.user) && r.user.bot ==>
          r.originalCommitId != s.pr.headSha)
  }

  /** A request for changes by the workflow's own earlier version, which could not decide. */
  predicate LegacyRequest(r: Review) {
    && WorkflowBot(r.user) && r.state == RequestedChanges
    && ("Automated AI review did not produce a valid structured decision for HEAD " + r.commitId + "." <= r.body
        || "Automated AI review did not complete a decisive review for HEAD " + r.commitId + "." <= r.body)
  }

  predicate Decides(r: Review) {
    (r.state == Approved || r.state == RequestedChanges) && !LegacyRequest(r)
  }

  /** Whoever requested changes has decided again since. */
  ghost predicate RequestsSuperseded(s: Snapshot) {
    forall r :: r in s.reviews && Decides(r) && r.state == RequestedChanges ==>
      exists later :: later in s.reviews && Decides(later) && later.user.id == r.user.id && later.id > r.id
  }

  /** The reason that goes with the first rule that fails. */
  ghost function FirstFailing(s: Snapshot, now: int): Option<Reason> {
    if !Ready(s) then Some(NotReady)
    else if !SameRepository(s) then Some(ExternalPr)
    else if !AuthorityUntouched(s) then Some(AuthorityChange)
    else if !FilesComplete(s) then Some(IncompleteFiles)
    else if !OneSummary(s) then Some(NoSingleSummary)
    else FailingOf(s, now, TheOne(s))
  }

  ghost function TheOne(s: Snapshot): Comment
    requires OneSummary(s)
  {
    var c :| TheSummary(s, c); c
  }

  ghost function FailingOf(s: Snapshot, now: int, c: Comment): Option<Reason> {
    if !HasCodeReview(c) then Some(MissingCodeReview)
    else if !RowsDone(s, c, now) then Some(UnsupportedRow)
    else if !NotRunning(s) then Some(StillRunning)
    else if !HasFreshThumb(s, c, now) then Some(NoFreshReaction)
    else if !NoFindings(s) then Some(ReportedFindings)
    else if !RequestsSuperseded(s) then Some(ChangesRequested)
    else None
  }

  // ---- the checks of the assessment are these rules ----

  lemma SameAccounts(user: User)
    ensures IsCodex(user) == CodexAccount(user) && IsActionsBot(user) == WorkflowBot(user)
  {
  }

  lemma SameAuthority(s: Snapshot)
    ensures TouchesAuthority(s.files) <==> !AuthorityUntouched(s)
  {
    if file :| file in s.files && (Guarded(file.filename) || Guarded(file.previousFilename)) {
      var i :| 0 <= i < |s.files| && s.files[i] == file;
      assert IsAuthority(s.files[i].filename) || IsAuthority(s.files[i].previousFilename);
    }
  }

  lemma {:induction false} SummariesAre(comments: seq<Comment>)
    ensures forall c :: c in Summaries(comments) <==> c in comments && Summarizes(c)
    ensures |Summaries(comments)| >= 2 <==>
              exists i, j :: 0 <= i < j < |comments| && Summarizes(comments[i]) && Summarizes(comments[j])
  {
    if comments != [] {
      var init, last := comments[..|comments| - 1], comments[|comments| - 1];
      SummariesAre(init);
      assert comments == init + [last];
      if Summarizes(last) && Summaries(init) != [] {
        var c := Summaries(init)[0];
        assert c in init && Summarizes(c);
        var i :| 0 <= i < |init| && init[i] == c;
        assert comments[i] == c && comments[|comments| - 1] == last;
      }
      if i, j :| 0 <= i < j < |comments| && Summarizes(comments[i]) && Summarizes(comments[j]) {
        assert comments[i] == init[i] && init[i] in init;
        if j < |init| { assert comments[j] == init[j]; }
      }
    }
  }

  lemma SameSummary(s: Snapshot)
    ensures |Summaries(s.comments)| == 1 <==> OneSummary(s)
    ensures |Summaries(s.comments)| == 1 ==> TheSummary(s, Summaries(s.comments)[0])
    ensures forall c, d :: TheSummary(s, c) && TheSummary(s, d) ==> c == d
  {
    var found := Summaries(s.comments);
    SummariesAre(s.comments);
    if |found| == 1 {
      assert found[0] in found;
      var i :| 0 <= i < |s.comments| && s.comments[i] == found[0];
      forall j | 0 <= j < |s.comments| && j != i ensures !Summarizes(s.comments[j]) {
        assert i < j || j < i;
      }
      assert TheSummary(s, found[0]);
    }
    if c :| TheSummary(s, c) {
      assert c in s.comments && c in found;
    }
  }

  lemma SameCodeReview(c: Comment)
    ensures HasCodeReview(c) <==> exists i :: 0 <= i < |c.rows| && c.rows[i].codeReview
  {
    if row :| row in c.rows && row.codeReview {
      var i :| 0 <= i < |c.rows| && c.rows[i] == row;
      assert c.rows[i].codeReview;
    }
  }

  lemma SameRunning(s: Snapshot)
    ensures NotRunning(s) <==>
              !exists i :: 0 <= i < |s.reactions| && IsCodex(s.reactions[i].user) && s.reactions[i].content == Eyes
  {
    if r :| r in s.reactions && CodexAccount(r.user) && r.content == Eyes {
      var i :| 0 <= i < |s.reactions| && s.reactions[i] == r;
      assert IsCodex(s.reactions[i].user);
    }
  }

  lemma SameRows(s: Snapshot, c: Comment, now: int)
    ensures AllCompleted(c.rows, s.pr.headSha, now) <==> RowsDone(s, c, now)
  {
    if RowsDone(s, c, now) {
      forall i | 0 <= i < |c.rows| ensures RowCompleted(c.rows[i], s.pr.headSha, now) {
        assert c.rows[i] in c.rows;
      }
    }
  }

  lemma SameSecond(a: int, b: int)
    ensures a / 1000 * 1000 == a - a % 1000
    ensures a <= b ==> a - a % 1000 <= b - b % 1000
  {
  }

  /** A thumb is fresh after the latest completion if it is after every one. */
  lemma SameThumb(s: Snapshot, c: Comment, now: int, r: Reaction)
    requires c.rows != [] && RowsDone(s, c, now)
    ensures AllCompleted(c.rows, s.pr.headSha, now)
    ensures IsFreshThumb(r, Latest(Times(c.rows)), now) <==> FreshThumb(r, c, now)
  {
    SameRows(s, c, now);
    var times := Times(c.rows);
    var latest := Latest(times);
    assert latest / 1000 * 1000 == latest - latest % 1000 by { SameSecond(latest, latest); }
    forall row | row in c.rows ensures row.completedAt.value - row.completedAt.value % 1000 <= latest - latest % 1000 {
      var i :| 0 <= i < |c.rows| && c.rows[i] == row;
      assert times[i] == row.completedAt.value;
      SameSecond(row.completedAt.value, latest);
    }
    var i :| 0 <= i < |times| && times[i] == latest;
    assert c.rows[i] in c.rows && c.rows[i].completedAt == Some(latest);
  }

  /** The first of the reactions that is a fresh thumb. */
  ghost predicate IsFirstThumb(s: Snapshot, c: Comment, now: int, i: nat) {
    i < |s.reactions| && FreshThumb(s.reactions[i], c, now)
    && forall j :: 0 <= j < i ==> !FreshThumb(s.reactions[j], c, now)
  }

  lemma {:induction false} FirstFreshIsFirst(reactions: seq<Reaction>, completedAt: int, now: int) returns (i: nat)
    requires FirstFresh(reactions, completedAt, now).Some?
    ensures i < |reactions| && FirstFresh(reactions, completedAt, now) == Some(reactions[i])
    ensures forall j :: 0 <= j < i ==> !IsFreshThumb(reactions[j], completedAt, now)
  {
    if IsFreshThumb(reactions[0], completedAt, now) {
      i := 0;
    } else {
      var k := FirstFreshIsFirst(reactions[1..], completedAt, now);
      i := k + 1;
      forall j | 0 <= j < i ensures !IsFreshThumb(reactions[j], completedAt, now) {
        assert j > 0 ==> reactions[1..][j - 1] == reactions[j];
      }
    }
  }

  lemma SameThumbs(s: Snapshot, c: Comment, now: int)
    requires c.rows != [] && RowsDone(s, c, now)
    ensures AllCompleted(c.rows, s.pr.headSha, now)
    ensures FirstFresh(s.reactions, Latest(Times(c.rows)), now).Some? <==> HasFreshThumb(s, c, now)
  {
    SameRows(s, c, now);
    forall r ensures IsFreshThumb(r, Latest(Times(c.rows)), now) <==> FreshThumb(r, c, now) {
      SameThumb(s, c, now, r);
    }
    if r :| r in s.reactions && FreshThumb(r, c, now) {
      var i :| 0 <= i < |s.reactions| && s.reactions[i] == r;
      assert IsFreshThumb(s.reactions[i], Latest(Times(c.rows)), now);
    }
  }

  lemma SameFindings(s: Snapshot)
    ensures NoFindings(s) <==>
              !(ReviewFindings(s.reviews, s.pr.headSha) || InlineFindings(s.inlineComments, s.pr.headSha))
  {
    FindingsAsElements(s.reviews, s.pr.headSha);
    if r :| r in s.inlineComments && CodexAccount(r.user) && r.user.bot && r.originalCommitId == s.pr.headSha {
      var i :| 0 <= i < |s.inlineComments| && s.inlineComments[i] == r;
      assert IsCodexBot(s.inlineComments[i].user);
    }
  }

  lemma SameRequests(s: Snapshot)
    ensures StillRequested(s.reviews) <==> !RequestsSuperseded(s)
  {
    assert forall r :: IsDecision(r) <==> Decides(r);
    if StillRequested(s.reviews) {
      var r :| r in s.reviews && OutstandingRequest(s.reviews, r);
      assert r in s.reviews && Decides(r) && r.state == RequestedChanges;
    }
    if r :| r in s.reviews && Decides(r) && r.state == RequestedChanges
            && !exists later :: later in s.reviews && Decides(later) && later.user.id == r.user.id && later.id > r.id {
      assert OutstandingRequest(s.reviews, r);
    }
  }

  /** What the assessment makes of the one summary. */
  lemma SummaryByRules(s: Snapshot, c: Comment, now: int)
    ensures match AssessedSummary(s, c, now)
            case Denied(reason) => FailingOf(s, now, c) == Some(reason)
            case Eligible(_, _, _, _) => FailingOf(s, now, c) == None
  {
    SameCodeReview(c);
    SameRows(s, c, now);
    SameRunning(s);
    if HasCodeReview(c) && RowsDone(s, c, now) {
      SameThumbs(s, c, now);
    }
    SameFindings(s);
    SameRequests(s);
  }

  /** The assessment denies for the first rule that fails, and is eligible exactly if none does. */
  lemma AssessedByRules(s: Snapshot, now: int)
    ensures match Assessed(s, now)
            case Denied(reason) => FirstFailing(s, now) == Some(reason)
            case Eligible(_, _, _, _) => FirstFailing(s, now) == None
  {
    SameAuthority(s);
    SameSummary(s);
    if OneSummary(s) {
      SummaryByRules(s, TheOne(s), now);
    }
  }

  predicate IsLatestRow(c: Comment, row: Row) {
    && row in c.rows && row.completedAt.Some?
    && forall other :: other in c.rows && other.completedAt.Some? ==> other.completedAt.value <= row.completedAt.value
  }

  lemma LatestRow(s: Snapshot, c: Comment, now: int) returns (row: Row)
    requires c.rows != [] && RowsDone(s, c, now)
    ensures AllCompleted(c.rows, s.pr.headSha, now)
    ensures IsLatestRow(c, row) && row.completedAt.value == Latest(Times(c.rows))
  {
    SameRows(s, c, now);
    var times := Times(c.rows);
    var k :| 0 <= k < |times| && times[k] == Latest(times);
    row := c.rows[k];
    assert row.completedAt.value == times[k];
    forall other | other in c.rows && other.completedAt.Some?
      ensures other.completedAt.value <= row.completedAt.value
    {
      var j :| 0 <= j < |c.rows| && c.rows[j] == other;
      assert other.completedAt.value == times[j] <= Latest(times);
    }
  }

  lemma FirstThumb(s: Snapshot, c: Comment, now: int) returns (i: nat)
    requires c.rows != [] && RowsDone(s, c, now) && HasFreshThumb(s, c, now)
    ensures AllCompleted(c.rows, s.pr.headSha, now)
    ensures IsFirstThumb(s, c, now, i)
    ensures FirstFresh(s.reactions, Latest(Times(c.rows)), now) == Some(s.reactions[i])
  {
    SameThumbs(s, c, now);
    i := FirstFreshIsFirst(s.reactions, Latest(Times(c.rows)), now);
    forall j | 0 <= j <= i ensures IsFreshThumb(s.reactions[j], Latest(Times(c.rows)), now)
                                   <==> FreshThumb(s.reactions[j], c, now) {
      SameThumb(s, c, now, s.reactions[j]);
    }
  }

  /**
   * An eligible verdict names the head that was read, and cites the one summary, the latest completion among its rows
   * and the first thumb that is fresh.
   */
  lemma EligibleCites(s: Snapshot, now: int) returns (c: Comment, row: Row, i: nat)
    requires FirstFailing(s, now) == None
    ensures TheSummary(s, c) && IsLatestRow(c, row) && IsFirstThumb(s, c, now, i)
    ensures Assessed(s, now) == Eligible(
        s.pr.headSha,
        Decimal(c.id) + ":" + ShowInt(row.completedAt.value) + ":" + Decimal(s.reactions[i].id),
        c.url, s.reactions[i].id)
  {
    AssessedByRules(s, now);
    SameSummary(s);
    c := TheOne(s);
    row := LatestRow(s, c, now);
    i := FirstThumb(s, c, now);
  }
}
