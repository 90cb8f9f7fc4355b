/** Whether a pull request snapshot carries fresh, official, no-findings review evidence. */
module ReviewAssessment {
  import opened Basics
  import opened JsText
  import opened Sorting

  /** bot: the account type is Bot. */
  datatype User = User(id: nat, login: string, bot: bool)

  datatype ReviewState = Approved | RequestedChanges | Dismissed | OtherState

  datatype Emoji = ThumbsUp | Eyes | OtherEmoji

  type Id = n: nat | n > 0 witness 1

  datatype Review = Review(id: Id, user: User, state: ReviewState, commitId: string, body: string)

  /** A row of the summary table: its status is Some(time) when completed at a parsable time. */
  datatype Row = Row(codeReview: bool, completedAt: Option<int>, sha: Option<string>)

  datatype Comment = Comment(id: Id, user: User, body: string, url: string, rows: seq<Row>)

  datatype Reaction = Reaction(id: Id, user: User, content: Emoji, createdAt: Option<int>)

  datatype InlineComment = InlineComment(user: User, originalCommitId: string)

  datatype File = File(filename: string, previousFilename: string)

  datatype PullRequest = PullRequest(
    open: bool, draft: bool, baseRef: string, baseRepo: string, headRepo: Option<string>,
    headSha: string, changedFiles: nat)

  datatype Snapshot = Snapshot(
    pr: PullRequest, files: seq<File>, comments: seq<Comment>, reactions: seq<Reaction>,
    reviews: seq<Review>, inlineComments: seq<InlineComment>)

  datatype Reason =
    | NotReady | ExternalPr | AuthorityChange | IncompleteFiles | NoSingleSummary | MissingCodeReview
    | UnsupportedRow | StillRunning | NoFreshReaction | ReportedFindings | ChangesRequested

  datatype Verdict =
    | Denied(reason: Reason)
    | Eligible(head: string, evidence: string, summaryUrl: string, reactionId: Id)

  const CODEX_ID: nat := 199175422
  const CODEX_LOGIN := "chatgpt-codex-connector[bot]"
  const ACTIONS_ID: nat := 41898282
  const ACTIONS_LOGIN := "github-actions[bot]"
  const MARKER := "<!-- codex-verified-approval:v1 -->"
  const SUMMARY := "<!-- codex-pull-request-review-summary -->"
  const LEGACY_NO_DECISION := "Automated AI review did not produce a valid structured decision for HEAD "
  const LEGACY_INCOMPLETE := "Automated AI review did not complete a decisive review for HEAD "

  predicate IsCodex(user: User) {
    user.id == CODEX_ID && user.login == CODEX_LOGIN
  }

  predicate IsCodexBot(user: User) {
    IsCodex(user) && user.bot
  }

  predicate IsActionsBot(user: User) {
    user.id == ACTIONS_ID && user.login == ACTIONS_LOGIN && user.bot
  }

  predicate IsOwnApproval(review: Review) {
    IsActionsBot(review.user) && review.state == Approved && MARKER <= review.body
  }

  predicate IsLegacyFailure(review: Review) {
    IsActionsBot(review.user) && review.state == RequestedChanges
    && (LEGACY_NO_DECISION + review.commitId + "." <= review.body
        || LEGACY_INCOMPLETE + review.commitId + "." <= review.body)
  }

  // ---- the pieces of the assessment ----

  predicate IsAuthority(name: string) {
    ".github/" <= name || name == "scripts/codex-review-approval.js"
    || name == "tests/scripts/codex-review-approval.spec.ts"
  }

  predicate TouchesAuthority(files: seq<File>) {
    exists i :: 0 <= i < |files| && (IsAuthority(files[i].filename) || IsAuthority(files[i].previousFilename))
  }

  function Summaries(comments: seq<Comment>): seq<Comment> {
    if comments == [] then []
    else Summaries(comments[..|comments| - 1]) +
         (var c := comments[|comments| - 1]; if IsCodexBot(c.user) && SUMMARY <= c.body then [c] else [])
  }

  predicate RowCompleted(row: Row, headSha: string, now: int) {
    row.completedAt.Some? && row.sha.Some? && row.sha.value <= headSha && row.completedAt.value <= now
  }

  predicate AllCompleted(rows: seq<Row>, headSha: string, now: int) {
    forall i :: 0 <= i < |rows| ==> RowCompleted(rows[i], headSha, now)
  }

  /** Math.max over the completion times. */
  function Latest(times: seq<int>): (latest: int)
    requires times != []
    ensures latest in times && forall i :: 0 <= i < |times| ==> times[i] <= latest
  {
    if |times| == 1 then times[0]
    else var before := Latest(times[..|times| - 1]);
         if times[|times| - 1] > before then times[|times| - 1] else before
  }

  function Times(rows: seq<Row>): (times: seq<int>)
    requires forall i :: 0 <= i < |rows| ==> rows[i].completedAt.Some?
    ensures |times| == |rows|
  {
    seq(|rows|, i requires 0 <= i < |rows| => rows[i].completedAt.value)
  }

  predicate IsFreshThumb(r: Reaction, completedAt: int, now: int) {
    IsCodex(r.user) && r.content == ThumbsUp && r.createdAt.Some?
    && r.createdAt.value >= completedAt / 1000 * 1000 && r.createdAt.value <= now
  }

  function FirstFresh(reactions: seq<Reaction>, completedAt: int, now: int): (found: Option<Reaction>)
    ensures found.Some? <==> exists i :: 0 <= i < |reactions| && IsFreshThumb(reactions[i], completedAt, now)
    ensures found.Some? ==> found.value in reactions && IsFreshThumb(found.value, completedAt, now)
  {
    if reactions == [] then None
    else if IsFreshThumb(reactions[0], completedAt, now) then Some(reactions[0])
    else FirstFresh(reactions[1..], completedAt, now)
  }

  predicate IsFinding(review: Review, headSha: string) {
    IsCodexBot(review.user) && review.commitId == headSha && review.state != Dismissed && review.state != Approved
  }

  predicate ReviewFindings(reviews: seq<Review>, headSha: string) {
    exists i :: 0 <= i < |reviews| && IsFinding(reviews[i], headSha)
  }

  predicate InlineFindings(comments: seq<InlineComment>, headSha: string) {
    exists i :: 0 <= i < |comments| && IsCodexBot(comments[i].user) && comments[i].originalCommitId == headSha
  }

  predicate IsDecision(review: Review) {
    !IsLegacyFailure(review) && (review.state == Approved || review.state == RequestedChanges)
  }

  /** A request for changes that its author has not superseded by a later decision. */
  ghost predicate OutstandingRequest(reviews: seq<Review>, r: Review) {
    IsDecision(r) && r.state == RequestedChanges
    && forall q :: q in reviews && IsDecision(q) && q.user.id == r.user.id ==> q.id <= r.id
  }

  ghost predicate StillRequested(reviews: seq<Review>) {
    exists r :: r in reviews && OutstandingRequest(reviews, r)
  }

  ghost predicate DistinctIds(reviews: seq<Review>) {
    forall i, j :: 0 <= i < j < |reviews| ==> reviews[i].id != reviews[j].id
  }

  // ---- the verdict ----

  ghost function Assessed(s: Snapshot, now: int): Verdict {
    var pr := s.pr;
    var summaries := Summaries(s.comments);
    if !pr.open || pr.draft || pr.baseRef != "develop" then Denied(NotReady)
    else if pr.headRepo != Some(pr.baseRepo) then Denied(ExternalPr)
    else if TouchesAuthority(s.files) then Denied(AuthorityChange)
    else if |s.files| != pr.changedFiles then Denied(IncompleteFiles)
    else if |summaries| != 1 then Denied(NoSingleSummary)
    else AssessedSummary(s, summaries[0], now)
  }

  ghost function AssessedSummary(s: Snapshot, summary: Comment, now: int): Verdict {
    if !exists i :: 0 <= i < |summary.rows| && summary.rows[i].codeReview then Denied(MissingCodeReview)
    else if !AllCompleted(summary.rows, s.pr.headSha, now) then Denied(UnsupportedRow)
    else
      var completedAt := Latest(Times(summary.rows));
      if exists i :: 0 <= i < |s.reactions| && IsCodex(s.reactions[i].user) && s.reactions[i].content == Eyes
      then Denied(StillRunning)
      else match FirstFresh(s.reactions, completedAt, now)
        case None => Denied(NoFreshReaction)
        case Some(reaction) =>
          if ReviewFindings(s.reviews, s.pr.headSha) || InlineFindings(s.inlineComments, s.pr.headSha)
          then Denied(ReportedFindings)
          else if StillRequested(s.reviews) then Denied(ChangesRequested)
          else Eligible(s.pr.headSha, EvidenceOf(summary.id, completedAt, reaction.id), summary.url, reaction.id)
  }

  function ShowInt(n: int): string {
    if n < 0 then "-" + Decimal(-n) else Decimal(n)
  }

  function EvidenceOf(summaryId: nat, completedAt: int, reactionId: nat): string {
    Decimal(summaryId) + ":" + ShowInt(completedAt) + ":" + Decimal(reactionId)
  }

  // ---- the program ----

  function ById(a: Review, b: Review): bool {
    a.id <= b.id
  }

  ghost predicate IsLastDecision(reviews: seq<Review>, i: int, user: nat) {
    && 0 <= i < |reviews| && IsDecision(reviews[i]) && reviews[i].user.id == user
    && forall j :: i < j < |reviews| && IsDecision(reviews[j]) ==> reviews[j].user.id != user
  }

  /** The decisions map after a loop over the reviews: each user's last decision. */
  ghost predicate Tracks(decisions: map<nat, ReviewState>, reviews: seq<Review>) {
    && (forall user :: user in decisions ==>
          exists i :: IsLastDecision(reviews, i, user) && decisions[user] == reviews[i].state)
    && (forall i :: 0 <= i < |reviews| && IsDecision(reviews[i]) ==> reviews[i].user.id in decisions)
  }

  lemma TracksOneMore(decisions: map<nat, ReviewState>, reviews: seq<Review>, review: Review)
    requires Tracks(decisions, reviews)
    ensures Tracks(if IsDecision(review) then decisions[review.user.id := review.state] else decisions,
                   reviews + [review])
  {
    var after := if IsDecision(review) then decisions[review.user.id := review.state] else decisions;
    var longer := reviews + [review];
    forall user | user in after
      ensures exists i :: IsLastDecision(longer, i, user) && after[user] == longer[i].state
    {
      if IsDecision(review) && user == review.user.id {
        assert IsLastDecision(longer, |reviews|, user);
      } else {
        var i :| IsLastDecision(reviews, i, user) && decisions[user] == reviews[i].state;
        assert IsLastDecision(longer, i, user);
      }
    }
  }

  /** Replays the reviews by id and asks whether any user's last decision requests changes. */
  method ChangesStillRequested(reviews: seq<Review>) returns (requested: bool)
    requires DistinctIds(reviews)
    ensures requested <==> StillRequested(reviews)
  {
    var sorted := Sort(reviews, ById);
    var decisions: map<nat, ReviewState> := map[];
    for k := 0 to |sorted|
      invariant Tracks(decisions, sorted[..k])
    {
      var review := sorted[k];
      TracksOneMore(decisions, sorted[..k], review);
      assert sorted[..k + 1] == sorted[..k] + [review];
      if !IsLegacyFailure(review) && (review.state == Approved || review.state == RequestedChanges) {
        decisions := decisions[review.user.id := review.state];
      }
    }
    assert sorted[..|sorted|] == sorted;
    requested := exists user :: user in decisions.Keys && decisions[user] == RequestedChanges;
    SortSorts(reviews, ById);
    LastDecisionsDecide(reviews, sorted, decisions);
  }

  lemma LastDecisionsDecide(reviews: seq<Review>, sorted: seq<Review>, decisions: map<nat, ReviewState>)
    requires DistinctIds(reviews) && Sorted(sorted, ById) && multiset(sorted) == multiset(reviews)
    requires Tracks(decisions, sorted)
    ensures StillRequested(reviews) <==> exists user :: user in decisions && decisions[user] == RequestedChanges
  {
    SameElements(reviews, sorted);
    if StillRequested(reviews) {
      var r :| r in reviews && OutstandingRequest(reviews, r);
      OutstandingIsLast(reviews, sorted, decisions, r);
    }
    if user :| user in decisions && decisions[user] == RequestedChanges {
      var i :| IsLastDecision(sorted, i, user) && decisions[user] == sorted[i].state;
      LastIsOutstanding(reviews, sorted, i, user);
    }
  }

  lemma OutstandingIsLast(reviews: seq<Review>, sorted: seq<Review>, decisions: map<nat, ReviewState>, r: Review)
    requires DistinctIds(reviews) && Sorted(sorted, ById) && Tracks(decisions, sorted)
    requires forall x :: x in reviews <==> x in sorted
    requires r in reviews && OutstandingRequest(reviews, r)
    ensures r.user.id in decisions && decisions[r.user.id] == RequestedChanges
  {
    var k :| 0 <= k < |sorted| && sorted[k] == r;
    var i :| IsLastDecision(sorted, i, r.user.id) && decisions[r.user.id] == sorted[i].state;
    assert sorted[i] in reviews;
    assert k <= i;
    assert i == k || ById(sorted[k], sorted[i]);
    IdsIdentify(reviews, r, sorted[i]);
  }

  lemma LastIsOutstanding(reviews: seq<Review>, sorted: seq<Review>, i: int, user: nat)
    requires Sorted(sorted, ById) && forall x :: x in reviews <==> x in sorted
    requires IsLastDecision(sorted, i, user) && sorted[i].state == RequestedChanges
    ensures sorted[i] in reviews && OutstandingRequest(reviews, sorted[i])
  {
    forall q | q in reviews && IsDecision(q) && q.user.id == user ensures q.id <= sorted[i].id {
      var k :| 0 <= k < |sorted| && sorted[k] == q;
      assert k <= i;
      assert i == k || ById(sorted[k], sorted[i]);
    }
    assert sorted[i] in sorted;
  }

  lemma SameElements<T>(xs: seq<T>, ys: seq<T>)
    requires multiset(xs) == multiset(ys)
    ensures forall x :: x in xs <==> x in ys
  {
    assert forall x :: x in xs <==> x in multiset(xs);
  }

  lemma IdsIdentify(reviews: seq<Review>, q: Review, r: Review)
    requires DistinctIds(reviews) && q in reviews && r in reviews
    ensures q.id <= r.id && r.id <= q.id ==> q == r
  {
  }

  method Assess(s: Snapshot, now: int) returns (verdict: Verdict)
    requires DistinctIds(s.reviews)
    ensures verdict == Assessed(s, now)
  {
    var pr := s.pr;
    if !pr.open || pr.draft || pr.baseRef != "develop" { return Denied(NotReady); }
    if pr.headRepo != Some(pr.baseRepo) { return Denied(ExternalPr); }
    if TouchesAuthority(s.files) { return Denied(AuthorityChange); }
    if |s.files| != pr.changedFiles { return Denied(IncompleteFiles); }
    var summaries := Summaries(s.comments);
    if |summaries| != 1 { return Denied(NoSingleSummary); }
    var summary := summaries[0];
    if !exists i :: 0 <= i < |summary.rows| && summary.rows[i].codeReview { return Denied(MissingCodeReview); }
    var completed: seq<int> := [];
    for k := 0 to |summary.rows|
      invariant forall i :: 0 <= i < k ==> RowCompleted(summary.rows[i], pr.headSha, now)
      invariant |completed| == k && forall i :: 0 <= i < k ==> completed[i] == summary.rows[i].completedAt.value
    {
      var row := summary.rows[k];
      if !RowCompleted(row, pr.headSha, now) { return Denied(UnsupportedRow); }
      completed := completed + [row.completedAt.value];
    }
    assert completed == Times(summary.rows);
    var completedAt := Latest(completed);
    if exists i :: 0 <= i < |s.reactions| && IsCodex(s.reactions[i].user) && s.reactions[i].content == Eyes {
      return Denied(StillRunning);
    }
    var reaction := FirstFresh(s.reactions, completedAt, now);
    if reaction.None? { return Denied(NoFreshReaction); }
    if ReviewFindings(s.reviews, pr.headSha) || InlineFindings(s.inlineComments, pr.headSha) {
      return Denied(ReportedFindings);
    }
    var requested := ChangesStillRequested(s.reviews);
    if requested { return Denied(ChangesRequested); }
    verdict := Eligible(pr.headSha, EvidenceOf(summary.id, completedAt, reaction.value.id), summary.url,
                        reaction.value.id);
  }

  // ---- the order of the review list does not matter ----

  lemma AssessIgnoresReviewOrder(s: Snapshot, reviews: seq<Review>, now: int)
    requires multiset(reviews) == multiset(s.reviews)
    ensures Assessed(s.(reviews := reviews), now) == Assessed(s, now)
  {
    SameElements(reviews, s.reviews);
    assert ReviewFindings(reviews, s.pr.headSha) == ReviewFindings(s.reviews, s.pr.headSha) by {
      FindingsAsElements(reviews, s.pr.headSha);
      FindingsAsElements(s.reviews, s.pr.headSha);
    }
    assert StillRequested(reviews) == StillRequested(s.reviews);
  }

  lemma FindingsAsElements(reviews: seq<Review>, headSha: string)
    ensures ReviewFindings(reviews, headSha) <==> exists r :: r in reviews && IsFinding(r, headSha)
  {
    if r :| r in reviews && IsFinding(r, headSha) {
      var i :| 0 <= i < |reviews| && reviews[i] == r;
      assert IsFinding(reviews[i], headSha);
    }
  }

  lemma {:induction false} DecimalIsOneLine(n: nat)
    ensures NoNewline(Decimal(n))
  {
    if n >= 10 {
      DecimalIsOneLine(n / 10);
    }
  }

  lemma EvidenceIsOneLine(summaryId: nat, completedAt: int, reactionId: nat)
    ensures NoNewline(EvidenceOf(summaryId, completedAt, reactionId))
  {
    DecimalIsOneLine(summaryId);
    DecimalIsOneLine(if completedAt < 0 then -completedAt else completedAt);
    DecimalIsOneLine(reactionId);
  }

  /** An eligible verdict is about the head that was read, on evidence without line breaks. */
  lemma EligibleNames(s: Snapshot, now: int)
    ensures Assessed(s, now).Eligible? ==> Assessed(s, now).head == s.pr.headSha && NoNewline(Assessed(s, now).evidence)
  {
    if Assessed(s, now).Eligible? {
      var summary := Summaries(s.comments)[0];
      var completedAt := Latest(Times(summary.rows));
      EvidenceIsOneLine(summary.id, completedAt, FirstFresh(s.reactions, completedAt, now).value.id);
    }
  }

  /** A c stands no earlier than behind the text without c. */
  lemma NotInside(a: string, x: string, b: string, y: string, c: char)
    requires c !in a && a + [c] + x == b + [c] + y
    ensures |a| <= |b|
  {
    var s := a + [c] + x;
    assert s[|b|] == c;
    assert forall i :: 0 <= i < |a| ==> s[i] == a[i];
  }

  /** Texts cut at their first c. */
  lemma CutAtFirst(a: string, x: string, b: string, y: string, c: char)
    requires c !in a && c !in b && a + [c] + x == b + [c] + y
    ensures a == b && x == y
  {
    NotInside(a, x, b, y, c);
    NotInside(b, y, a, x, c);
    var s := a + [c] + x;
    assert s[..|a|] == a && s[..|b|] == b && s[|a| + 1..] == x && s[|b| + 1..] == y;
  }

  lemma SamePrefix(p: string, x: string, y: string)
    requires p + x == p + y
    ensures x == y
  {
    assert (p + x)[|p|..] == x && (p + y)[|p|..] == y;
  }

  const APPROVAL_HEAD := MARKER + "\n\nVerified official Codex review for HEAD "
  const APPROVAL_END :=
    "\n\nCodex completed all listed reviews and posted a fresh no-findings reaction. "
    + "CI and branch protection remain required."

  /** The text of an approval; it is recognized later by its marker. */
  function ApprovalBody(head: string, evidence: string, summaryUrl: string): (body: string)
    ensures MARKER <= body
  {
    APPROVAL_HEAD + (head + "." + ("\nEvidence: " + (evidence + "\n" + ("Summary: " + summaryUrl + APPROVAL_END))))
  }

  /** The body names the head and the evidence: equal bodies have equal ones. */
  lemma BodyNames(head: string, evidence: string, url: string, head': string, evidence': string, url': string)
    requires '.' !in head && '.' !in head' && NoNewline(evidence) && NoNewline(evidence')
    requires ApprovalBody(head, evidence, url) == ApprovalBody(head', evidence', url')
    ensures head == head' && evidence == evidence'
  {
    var x, y := "Summary: " + url + APPROVAL_END, "Summary: " + url' + APPROVAL_END;
    NamedBehind(APPROVAL_HEAD, "\nEvidence: ", head, evidence, x, head', evidence', y);
  }

  lemma NamedBehind(a: string, b: string, head: string, evidence: string, x: string,
                    head': string, evidence': string, y: string)
    requires '.' !in head && '.' !in head' && NoNewline(evidence) && NoNewline(evidence')
    requires a + (head + "." + (b + (evidence + "\n" + x))) == a + (head' + "." + (b + (evidence' + "\n" + y)))
    ensures head == head' && evidence == evidence'
  {
    SamePrefix(a, head + "." + (b + (evidence + "\n" + x)), head' + "." + (b + (evidence' + "\n" + y)));
    CutAtFirst(head, b + (evidence + "\n" + x), head', b + (evidence' + "\n" + y), '.');
    SamePrefix(b, evidence + "\n" + x, evidence' + "\n" + y);
    CutAtFirst(evidence, x, evidence', y, '\n');
  }
}
