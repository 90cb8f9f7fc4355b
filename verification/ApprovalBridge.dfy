/**
 * The approval bridge: read, assess, prune, re-read, approve, re-read, withdraw or confirm,
 * while anyone may change the pull request between any two calls.
 */
module ApprovalBridge {
  import opened Basics
  import opened ReviewAssessment

  /**
   * What GitHub does: the n-th read (None: it throws), the clock then, the id of a created
   * review, which writes succeed. assess and approvalBody are the assessment and the text of
   * an approval: any functions here, ReviewAssessment.Assessed and ApprovalBody in service.
   */
  datatype GitHub = GitHub(
    read: nat -> Option<Snapshot>, clock: nat -> int, createdId: Id, callSucceeds: nat -> bool,
    assess: (Snapshot, int) -> Verdict, approvalBody: (string, string, string) -> string)

  datatype Call = Read(n: nat) | Dismiss(id: Id) | Approve(head: string, body: string)

  datatype Report =
    | Assessment(verdict: Verdict)   // a dry run, or not eligible at the first read
    | ChangedBefore                  // the review changed before approval
    | Withdrawn                      // the review changed during approval
    | Confirmed(verdict: Verdict)    // approved

  /** None: synchronize throws. */
  datatype Result = Result(report: Option<Report>, log: seq<Call>)

  function BodyOf(g: GitHub, v: Verdict): string
    requires v.Eligible?
  {
    g.approvalBody(v.head, v.evidence, v.summaryUrl)
  }

  predicate Matches(g: GitHub, review: Review, v: Verdict) {
    v.Eligible? && review.commitId == v.head && review.body == BodyOf(g, v)
  }

  predicate Agrees(v: Verdict, w: Verdict) {
    v.Eligible? && w.Eligible? && v.head == w.head && v.evidence == w.evidence
  }

  // ---- the intended sequence of calls ----

  /** An own approval that the verdict (None: ineligible) does not justify. */
  predicate IsStale(g: GitHub, r: Review, v: Option<Verdict>) {
    IsOwnApproval(r) && !(v.Some? && Matches(g, r, v.value))
  }

  /** The dismissals of the reviews that satisfy a test, in list order. */
  function Dismissals(reviews: seq<Review>, test: Review -> bool): seq<Call> {
    if reviews == [] then []
    else Dismissals(reviews[..|reviews| - 1], test) +
         (if test(reviews[|reviews| - 1]) then [Dismiss(reviews[|reviews| - 1].id)] else [])
  }

  function Pruned(g: GitHub, reviews: seq<Review>, v: Option<Verdict>): seq<Call> {
    Dismissals(reviews, r => IsStale(g, r, v))
  }

  function Superseded(reviews: seq<Review>): seq<Call> {
    Dismissals(reviews, r => IsLegacyFailure(r))
  }

  function ExistingApproval(g: GitHub, reviews: seq<Review>, v: Verdict): (found: Option<Review>)
    ensures found.Some? ==> found.value in reviews && IsOwnApproval(found.value) && Matches(g, found.value, v)
    ensures found.None? ==> forall r :: r in reviews && IsOwnApproval(r) ==> !Matches(g, r, v)
  {
    if reviews == [] then None
    else if IsOwnApproval(reviews[0]) && Matches(g, reviews[0], v) then Some(reviews[0])
    else ExistingApproval(g, reviews[1..], v)
  }

  function Synchronized(g: GitHub, apply: bool): Result {
    match g.read(0)
    case None => Result(None, [Read(0)])
    case Some(s) =>
      var v := g.assess(s, g.clock(0));
      if !apply then Result(Some(Assessment(v)), [Read(0)]) else Begun(g, s.reviews, v, [Read(0)])
  }

  function Begun(g: GitHub, reviews: seq<Review>, v: Verdict, log: seq<Call>): Result {
    if v.Denied? then Result(Some(Assessment(v)), log + Pruned(g, reviews, Some(v)))
    else Rechecked(g, v, log + Pruned(g, reviews, Some(v)))
  }

  function Rechecked(g: GitHub, expected: Verdict, log: seq<Call>): Result {
    match g.read(1)
    case None => Result(None, log + [Read(1)])
    case Some(s) =>
      var v := g.assess(s, g.clock(1));
      if !Agrees(v, expected) then Result(Some(ChangedBefore), log + [Read(1)] + Pruned(g, s.reviews, None))
      else match ExistingApproval(g, s.reviews, v)
        case Some(r) => Verified(g, v, r.id, log + [Read(1)])
        case None => Verified(g, v, g.createdId, log + [Read(1), Approve(v.head, BodyOf(g, v))])
  }

  function Verified(g: GitHub, v: Verdict, approvalId: Id, log: seq<Call>): Result {
    match g.read(2)
    case None => Result(None, log + [Read(2), Dismiss(approvalId)])
    case Some(s) =>
      var checked := g.assess(s, g.clock(2));
      if !Agrees(checked, v) then Result(Some(Withdrawn), log + [Read(2)] + Pruned(g, s.reviews, None))
      else Result(Some(Confirmed(checked)), log + [Read(2)] + Superseded(s.reviews))
  }

  // ---- the program ----

  class Api {
    const g: GitHub
    var log: seq<Call>

    constructor (g: GitHub)
      ensures this.g == g && log == []
    {
      this.g := g;
      log := [];
    }

    method ReadSnapshot(n: nat) returns (s: Option<Snapshot>)
      modifies this
      ensures log == old(log) + [Read(n)] && s == g.read(n)
    {
      log := log + [Read(n)];
      s := g.read(n);
    }

    /** A write; false means it throws. */
    method Issue(call: Call) returns (ok: bool)
      modifies this
      ensures log == old(log) + [call] && ok == g.callSucceeds(|old(log)|)
    {
      ok := g.callSucceeds(|log|);
      log := log + [call];
    }
  }

  ghost predicate NoFailure(g: GitHub, log: seq<Call>, n: nat) {
    forall i :: 0 <= i < n && i < |log| && !log[i].Read? ==> g.callSucceeds(i)
  }

  /** The calls made are the plan, or the plan up to its first write that failed. */
  ghost predicate Follows(g: GitHub, log: seq<Call>, plan: seq<Call>, failed: bool) {
    if !failed then log == plan && NoFailure(g, log, |log|)
    else log <= plan && log != [] && !log[|log| - 1].Read?
         && NoFailure(g, log, |log| - 1) && !g.callSucceeds(|log| - 1)
  }

  /** What synchronize may do, given what it is meant to do: all of it, or throw at a failed write. */
  ghost predicate Carries(g: GitHub, report: Option<Report>, log: seq<Call>, plan: Result) {
    // The match is there for the proofs: the verifier keeps such a body folded where it is asserted.
    match plan case Result(intended, calls) =>
      (report == intended && Follows(g, log, calls, false)) || (report == None && Follows(g, log, calls, true))
  }

  /** for (const review of reviews.filter(test)) await dismiss(review.id, ...) */
  method DismissAll(api: Api, reviews: seq<Review>, test: Review -> bool) returns (ok: bool)
    requires NoFailure(api.g, api.log, |api.log|)
    modifies api
    ensures Follows(api.g, api.log, old(api.log) + Dismissals(reviews, test), !ok)
  {
    ghost var start, g := api.log, api.g;
    for k := 0 to |reviews|
      invariant api.log == start + Dismissals(reviews[..k], test) && NoFailure(g, api.log, |api.log|)
    {
      DismissalsGrow(reviews, k, test);
      if test(reviews[k]) {
        ok := api.Issue(Dismiss(reviews[k].id));
        if !ok {
          assert api.log == start + Dismissals(reviews[..k + 1], test);
          return;
        }
      }
    }
    assert reviews[..|reviews|] == reviews;
    ok := true;
  }

  lemma {:induction false} DismissalsGrow(reviews: seq<Review>, k: nat, test: Review -> bool)
    requires k < |reviews|
    ensures Dismissals(reviews[..k + 1], test) ==
              Dismissals(reviews[..k], test) + (if test(reviews[k]) then [Dismiss(reviews[k].id)] else [])
    ensures Dismissals(reviews[..k + 1], test) <= Dismissals(reviews, test)
    decreases |reviews|
  {
    assert reviews[..k + 1][..k] == reviews[..k];
    if k + 1 < |reviews| {
      DismissalsGrow(reviews[..|reviews| - 1], k, test);
      assert reviews[..|reviews| - 1][..k + 1] == reviews[..k + 1];
    } else {
      assert reviews[..k + 1] == reviews;
    }
  }

  method Synchronize(g: GitHub, apply: bool) returns (report: Option<Report>, log: seq<Call>)
    ensures Carries(g, report, log, Synchronized(g, apply))
  {
    var api := new Api(g);
    var snapshot := api.ReadSnapshot(0);
    assert api.log == [Read(0)];
    if snapshot.None? {
      return None, api.log;
    }
    var verdict := g.assess(snapshot.value, g.clock(0));
    if !apply {
      return Some(Assessment(verdict)), api.log;
    }
    report := Begin(api, snapshot.value.reviews, verdict);
    log := api.log;
    assert Synchronized(g, apply) == Begun(g, snapshot.value.reviews, verdict, [Read(0)]);
  }

  /** Own approvals the verdict does not justify go first. */
  method Begin(api: Api, reviews: seq<Review>, verdict: Verdict) returns (report: Option<Report>)
    requires NoFailure(api.g, api.log, |api.log|)
    modifies api
    ensures Carries(api.g, report, api.log, Begun(api.g, reviews, verdict, old(api.log)))
  {
    var g := api.g;
    ghost var start := api.log;
    var ok := DismissAll(api, reviews, r => IsStale(g, r, Some(verdict)));
    if !ok {
      RecheckedExtends(g, verdict, start + Pruned(g, reviews, Some(verdict)));
      return None;
    }
    if verdict.Denied? {
      return Some(Assessment(verdict));
    }
    report := Recheck(api, verdict);
  }

  /** The second read, right before writing. */
  method Recheck(api: Api, expected: Verdict) returns (report: Option<Report>)
    requires NoFailure(api.g, api.log, |api.log|)
    modifies api
    ensures Carries(api.g, report, api.log, Rechecked(api.g, expected, old(api.log)))
  {
    var g := api.g;
    var snapshot := api.ReadSnapshot(1);
    if snapshot.None? {
      return None;
    }
    var reviews := snapshot.value.reviews;
    var verdict := g.assess(snapshot.value, g.clock(1));
    if !Agrees(verdict, expected) {
      var ok := DismissAll(api, reviews, r => IsStale(g, r, None));
      return if ok then Some(ChangedBefore) else None;
    }
    var approval := ExistingApproval(g, reviews, verdict);
    var approvalId := g.createdId;
    if approval.Some? {
      approvalId := approval.value.id;
    } else {
      var ok := api.Issue(Approve(verdict.head, BodyOf(g, verdict)));
      if !ok {
        VerifiedExtends(g, verdict, approvalId, api.log);
        return None;
      }
    }
    report := Verify(api, verdict, approvalId);
  }

  /** The third read, right after writing. */
  method Verify(api: Api, verdict: Verdict, approvalId: Id) returns (report: Option<Report>)
    requires NoFailure(api.g, api.log, |api.log|)
    modifies api
    ensures Carries(api.g, report, api.log, Verified(api.g, verdict, approvalId, old(api.log)))
  {
    var g := api.g;
    var after := api.ReadSnapshot(2);
    if after.None? {
      var _ := api.Issue(Dismiss(approvalId));
      return None;
    }
    var checked := g.assess(after.value, g.clock(2));
    if !Agrees(checked, verdict) {
      var ok := DismissAll(api, after.value.reviews, r => IsStale(g, r, None));
      return if ok then Some(Withdrawn) else None;
    }
    var ok := DismissAll(api, after.value.reviews, r => IsLegacyFailure(r));
    return if ok then Some(Confirmed(checked)) else None;
  }

  lemma VerifiedExtends(g: GitHub, v: Verdict, approvalId: Id, log: seq<Call>)
    ensures log <= Verified(g, v, approvalId, log).log
  {
  }

  lemma RecheckedExtends(g: GitHub, expected: Verdict, log: seq<Call>)
    ensures log <= Rechecked(g, expected, log).log
  {
  }

  // ---- what an outcome means ----

  predicate Dismissed(log: seq<Call>, id: Id) {
    Dismiss(id) in log
  }

  lemma {:induction false} DismissalsExactly(reviews: seq<Review>, test: Review -> bool, call: Call)
    ensures call in Dismissals(reviews, test) <==> exists r :: r in reviews && test(r) && call == Dismiss(r.id)
  {
    if reviews != [] {
      var init, last := reviews[..|reviews| - 1], reviews[|reviews| - 1];
      DismissalsExactly(init, test, call);
      assert forall r :: r in reviews <==> r in init || r == last;
    }
  }

  lemma PrunedExactly(g: GitHub, reviews: seq<Review>, v: Option<Verdict>)
    ensures forall r :: r in reviews && IsStale(g, r, v) ==> Dismissed(Pruned(g, reviews, v), r.id)
    ensures forall call :: call in Pruned(g, reviews, v) ==>
              exists r :: r in reviews && IsStale(g, r, v) && call == Dismiss(r.id)
  {
    forall call
      ensures call in Pruned(g, reviews, v) <==> exists r :: r in reviews && IsStale(g, r, v) && call == Dismiss(r.id)
    {
      DismissalsExactly(reviews, r => IsStale(g, r, v), call);
    }
  }

  /** No own approval listed by the n-th read is left standing. */
  ghost predicate NoneLeft(g: GitHub, n: nat, log: seq<Call>) {
    g.read(n).Some? && forall r :: r in g.read(n).value.reviews && IsOwnApproval(r) ==> Dismissed(log, r.id)
  }

  function VerdictAt(g: GitHub, n: nat): Verdict
    requires g.read(n).Some?
  {
    g.assess(g.read(n).value, g.clock(n))
  }

  /** Three reads in a row were eligible for one head and evidence, and the approval says so. */
  ghost predicate Justified(g: GitHub, log: seq<Call>, checked: Verdict) {
    && (forall n :: 0 <= n <= 2 ==> g.read(n).Some? && Agrees(VerdictAt(g, n), checked))
    && checked == VerdictAt(g, 2)
    && (Approve(checked.head, BodyOf(g, VerdictAt(g, 1))) in log
        || exists r :: r in g.read(1).value.reviews && IsOwnApproval(r) && Matches(g, r, VerdictAt(g, 1)))
  }

  /**
   * Every return with apply either reports approved, with the last state read still eligible
   * for the head and evidence of the approval, or leaves no own approval of the last state
   * read undismissed. (A dry run writes nothing.)
   */
  lemma BridgeOutcome(g: GitHub)
    ensures var (report, log) := (Synchronized(g, true).report, Synchronized(g, true).log);
      match report
      case Some(Confirmed(checked)) => Justified(g, log, checked)
      case Some(Withdrawn) => NoneLeft(g, 2, log)
      case Some(ChangedBefore) => NoneLeft(g, 1, log)
      case Some(Assessment(v)) => v.Denied? && NoneLeft(g, 0, log)
      case None => exists n :: 0 <= n <= 2 && g.read(n).None?
    ensures Synchronized(g, false).log == [Read(0)]
  {
    match g.read(0) {
      case None =>
      case Some(s) =>
        var v := VerdictAt(g, 0);
        PrunedExactly(g, s.reviews, Some(v));
        if v.Eligible? {
          RecheckOutcome(g, v, [Read(0)] + Pruned(g, s.reviews, Some(v)));
        }
    }
  }

  lemma RecheckOutcome(g: GitHub, expected: Verdict, log: seq<Call>)
    requires g.read(0).Some? && expected == VerdictAt(g, 0) && expected.Eligible?
    ensures var result := Rechecked(g, expected, log);
      match result.report
      case Some(Confirmed(checked)) => Justified(g, result.log, checked)
      case Some(Withdrawn) => NoneLeft(g, 2, result.log)
      case Some(ChangedBefore) => NoneLeft(g, 1, result.log)
      case Some(Assessment(v)) => false
      case None => exists n :: 0 <= n <= 2 && g.read(n).None?
  {
    if g.read(1).Some? {
      PrunedExactly(g, g.read(1).value.reviews, None);
    }
    if g.read(2).Some? {
      PrunedExactly(g, g.read(2).value.reviews, None);
    }
  }

  /** If the read after writing throws, the approval relied on is dismissed, created or found. */
  lemma UnverifiedIsDismissed(g: GitHub)
    requires g.read(0).Some? && g.read(1).Some? && Agrees(VerdictAt(g, 1), VerdictAt(g, 0))
    requires g.read(2).None?
    ensures var log := Synchronized(g, true).log;
      Synchronized(g, true).report == None && log != [] &&
      match ExistingApproval(g, g.read(1).value.reviews, VerdictAt(g, 1))
      case Some(r) => log[|log| - 1] == Dismiss(r.id)
      case None => log[|log| - 1] == Dismiss(g.createdId)
  {
  }

  /** The review that the last step relies on: the one found by the second read, or the one created. */
  function ReliedOnId(g: GitHub): Id
    requires g.read(1).Some? && VerdictAt(g, 1).Eligible?
  {
    match ExistingApproval(g, g.read(1).value.reviews, VerdictAt(g, 1))
    case Some(r) => r.id
    case None => g.createdId
  }

  /**
   * Reads see own writes: what this run dismissed is no own approval to the second read, a created review
   * has an id of its own and is an own approval to the third, and an approval does not turn into a request
   * for changes.
   */
  ghost predicate OwnWritesSeen(g: GitHub) {
    && (g.read(0).Some? && g.read(1).Some? ==>
          && (forall r :: r in g.read(1).value.reviews && IsOwnApproval(r) ==>
                !Dismissed(Pruned(g, g.read(0).value.reviews, Some(VerdictAt(g, 0))), r.id))
          && forall r :: r in g.read(0).value.reviews ==> r.id != g.createdId)
    && (g.read(1).Some? && VerdictAt(g, 1).Eligible? && g.read(2).Some? ==>
          && (forall r :: r in g.read(2).value.reviews && IsLegacyFailure(r) ==> r.id != ReliedOnId(g))
          && (Creates(g) ==> ListedOwn(g, 2, g.createdId)))
  }

  /** The run finds no approval to rely on at its second read and creates one. */
  predicate Creates(g: GitHub) {
    g.read(0).Some? && g.read(1).Some? && Agrees(VerdictAt(g, 1), VerdictAt(g, 0))
    && ExistingApproval(g, g.read(1).value.reviews, VerdictAt(g, 1)).None?
  }

  /**
   * If reads see own writes, an approval reported as confirmed was left standing by the run, and one that
   * the run created and then withdrew was dismissed.
   */
  lemma ConfirmedStands(g: GitHub)
    requires OwnWritesSeen(g)
    ensures var result := Synchronized(g, true);
      match result.report
      case Some(Confirmed(checked)) =>
        g.read(1).Some? && VerdictAt(g, 1).Eligible? && !Dismissed(result.log, ReliedOnId(g))
      case Some(Withdrawn) => Creates(g) ==> Dismissed(result.log, g.createdId)
      case _ => true
  {
    BridgeOutcome(g);
    var result := Synchronized(g, true);
    if result.report.Some? && result.report.value.Confirmed? {
      var first := Pruned(g, g.read(0).value.reviews, Some(VerdictAt(g, 0)));
      var last := Superseded(g.read(2).value.reviews);
      OnlyDismissals(g, result.log, first, last);
      PrunedExactly(g, g.read(0).value.reviews, Some(VerdictAt(g, 0)));
      DismissalsExactly(g.read(2).value.reviews, r => IsLegacyFailure(r), Dismiss(ReliedOnId(g)));
    }
  }

  /** A confirmed run dismisses nothing but at its first and last step. */
  lemma OnlyDismissals(g: GitHub, log: seq<Call>, first: seq<Call>, last: seq<Call>)
    requires g.read(0).Some? && g.read(1).Some? && g.read(2).Some?
    requires Synchronized(g, true).report.Some? && Synchronized(g, true).report.value.Confirmed?
    requires log == Synchronized(g, true).log
    requires first == Pruned(g, g.read(0).value.reviews, Some(VerdictAt(g, 0)))
    requires last == Superseded(g.read(2).value.reviews)
    ensures forall id: Id :: Dismissed(log, id) ==> Dismissed(first, id) || Dismissed(last, id)
  {
    var v := VerdictAt(g, 1);
    if ExistingApproval(g, g.read(1).value.reviews, v).Some? {
      assert log == [Read(0)] + first + [Read(1)] + [Read(2)] + last;
    } else {
      assert log == [Read(0)] + first + [Read(1), Approve(v.head, BodyOf(g, v))] + [Read(2)] + last;
    }
  }

  // ---- in service ----

  /** The bridge with the assessment and the approval text of the script. */
  ghost function InService(read: nat -> Option<Snapshot>, clock: nat -> int, createdId: Id,
                          callSucceeds: nat -> bool): GitHub
  {
    GitHub(read, clock, createdId, callSucceeds,
           (s: Snapshot, now: int) => Assessed(s, now),
           (head: string, evidence: string, summaryUrl: string) => ApprovalBody(head, evidence, summaryUrl))
  }

  /**
   * In service an approval body names its head and evidence: whatever two eligible verdicts one review
   * matches, at whatever reads of whatever runs, agree.
   */
  lemma MatchedVerdictsAgree(read: nat -> Option<Snapshot>, clock: nat -> int, createdId: Id, callSucceeds: nat -> bool,
                             s: Snapshot, now: int, t: Snapshot, later: int, review: Review)
    requires '.' !in s.pr.headSha && '.' !in t.pr.headSha
    requires var g := InService(read, clock, createdId, callSucceeds);
      Matches(g, review, g.assess(s, now)) && Matches(g, review, g.assess(t, later))
    ensures var v, w := Assessed(s, now), Assessed(t, later);
      v.Eligible? && w.Eligible? && v.head == w.head && v.evidence == w.evidence
  {
    var v, w := Assessed(s, now), Assessed(t, later);
    EligibleNames(s, now);
    EligibleNames(t, later);
    BodyNames(v.head, v.evidence, v.summaryUrl, w.head, w.evidence, w.summaryUrl);
  }

  // ---- what is ever touched ----

  /** Three agreeing, eligible verdicts in a row. */
  ghost predicate AgreedThrice(g: GitHub) {
    g.read(0).Some? && g.read(1).Some? && g.read(2).Some?
    && Agrees(VerdictAt(g, 1), VerdictAt(g, 0)) && Agrees(VerdictAt(g, 2), VerdictAt(g, 0))
  }

  ghost predicate ListedOwn(g: GitHub, n: nat, id: Id) {
    g.read(n).Some? && exists r :: r in g.read(n).value.reviews && IsOwnApproval(r) && r.id == id
  }

  ghost predicate ListedLegacy(g: GitHub, n: nat, id: Id) {
    g.read(n).Some? && exists r :: r in g.read(n).value.reviews && IsLegacyFailure(r) && r.id == id
  }

  /** A call justified by what was read: never a human or substantive review, never an unchecked head. */
  ghost predicate Allowed(g: GitHub, call: Call) {
    match call
    case Read(_) => true
    case Dismiss(id) =>
      ListedOwn(g, 0, id) || ListedOwn(g, 1, id) || ListedOwn(g, 2, id)
      || (AgreedThrice(g) && ListedLegacy(g, 2, id))
    case Approve(head, body) =>
      g.read(0).Some? && g.read(1).Some? && Agrees(VerdictAt(g, 1), VerdictAt(g, 0))
      && head == VerdictAt(g, 0).head && body == BodyOf(g, VerdictAt(g, 1))
  }

  /** Every call is allowed, but for the withdrawal of the review this run itself created. */
  ghost predicate AllAllowed(g: GitHub, log: seq<Call>) {
    forall i :: 0 <= i < |log| ==>
      Allowed(g, log[i]) || (log[i] == Dismiss(g.createdId) && exists j :: 0 <= j < i && log[j].Approve?)
  }

  function Approvals(log: seq<Call>): nat {
    if log == [] then 0 else Approvals(log[..|log| - 1]) + (if log[|log| - 1].Approve? then 1 else 0)
  }

  lemma {:induction false} ApprovalsAppend(log: seq<Call>, more: seq<Call>)
    ensures Approvals(log + more) == Approvals(log) + Approvals(more)
  {
    if more == [] {
      assert log + more == log;
    } else {
      assert (log + more)[..|log + more| - 1] == log + more[..|more| - 1];
      ApprovalsAppend(log, more[..|more| - 1]);
    }
  }

  lemma {:induction false} DismissalsApproveNothing(reviews: seq<Review>, test: Review -> bool)
    ensures Approvals(Dismissals(reviews, test)) == 0
  {
    if reviews != [] {
      var init, last := reviews[..|reviews| - 1], reviews[|reviews| - 1];
      DismissalsApproveNothing(init, test);
      ApprovalsAppend(Dismissals(init, test), if test(last) then [Dismiss(last.id)] else []);
    }
  }

  /** Extending an allowed log by dismissals of listed reviews. */
  lemma AllowedAfterDismissals(g: GitHub, log: seq<Call>, n: nat, test: Review -> bool)
    requires AllAllowed(g, log) && n <= 2 && g.read(n).Some?
    requires (forall r :: test(r) ==> IsOwnApproval(r))
        || (n == 2 && AgreedThrice(g) && forall r :: test(r) ==> IsLegacyFailure(r))
    ensures var more := Dismissals(g.read(n).value.reviews, test);
      AllAllowed(g, log + more) && Approvals(log + more) == Approvals(log)
  {
    var more := Dismissals(g.read(n).value.reviews, test);
    DismissalsApproveNothing(g.read(n).value.reviews, test);
    ApprovalsAppend(log, more);
    forall i | 0 <= i < |more| ensures Allowed(g, more[i]) {
      assert more[i] in more;
      DismissalsExactly(g.read(n).value.reviews, test, more[i]);
    }
    AllowedPrefix(g, log, more);
  }

  lemma AllowedPrefix(g: GitHub, log: seq<Call>, more: seq<Call>)
    requires AllAllowed(g, log)
    requires forall i :: 0 <= i < |more| ==> Allowed(g, more[i])
    ensures AllAllowed(g, log + more)
  {
    var whole := log + more;
    forall i | 0 <= i < |whole|
      ensures Allowed(g, whole[i]) || (whole[i] == Dismiss(g.createdId) && exists j :: 0 <= j < i && whole[j].Approve?)
    {
      if i < |log| && !Allowed(g, log[i]) {
        var j :| 0 <= j < i && log[j].Approve?;
        assert whole[j].Approve?;
      }
    }
  }

  /** The approval the third read is to verify: created by this run, or listed by the second read. */
  ghost predicate ReliedOn(g: GitHub, approvalId: Id, log: seq<Call>) {
    (approvalId == g.createdId && exists j :: 0 <= j < |log| && log[j].Approve?) || ListedOwn(g, 1, approvalId)
  }

  lemma WithdrawnFrame(g: GitHub, approvalId: Id, log: seq<Call>)
    requires AllAllowed(g, log) && ReliedOn(g, approvalId, log)
    ensures AllAllowed(g, log + [Dismiss(approvalId)])
    ensures Approvals(log + [Dismiss(approvalId)]) == Approvals(log)
  {
    var whole := log + [Dismiss(approvalId)];
    ApprovalsAppend(log, [Dismiss(approvalId)]);
    assert [Dismiss(approvalId)][..0] == [];
    if ListedOwn(g, 1, approvalId) {
      AllowedPrefix(g, log, [Dismiss(approvalId)]);
    } else {
      AllowedPrefix(g, log, []);
      assert log + [] == log;
      var j :| 0 <= j < |log| && log[j].Approve?;
      assert whole[j].Approve?;
      forall i | 0 <= i < |log|
        ensures Allowed(g, whole[i])
                || (whole[i] == Dismiss(g.createdId) && exists j :: 0 <= j < i && whole[j].Approve?)
      {
        assert whole[i] == log[i];
        if !Allowed(g, log[i]) {
          var k :| 0 <= k < i && log[k].Approve?;
          assert whole[k].Approve?;
        }
      }
    }
  }

  lemma ReadFrame(g: GitHub, log: seq<Call>, n: nat)
    requires AllAllowed(g, log)
    ensures AllAllowed(g, log + [Read(n)]) && Approvals(log + [Read(n)]) == Approvals(log)
  {
    AllowedPrefix(g, log, [Read(n)]);
    ApprovalsAppend(log, [Read(n)]);
    assert [Read(n)][..0] == [];
  }

  lemma VerifiedFrame(g: GitHub, v: Verdict, approvalId: Id, log: seq<Call>)
    requires AllAllowed(g, log) && ReliedOn(g, approvalId, log)
    requires g.read(0).Some? && g.read(1).Some? && v == VerdictAt(g, 1) && Agrees(v, VerdictAt(g, 0))
    ensures var result := Verified(g, v, approvalId, log);
      AllAllowed(g, result.log) && Approvals(result.log) == Approvals(log)
  {
    var read := log + [Read(2)];
    ReadFrame(g, log, 2);
    if g.read(2).None? {
      assert ReliedOn(g, approvalId, read) by {
        if j :| 0 <= j < |log| && log[j].Approve? { assert read[j].Approve?; }
      }
      WithdrawnFrame(g, approvalId, read);
      assert log + [Read(2), Dismiss(approvalId)] == read + [Dismiss(approvalId)];
    } else if !Agrees(VerdictAt(g, 2), v) {
      AllowedAfterDismissals(g, read, 2, r => IsStale(g, r, None));
    } else {
      AllowedAfterDismissals(g, read, 2, r => IsLegacyFailure(r));
    }
  }

  lemma RecheckedFrame(g: GitHub, expected: Verdict, log: seq<Call>)
    requires AllAllowed(g, log) && Approvals(log) == 0
    requires g.read(0).Some? && expected == VerdictAt(g, 0)
    ensures var result := Rechecked(g, expected, log);
      AllAllowed(g, result.log) && Approvals(result.log) <= 1
  {
    ReadFrame(g, log, 1);
    var read := log + [Read(1)];
    if g.read(1).Some? {
      var v := VerdictAt(g, 1);
      if !Agrees(v, expected) {
        AllowedAfterDismissals(g, read, 1, r => IsStale(g, r, None));
      } else {
        var found := ExistingApproval(g, g.read(1).value.reviews, v);
        if found.Some? {
          VerifiedFrame(g, v, found.value.id, read);
        } else {
          var approve := Approve(v.head, BodyOf(g, v));
          AllowedPrefix(g, read, [approve]);
          ApprovalsAppend(read, [approve]);
          assert log + [Read(1), approve] == read + [approve];
          assert (read + [approve])[|read|].Approve?;
          VerifiedFrame(g, v, g.createdId, read + [approve]);
        }
      }
    }
  }

  /**
   * In any run: the only reviews dismissed are own approvals and, after the third agreeing
   * assessment, legacy failures; at most one approval is created, on a head assessed eligible
   * twice. Carries makes the log of any run a prefix of this one.
   */
  lemma BridgeFrame(g: GitHub, apply: bool)
    ensures var log := Synchronized(g, apply).log;
      AllAllowed(g, log) && Approvals(log) <= 1
  {
    assert AllAllowed(g, [Read(0)]);
    assert [Read(0)][..0] == [] && Approvals([Read(0)]) == 0;
    if g.read(0).Some? && apply {
      var v := VerdictAt(g, 0);
      AllowedAfterDismissals(g, [Read(0)], 0, r => IsStale(g, r, Some(v)));
      if v.Eligible? {
        RecheckedFrame(g, v, [Read(0)] + Pruned(g, g.read(0).value.reviews, Some(v)));
      }
    }
  }
}
