/** What the bridge decides, stated over the states read, the verdicts on them and the reviews they list. */
module BridgeRules {
  import opened Basics
  import opened ReviewAssessment
  import opened ReviewRules
  import opened ApprovalBridge

  /** An approval that the workflow's bot gave on behalf of Codex. */
  predicate OwnApproval(r: Review) {
    WorkflowBot(r.user) && r.state == Approved && "<!-- codex-verified-approval:v1 -->" <= r.body
  }

  /** Such an approval, of the head and in the words of the verdict. */
  predicate ApprovalOf(g: GitHub, r: Review, v: Verdict) {
    && OwnApproval(r) && v.Eligible? && r.commitId == v.head
    && r.body == g.approvalBody(v.head, v.evidence, v.summaryUrl)
  }

  predicate BothEligible(v: Verdict, w: Verdict) {
    v.Eligible? && w.Eligible? && v.head == w.head && v.evidence == w.evidence
  }

  lemma SameTests(g: GitHub, r: Review, v: Verdict, w: Verdict)
    ensures IsOwnApproval(r) == OwnApproval(r) && IsLegacyFailure(r) == LegacyRequest(r)
    ensures IsStale(g, r, None) == OwnApproval(r)
    ensures IsStale(g, r, Some(v)) == (OwnApproval(r) && !ApprovalOf(g, r, v))
    ensures Agrees(v, w) == BothEligible(v, w)
  {
  }

  lemma SameFound(g: GitHub, reviews: seq<Review>, v: Verdict)
    ensures ExistingApproval(g, reviews, v).None? <==> !exists r :: r in reviews && ApprovalOf(g, r, v)
  {
    if r :| r in reviews && ApprovalOf(g, r, v) {
      assert IsOwnApproval(r) && Matches(g, r, v);
    }
  }

  // ---- how a run with apply ends ----

  /** The second read finds the verdict of the first again. */
  predicate StillEligible(g: GitHub) {
    && g.read(0).Some? && g.read(1).Some?
    && BothEligible(g.assess(g.read(1).value, g.clock(1)), g.assess(g.read(0).value, g.clock(0)))
  }

  /** And the third that of the second. */
  predicate StillEligibleAfter(g: GitHub) {
    && StillEligible(g) && g.read(2).Some?
    && BothEligible(g.assess(g.read(2).value, g.clock(2)), g.assess(g.read(1).value, g.clock(1)))
  }

  /** Exactly when each report is returned; None is a throw. */
  lemma BridgeReports(g: GitHub)
    ensures var report := Synchronized(g, true).report;
      if g.read(0).None? then report == None
      else
        var v := g.assess(g.read(0).value, g.clock(0));
        if v.Denied? then report == Some(Assessment(v))
        else if g.read(1).None? then report == None
        else if !StillEligible(g) then report == Some(ChangedBefore)
        else if g.read(2).None? then report == None
        else if !StillEligibleAfter(g) then report == Some(Withdrawn)
        else report == Some(Confirmed(g.assess(g.read(2).value, g.clock(2))))
  {
  }

  // ---- what it calls ----

  type Test = Review -> bool

  /** Dismissals of the listed reviews that pass the test: of all of them, and of no others. */
  ghost predicate Clears(calls: seq<Call>, reviews: seq<Review>, test: Test) {
    && (forall r :: r in reviews && test(r) ==> Dismiss(r.id) in calls)
    && (forall call :: call in calls ==> exists r :: r in reviews && test(r) && call == Dismiss(r.id))
  }

  lemma DismissalsClear(reviews: seq<Review>, done: Test, test: Test)
    requires forall r :: done(r) == test(r)
    ensures Clears(Dismissals(reviews, done), reviews, test)
  {
    forall call
      ensures call in Dismissals(reviews, done) <==> exists r :: r in reviews && done(r) && call == Dismiss(r.id)
    {
      DismissalsExactly(reviews, done, call);
    }
  }

  lemma PrunedClears(g: GitHub, reviews: seq<Review>, v: Verdict)
    ensures Clears(Pruned(g, reviews, Some(v)), reviews, r => OwnApproval(r) && !ApprovalOf(g, r, v))
    ensures Clears(Pruned(g, reviews, None), reviews, r => OwnApproval(r))
    ensures Clears(Superseded(reviews), reviews, r => LegacyRequest(r))
  {
    forall r
      ensures IsStale(g, r, Some(v)) == (OwnApproval(r) && !ApprovalOf(g, r, v))
      ensures IsStale(g, r, None) == OwnApproval(r) && IsLegacyFailure(r) == LegacyRequest(r)
    {
      SameTests(g, r, v, v);
    }
    DismissalsClear(reviews, r => IsStale(g, r, Some(v)), r => OwnApproval(r) && !ApprovalOf(g, r, v));
    DismissalsClear(reviews, r => IsStale(g, r, None), r => OwnApproval(r));
    DismissalsClear(reviews, r => IsLegacyFailure(r), r => LegacyRequest(r));
  }

  /** What is called behind the third read, relying on the given review. */
  ghost predicate AfterThird(g: GitHub, calls: seq<Call>, id: Id) {
    match g.read(2)
    case None => calls == [Dismiss(id)]
    case Some(s) =>
      if StillEligibleAfter(g) then Clears(calls, s.reviews, r => LegacyRequest(r))
      else Clears(calls, s.reviews, r => OwnApproval(r))
  }

  /** The approval relied on: one that the second read lists, else one created now, of the head found again. */
  ghost predicate ReliesOn(g: GitHub, approving: seq<Call>, id: Id)
    requires g.read(1).Some?
  {
    var v := g.assess(g.read(1).value, g.clock(1));
    v.Eligible? &&
    if approving == [] then exists r :: r in g.read(1).value.reviews && ApprovalOf(g, r, v) && r.id == id
    else
      && id == g.createdId
      && approving == [Approve(v.head, g.approvalBody(v.head, v.evidence, v.summaryUrl))]
      && forall r :: r in g.read(1).value.reviews ==> !ApprovalOf(g, r, v)
  }

  /** What is called behind the first read and its dismissals, when that read was eligible. */
  ghost predicate AfterFirst(g: GitHub, calls: seq<Call>) {
    if g.read(1).None? then calls == [Read(1)]
    else if !StillEligible(g) then
      exists rest :: calls == [Read(1)] + rest && Clears(rest, g.read(1).value.reviews, r => OwnApproval(r))
    else
      exists approving, id, rest ::
        calls == [Read(1)] + approving + [Read(2)] + rest
        && ReliesOn(g, approving, id) && AfterThird(g, rest, id)
  }

  lemma VerifiedCalls(g: GitHub, v: Verdict, id: Id, log: seq<Call>) returns (rest: seq<Call>)
    requires StillEligible(g) && v == g.assess(g.read(1).value, g.clock(1))
    ensures Verified(g, v, id, log).log == log + [Read(2)] + rest && AfterThird(g, rest, id)
  {
    match g.read(2) {
      case None =>
        rest := [Dismiss(id)];
        assert log + [Read(2), Dismiss(id)] == log + [Read(2)] + rest;
      case Some(s) =>
        PrunedClears(g, s.reviews, v);
        rest := if StillEligibleAfter(g) then Superseded(s.reviews) else Pruned(g, s.reviews, None);
    }
  }

  lemma RelianceHolds(g: GitHub) returns (approving: seq<Call>, id: Id)
    requires StillEligible(g)
    ensures ReliesOn(g, approving, id)
    ensures forall log ::
      var v := g.assess(g.read(1).value, g.clock(1));
      Rechecked(g, g.assess(g.read(0).value, g.clock(0)), log) == Verified(g, v, id, log + [Read(1)] + approving)
  {
    var reviews, v := g.read(1).value.reviews, g.assess(g.read(1).value, g.clock(1));
    SameFound(g, reviews, v);
    match ExistingApproval(g, reviews, v) {
      case Some(r) =>
        approving, id := [], r.id;
        assert ApprovalOf(g, r, v);
        assert forall log: seq<Call> :: log + [Read(1)] + [] == log + [Read(1)];
      case None =>
        var approve := Approve(v.head, BodyOf(g, v));
        approving, id := [approve], g.createdId;
        assert forall log: seq<Call> :: log + [Read(1)] + [approve] == log + [Read(1), approve];
    }
  }

  lemma RecheckedCalls(g: GitHub, log: seq<Call>) returns (rest: seq<Call>)
    requires g.read(0).Some? && g.assess(g.read(0).value, g.clock(0)).Eligible?
    ensures Rechecked(g, g.assess(g.read(0).value, g.clock(0)), log).log == log + rest && AfterFirst(g, rest)
  {
    if g.read(1).None? {
      rest := [Read(1)];
    } else if !StillEligible(g) {
      var reviews := g.read(1).value.reviews;
      var cleared := Pruned(g, reviews, None);
      PrunedClears(g, reviews, g.assess(g.read(1).value, g.clock(1)));
      rest := [Read(1)] + cleared;
      assert log + [Read(1)] + cleared == log + rest;
    } else {
      var approving, id := RelianceHolds(g);
      var last := VerifiedCalls(g, g.assess(g.read(1).value, g.clock(1)), id, log + [Read(1)] + approving);
      rest := [Read(1)] + approving + [Read(2)] + last;
      assert log + [Read(1)] + approving + [Read(2)] + last == log + rest;
    }
  }

  /**
   * The calls of a run, in order: the first read, the dismissal of every own approval that its verdict does not
   * stand for, and, if that verdict is eligible, the second read and what follows from it.
   */
  lemma BridgeCalls(g: GitHub) returns (first: seq<Call>, rest: seq<Call>)
    requires g.read(0).Some?
    ensures var s := g.read(0).value;
      var v := g.assess(s, g.clock(0));
      && Synchronized(g, true).log == [Read(0)] + first + rest
      && Clears(first, s.reviews, r => OwnApproval(r) && !ApprovalOf(g, r, v))
      && if v.Denied? then rest == [] else AfterFirst(g, rest)
  {
    var s := g.read(0).value;
    var v := g.assess(s, g.clock(0));
    first, rest := Pruned(g, s.reviews, Some(v)), [];
    PrunedClears(g, s.reviews, v);
    if v.Eligible? {
      rest := RecheckedCalls(g, [Read(0)] + first);
    } else {
      assert [Read(0)] + first + rest == [Read(0)] + first;
    }
  }
}
