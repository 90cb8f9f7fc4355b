/**
 * Delivery of an ops release notice, guarded by two marker files beside it. Any number
 * of processes run the same program over one file system whose operations are atomic;
 * each may stop at any point, by a crash or a failed file operation.
 */
module NoticeDelivery {
  import opened Basics

  const RATE_LIMITED := 11232
  const LAST_ATTEMPT: nat := 3

  // ---- the receipt ----

  /** A JSON field read with typeof: a number, something else, or absent. */
  datatype Field = Number(value: int) | NotNumber

  datatype Body = NotJson | NotObject | Object(code: Field, statusCode: Field)

  datatype Response = Response(httpStatus: int, body: Body)

  datatype Receipt = Delivered | Code(code: int) | Unclear

  /** A 2xx reply whose JSON object gives this number as code or, code being no number, as StatusCode. */
  predicate Reports(response: Response, code: int) {
    && 200 <= response.httpStatus < 300 && response.body.Object?
    && (response.body.code == Number(code)
        || (!response.body.code.Number? && response.body.statusCode == Number(code)))
  }

  function EffectiveCode(body: Body): Field
    requires body.Object?
  {
    if body.code.Number? then body.code else body.statusCode
  }

  /** assertFeishuResponse: Delivered where it returns, the error's feishuCode where it throws one. */
  function Classify(response: Response): (receipt: Receipt)
    ensures receipt == Delivered <==> Reports(response, 0)
    ensures forall c :: receipt == Code(c) <==> c != 0 && Reports(response, c)
  {
    if response.httpStatus < 200 || response.httpStatus >= 300 then Unclear
    else match response.body
      case Object(_, _) =>
        (match EffectiveCode(response.body)
         case Number(code) => if code == 0 then Delivered else Code(code)
         case NotNumber => Unclear)
      case _ => Unclear
  }

  // ---- the processes and the file system ----

  datatype Pc =
    | Idle                        // before the .sent check
    | Checked                     // no .sent seen
    | Locked                      // created .pending exclusively
    | Unlocking                   // saw .sent while holding .pending
    | Posting(attempt: nat)       // about to POST
    | Awaiting(attempt: nat, arrived: bool) // POST issued, no receipt yet
    | Acknowledged                // success receipt read
    | Stamped                     // .pending rewritten
    | Done                        // renamed to .sent
    | Stopped                     // refused, failed or crashed

  /** sender is the process that entered the POST loop; posts, delivered and acknowledged are counts. */
  datatype System = System(
    pending: bool, sent: bool, pc: seq<Pc>, sender: Option<nat>,
    posts: nat, delivered: nat, acknowledged: nat)

  datatype Action =
    | Step(p: nat)
    | Post(p: nat, arrives: bool)
    | Reply(p: nat, receipt: Receipt)
    | Crash(p: nat)

  /** A success receipt means delivered, the rate limit code means not delivered. */
  predicate Truthful(arrived: bool, receipt: Receipt) {
    (receipt == Delivered ==> arrived) && (receipt == Code(RATE_LIMITED) ==> !arrived)
  }

  function Moved(s: System, p: nat, pc: Pc): System
    requires p < |s.pc|
  {
    s.(pc := s.pc[p := pc])
  }

  function FileStep(s: System, p: nat): System
    requires p < |s.pc|
  {
    match s.pc[p]
    case Idle => Moved(s, p, if s.sent then Stopped else Checked)
    case Checked => if s.pending then Moved(s, p, Stopped) else Moved(s, p, Locked).(pending := true)
    case Locked =>
      if s.sent then Moved(s, p, Unlocking) else Moved(s, p, Posting(0)).(sender := Some(p))
    case Unlocking => Moved(s, p, Stopped).(pending := false)
    case Acknowledged => Moved(s, p, Stamped).(pending := true)
    case Stamped => if s.pending then Moved(s, p, Done).(pending := false, sent := true) else Moved(s, p, Stopped)
    case _ => s
  }

  function AfterReply(attempt: nat, receipt: Receipt): Pc {
    if receipt == Delivered then Acknowledged
    else if receipt == Code(RATE_LIMITED) && attempt < LAST_ATTEMPT then Posting(attempt + 1)
    else Stopped
  }

  /** An action the process is not at, or a receipt that lies, does nothing. */
  function Next(s: System, a: Action): System {
    if a.p >= |s.pc| then s
    else match a
      case Step(p) => FileStep(s, p)
      case Post(p, arrives) =>
        if !s.pc[p].Posting? then s
        else Moved(s, p, Awaiting(s.pc[p].attempt, arrives)).(
               posts := s.posts + 1, delivered := s.delivered + (if arrives then 1 else 0))
      case Reply(p, receipt) =>
        if !s.pc[p].Awaiting? || !Truthful(s.pc[p].arrived, receipt) then s
        else Moved(s, p, AfterReply(s.pc[p].attempt, receipt)).(
               acknowledged := s.acknowledged + (if receipt == Delivered then 1 else 0))
      case Crash(p) => if s.pc[p].Done? then s else Moved(s, p, Stopped)
  }

  function Run(s: System, actions: seq<Action>): System
    decreases |actions|
  {
    if actions == [] then s else Run(Next(s, actions[0]), actions[1..])
  }

  function Start(n: nat): System {
    System(false, false, seq(n, _ => Idle), None, 0, 0, 0)
  }

  // ---- the invariant ----

  predicate Holding(pc: Pc) {
    pc.Locked? || pc.Unlocking? || pc.Posting? || pc.Awaiting? || pc.Acknowledged? || pc.Stamped?
  }

  predicate Sending(pc: Pc) {
    pc.Posting? || pc.Awaiting? || pc.Acknowledged? || pc.Stamped? || pc.Done?
  }

  /** How far the one sender got determines the counts. */
  predicate SenderAt(s: System, pc: Pc) {
    match pc
    case Posting(k) => k <= LAST_ATTEMPT && s.posts == k && s.delivered == 0 && s.acknowledged == 0 && !s.sent
    case Awaiting(k, arrived) => k <= LAST_ATTEMPT && s.posts == k + 1 && s.acknowledged == 0 && !s.sent
                                 && s.delivered == (if arrived then 1 else 0)
    case Acknowledged => s.posts <= LAST_ATTEMPT + 1 && s.delivered == 1 && s.acknowledged == 1 && !s.sent
    case Stamped => s.posts <= LAST_ATTEMPT + 1 && s.delivered == 1 && s.acknowledged == 1 && !s.sent
    case Done => s.posts <= LAST_ATTEMPT + 1 && s.delivered == 1 && s.acknowledged == 1 && s.sent
    case Stopped => s.posts <= LAST_ATTEMPT + 1 && s.delivered <= 1 && s.acknowledged <= s.delivered && !s.sent
    case _ => false
  }

  /** .pending belongs to one process at a time. */
  ghost predicate LockHeld(s: System) {
    && (forall p :: 0 <= p < |s.pc| && Holding(s.pc[p]) ==> s.pending)
    && (forall p, q :: 0 <= p < |s.pc| && 0 <= q < |s.pc| && p != q && Holding(s.pc[p]) ==> !Holding(s.pc[q]))
    && (forall p :: 0 <= p < |s.pc| && s.pc[p].Unlocking? ==> s.sent)
  }

  /** One process sends, and until .sent it alone can hold .pending, which then stays. */
  ghost predicate OneSender(s: System) {
    && (forall p :: 0 <= p < |s.pc| && Sending(s.pc[p]) ==> s.sender == Some(p))
    && (s.sender.None? ==> !s.sent && s.posts == 0 && s.delivered == 0 && s.acknowledged == 0)
    && (s.sender.Some? ==> s.sender.value < |s.pc| && SenderAt(s, s.pc[s.sender.value]))
    && (s.sender.Some? && !s.sent ==>
          s.pending && forall p :: 0 <= p < |s.pc| ==> !s.pc[p].Locked?)
  }

  ghost predicate Exclusive(s: System) {
    // The match is there for the proofs: the verifier keeps such a body folded where it is asserted.
    match s case System(_, _, _, _, _, _, _) => LockHeld(s) && OneSender(s)
  }

  lemma NextLockHeld(s: System, a: Action)
    requires Exclusive(s)
    ensures LockHeld(Next(s, a))
  {
    var t := Next(s, a);
    if a.p < |s.pc| && t != s {
      assert forall q :: 0 <= q < |s.pc| && q != a.p ==> t.pc[q] == s.pc[q];
      assert Holding(t.pc[a.p]) ==> Holding(s.pc[a.p]) || (s.pc[a.p].Checked? && !s.pending);
    }
  }

  /** What one process's move to t must respect for OneSender to survive it. */
  lemma MovedOneSender(s: System, t: System, p: nat)
    requires Exclusive(s) && p < |s.pc| && |t.pc| == |s.pc|
    requires forall q :: 0 <= q < |s.pc| && q != p ==> t.pc[q] == s.pc[q]
    requires Sending(t.pc[p]) ==> t.sender == Some(p)
    requires t.sender == s.sender || (s.sender.None? && t.sender == Some(p))
    requires t.sender == Some(p) ==> SenderAt(t, t.pc[p])
    requires t.sender != Some(p) ==>
      t.sent == s.sent && t.posts == s.posts && t.delivered == s.delivered && t.acknowledged == s.acknowledged
    requires t.sender.Some? && !t.sent ==> t.pending && !t.pc[p].Locked?
    requires s.sender.None? && t.sender.Some? ==> Holding(s.pc[p])
    requires s.sent ==> t.sent
    ensures OneSender(t)
  {
    assert Holding(s.pc[p]) ==> forall q :: 0 <= q < |s.pc| && q != p ==> !Holding(s.pc[q]);
  }

  lemma NextOneSender(s: System, a: Action)
    requires Exclusive(s)
    ensures OneSender(Next(s, a))
  {
    var t := Next(s, a);
    if a.p < |s.pc| && t != s {
      assert Holding(s.pc[a.p]) ==> s.pending;
      assert Sending(s.pc[a.p]) ==> s.sender == Some(a.p);
      assert s.pc[a.p].Locked? && s.sender.Some? ==> s.sent;
      if a.Step? { StepOneSender(s, a.p); } else { MovedOneSender(s, t, a.p); }
    }
  }

  lemma StepOneSender(s: System, p: nat)
    requires Exclusive(s) && p < |s.pc| && FileStep(s, p) != s
    ensures OneSender(FileStep(s, p))
  {
    assert Holding(s.pc[p]) ==> s.pending;
    assert Sending(s.pc[p]) ==> s.sender == Some(p);
    assert s.pc[p].Locked? && s.sender.Some? ==> s.sent;
    MovedOneSender(s, FileStep(s, p), p);
  }

  lemma NextExclusive(s: System, a: Action)
    requires Exclusive(s)
    ensures Exclusive(Next(s, a))
    ensures |Next(s, a).pc| == |s.pc|
    ensures s.sender.Some? ==> Next(s, a).sender == s.sender
  {
    NextLockHeld(s, a);
    NextOneSender(s, a);
    if a.Step? && a.p < |s.pc| && s.pc[a.p].Locked? && s.sender.Some? {
      assert s.sent;
    }
  }

  lemma {:induction false} RunExclusive(s: System, actions: seq<Action>)
    requires Exclusive(s)
    ensures Exclusive(Run(s, actions))
    ensures |Run(s, actions).pc| == |s.pc|
    ensures s.sender.Some? ==> Run(s, actions).sender == s.sender
    decreases |actions|
  {
    if actions != [] {
      NextExclusive(s, actions[0]);
      RunExclusive(Next(s, actions[0]), actions[1..]);
    }
  }

  /**
   * For any number of processes, interleaving and crashes: at most four POSTs, at most one
   * delivery, and .sent only after one acknowledged delivery by the one process that sends.
   */
  lemma AtMostOneDelivery(n: nat, actions: seq<Action>)
    ensures var s := Run(Start(n), actions);
      && s.posts <= 4 && s.delivered <= 1
      && (s.sent ==> s.acknowledged == 1 && s.delivered == 1)
      && (forall p :: 0 <= p < |s.pc| && Sending(s.pc[p]) ==> s.sender == Some(p))
  {
    RunExclusive(Start(n), actions);
  }

  /** Only one process ever reaches the POST loop: later the sender is still the same. */
  lemma OneSenderForever(n: nat, before: seq<Action>, after: seq<Action>, p: nat, q: nat)
    requires var s := Run(Start(n), before); p < |s.pc| && Sending(s.pc[p])
    requires var t := Run(Run(Start(n), before), after); q < |t.pc| && Sending(t.pc[q])
    ensures p == q
  {
    var s := Run(Start(n), before);
    RunExclusive(Start(n), before);
    RunExclusive(s, after);
  }

  // ---- an unknown outcome blocks ----

  /** The sender gave up or died before .sent: the outcome is for a person to settle. */
  predicate Unsettled(s: System) {
    s.sender.Some? && s.sender.value < |s.pc| && s.pc[s.sender.value].Stopped?
  }

  lemma {:induction false} UnsettledBlocks(s: System, actions: seq<Action>)
    requires Exclusive(s) && Unsettled(s)
    ensures var t := Run(s, actions);
      Unsettled(t) && t.pending && !t.sent && t.posts == s.posts && t.delivered == s.delivered
    decreases |actions|
  {
    if actions != [] {
      NextExclusive(s, actions[0]);
      UnsettledBlocks(Next(s, actions[0]), actions[1..]);
    }
  }

  /** Any receipt but success and a retryable rate limit leaves .pending, for good. */
  lemma UnknownOutcomeBlocks(n: nat, before: seq<Action>, p: nat, receipt: Receipt, after: seq<Action>)
    requires var s := Run(Start(n), before);
      p < |s.pc| && s.pc[p].Awaiting? && Truthful(s.pc[p].arrived, receipt)
          && AfterReply(s.pc[p].attempt, receipt).Stopped?
    ensures var s := Run(Start(n), before);
      var t := Run(Next(s, Reply(p, receipt)), after);
      t.pending && !t.sent && t.posts == s.posts && t.delivered == s.delivered
  {
    var s := Run(Start(n), before);
    RunExclusive(Start(n), before);
    NextExclusive(s, Reply(p, receipt));
    UnsettledBlocks(Next(s, Reply(p, receipt)), after);
  }

  // ---- the program ----

  /** One POST: whether it reaches the group, and its response (None: timeout or network error). */
  datatype Exchange = Exchange(arrives: bool, response: Option<Response>)

  /** There was a reply, and it reports the code. */
  predicate Replied(x: Exchange, code: int) {
    x.response.Some? && Reports(x.response.value, code)
  }

  function ReceiptOf(x: Exchange): (receipt: Receipt)
    ensures receipt == Delivered <==> Replied(x, 0)
    ensures forall c :: receipt == Code(c) <==> c != 0 && Replied(x, c)
  {
    if x.response.None? then Unclear else Classify(x.response.value)
  }

  lemma {:induction false} RunAppend(s: System, actions: seq<Action>, more: seq<Action>)
    ensures Run(s, actions + more) == Run(Run(s, actions), more)
    decreases |actions|
  {
    if actions == [] {
      assert actions + more == more;
    } else {
      assert (actions + more)[1..] == actions[1..] + more;
      RunAppend(Next(s, actions[0]), actions[1..], more);
    }
  }

  lemma {:induction false} OthersKeepPc(s: System, actions: seq<Action>, p: nat)
    requires Exclusive(s) && p < |s.pc| && forall i :: 0 <= i < |actions| ==> actions[i].p != p
    ensures p < |Run(s, actions).pc| && Run(s, actions).pc[p] == s.pc[p]
    ensures Run(s, actions).sender == Some(p) <==> s.sender == Some(p)
    decreases |actions|
  {
    if actions != [] {
      NextExclusive(s, actions[0]);
      OthersKeepPc(Next(s, actions[0]), actions[1..], p);
    }
  }

  lemma IdleSendsNothing(s: System, p: nat)
    requires Exclusive(s) && p < |s.pc| && s.pc[p].Idle?
    ensures s.sender != Some(p)
  {
  }

  /** The actions of other processes that happen between two actions of process p. */
  type Interference = nat -> seq<Action>

  ghost predicate ByOthers(others: Interference, p: nat) {
    forall n, i :: 0 <= i < |others(n)| ==> others(n)[i].p != p
  }

  /**
   * The two marker files in a world of processes. The fields are what file operations
   * read and write; now is where every process stands, and Valid says they agree.
   */
  class Files {
    var pending: bool
    var sent: bool
    var now: System
    ghost const before: System
    ghost var actions: seq<Action>

    ghost predicate Valid()
      reads this
    {
      pending == now.pending && sent == now.sent && now == Run(before, actions) && Exclusive(now)
    }

    ghost predicate At(p: nat, pc: Pc)
      reads this
    {
      Valid() && p < |now.pc| && now.pc[p] == pc
    }

    constructor (s: System)
      requires Exclusive(s)
      ensures Valid() && now == before == s && actions == []
    {
      pending, sent := s.pending, s.sent;
      now, before, actions := s, s, [];
    }

    /** An action whose effect on the files has just been carried out. */
    method Record(a: Action)
      requires now == Run(before, actions) && Exclusive(now)
      requires pending == Next(now, a).pending && sent == Next(now, a).sent
      modifies this`now, this`actions
      ensures Valid() && now == Next(old(now), a) && actions == old(actions) + [a]
    {
      NextExclusive(now, a);
      RunAppend(before, actions, [a]);
      assert Run(now, [a]) == Run(Next(now, a), []);
      now, actions := Next(now, a), actions + [a];
    }

    method OthersAct(p: nat, others: seq<Action>)
      requires Valid() && p < |now.pc| && forall i :: 0 <= i < |others| ==> others[i].p != p
      modifies this
      ensures At(p, old(now).pc[p])
      ensures Holding(old(now).pc[p]) ==> pending
      ensures others == [] ==> now == old(now)
      ensures now.sender == Some(p) <==> old(now).sender == Some(p)
    {
      RunExclusive(now, others);
      OthersKeepPc(now, others, p);
      RunAppend(before, actions, others);
      now, actions := Run(now, others), actions + others;
      pending, sent := now.pending, now.sent;
    }
  }

  /** existsSync(.sent), before and after taking the lock. */
  method CheckSent(files: Files, p: nat, others: seq<Action>, locked: bool) returns (sent: bool)
    requires files.At(p, if locked then Locked else Idle) && forall i :: 0 <= i < |others| ==> others[i].p != p
    modifies files
    ensures files.At(p, if locked then (if sent then Unlocking else Posting(0))
                        else (if sent then Stopped else Checked))
    ensures files.now.sender == Some(p) <==> (old(files.now.sender) == Some(p) || (locked && !sent))
    ensures others == [] ==> sent == old(files.sent) == files.sent && files.pending == old(files.pending)
  {
    files.OthersAct(p, others);
    sent := files.sent;
    files.Record(Step(p));
  }

  /** writeFileSync(.pending) with flag wx: false is EEXIST. */
  method CreatePending(files: Files, p: nat, others: seq<Action>) returns (created: bool)
    requires files.At(p, Checked) && forall i :: 0 <= i < |others| ==> others[i].p != p
    modifies files
    ensures files.At(p, if created then Locked else Stopped) && files.pending
    ensures files.now.sender == Some(p) <==> old(files.now.sender) == Some(p)
    ensures others == [] ==> created == !old(files.pending) && files.sent == old(files.sent)
  {
    files.OthersAct(p, others);
    created := !files.pending;
    files.pending := true;
    files.Record(Step(p));
  }

  /** unlinkSync(.pending) after losing the race. */
  method UnlinkPending(files: Files, p: nat, others: seq<Action>)
    requires files.At(p, Unlocking) && forall i :: 0 <= i < |others| ==> others[i].p != p
    modifies files
    ensures files.At(p, Stopped) && !files.pending
    ensures files.now.sender == Some(p) <==> old(files.now.sender) == Some(p)
  {
    files.OthersAct(p, others);
    files.pending := false;
    files.Record(Step(p));
  }

  /** From the .sent check to the POST loop; the loop is entered holding .pending. */
  method TakeNotice(files: Files, p: nat, others: Interference) returns (taken: bool)
    requires files.At(p, Idle) && ByOthers(others, p)
    modifies files
    ensures files.At(p, if taken then Posting(0) else Stopped)
    ensures taken <==> files.now.sender == Some(p)
    ensures (old(files.sent) && others(0) == []) || (old(files.pending) && others(0) == [] == others(1)) ==> !taken
    ensures !old(files.sent) && !old(files.pending) && others(0) == [] == others(1) && others(2) == [] ==> taken
  {
    IdleSendsNothing(files.now, p);
    var sent := CheckSent(files, p, others(0), false);
    if sent {
      return false;
    }
    var created := CreatePending(files, p, others(1));
    if !created {
      return false;
    }
    sent := CheckSent(files, p, others(2), true);
    if sent {
      UnlinkPending(files, p, others(3));
    }
    return !sent;
  }

  /** writeFileSync(.pending): the time of the receipt. */
  method StampPending(files: Files, p: nat, others: seq<Action>)
    requires files.At(p, Acknowledged) && forall i :: 0 <= i < |others| ==> others[i].p != p
    modifies files
    ensures files.At(p, Stamped) && files.pending
    ensures files.now.sender == Some(p) <==> old(files.now.sender) == Some(p)
  {
    files.OthersAct(p, others);
    files.pending := true;
    files.Record(Step(p));
  }

  /** renameSync(.pending, .sent). */
  method RenamePending(files: Files, p: nat, others: seq<Action>)
    requires files.At(p, Stamped) && forall i :: 0 <= i < |others| ==> others[i].p != p
    modifies files
    ensures files.At(p, Done) && files.sent && !files.pending
    ensures files.now.sender == Some(p) <==> old(files.now.sender) == Some(p)
  {
    files.OthersAct(p, others);
    files.pending, files.sent := false, true;
    files.Record(Step(p));
  }

  /** .pending is rewritten with the time and renamed to .sent. */
  method Publish(files: Files, p: nat, others: Interference)
    requires files.At(p, Acknowledged) && ByOthers(others, p) && files.now.sender == Some(p)
    modifies files
    ensures files.At(p, Done) && files.sent && !files.pending && files.now.sender == Some(p)
  {
    StampPending(files, p, others(4));
    RenamePending(files, p, others(5));
  }

  /**
   * main, past argument parsing and the dry run, as process p among others. Every file
   * operation and POST is an action of p in the system, and main returns normally exactly
   * when it renamed .pending to .sent.
   */
  method SendNotice(files: Files, p: nat, network: nat -> Exchange, others: Interference)
    returns (ok: bool, posts: nat)
    requires files.At(p, Idle) && ByOthers(others, p)
    requires forall k :: Truthful(network(k).arrives, ReceiptOf(network(k)))
    modifies files
    ensures files.At(p, if ok then Done else Stopped)
    ensures posts <= 4 && (posts > 0 <==> files.now.sender == Some(p))
    ensures ok ==> files.sent && !files.pending
    ensures ok <==> posts > 0 && Replied(network(posts - 1), 0)
    ensures forall k :: 0 <= k < posts - 1 ==> Replied(network(k), 11232)
    ensures forall k :: 0 <= k < posts && k < 3 && Replied(network(k), 11232) ==> k + 1 < posts
    ensures (old(files.sent) && others(0) == []) || (old(files.pending) && others(0) == [] == others(1)) ==> posts == 0
    ensures !old(files.sent) && !old(files.pending) && others(0) == [] == others(1) && others(2) == [] ==> posts > 0
  {
    ok, posts := false, 0;
    var taken := TakeNotice(files, p, others);
    if taken {
      posts, ok := PostUntilDecided(files, p, network, others);
      if ok {
        Publish(files, p, others);
      }
    }
  }

  /** One POST and its receipt. */
  method PostOnce(files: Files, p: nat, attempt: nat, exchange: Exchange, others: Interference)
      returns (receipt: Receipt)
    requires files.At(p, Posting(attempt)) && ByOthers(others, p)
    requires Truthful(exchange.arrives, ReceiptOf(exchange))
    modifies files
    ensures receipt == ReceiptOf(exchange) && files.At(p, AfterReply(attempt, receipt))
    ensures files.now.sender == Some(p) <==> old(files.now.sender) == Some(p)
  {
    files.OthersAct(p, others(6 + 2 * attempt));
    files.Record(Post(p, exchange.arrives));
    files.OthersAct(p, others(7 + 2 * attempt));
    receipt := ReceiptOf(exchange);
    files.Record(Reply(p, receipt));
  }

  /** The POST loop: ends with a success receipt, or stopped with .pending kept. */
  method PostUntilDecided(files: Files, p: nat, network: nat -> Exchange, others: Interference)
    returns (posts: nat, delivered: bool)
    requires files.At(p, Posting(0)) && ByOthers(others, p) && files.now.sender == Some(p)
    requires forall k :: Truthful(network(k).arrives, ReceiptOf(network(k)))
    modifies files
    ensures 0 < posts <= 4 && files.now.sender == Some(p)
    ensures delivered <==> Replied(network(posts - 1), 0)
    ensures files.At(p, if delivered then Acknowledged else Stopped)
    ensures forall k :: 0 <= k < posts - 1 ==> Replied(network(k), 11232)
    ensures forall k :: 0 <= k < posts && k < 3 && Replied(network(k), 11232) ==> k + 1 < posts
  {
    var attempt := 0;
    while true
      invariant attempt <= LAST_ATTEMPT && files.At(p, Posting(attempt)) && files.now.sender == Some(p)
      invariant forall k :: 0 <= k < attempt ==> Replied(network(k), 11232)
      decreases LAST_ATTEMPT - attempt
    {
      var receipt := PostOnce(files, p, attempt, network(attempt), others);
      if receipt == Delivered {
        return attempt + 1, true;
      }
      if receipt != Code(RATE_LIMITED) || attempt >= LAST_ATTEMPT {
        return attempt + 1, false;
      }
      attempt := attempt + 1;
    }
  }
}
