/** The plan of the interview.passed backfill: one row per recovered work order, bookings assigned greedily. */
module BackfillPlan {
  import opened Basics

  const TARGET_CORP := "prod-sync"

  datatype Booking = Booking(workOrderId: string, corpId: Option<string>, botImId: Option<string>,
                             chatId: Option<string>, store: Option<string>, brand: Option<string>)

  datatype Recovered = Recovered(userId: string, workOrderId: nat, botImId: Option<string>,
                                 chatId: Option<string>, store: Option<string>, brand: Option<string>)

  /** What is read from the target: bookings by user, work orders and keys of passed interviews on record. */
  datatype Ledger = Ledger(bookings: map<string, seq<Booking>>, used: set<string>, keys: set<string>)

  datatype How = Matched | KpiOnlyDup | KpiOnlyNoBooking

  datatype Row = Row(key: string, isExisting: bool, how: How, cohort: string, corpId: string,
                     botImId: Option<string>, chatId: Option<string>, userId: string, original: nat)

  datatype Stats = Stats(matched: nat, kpiOnlyDup: nat, kpiOnlyNoBooking: nat, existingDup: nat)

  datatype Plan = Plan(rows: seq<Row>, used: set<string>, stats: Stats)

  // ---- one row per work order ----

  /** The first record of each work order, in order. */
  function Unique(rs: seq<Recovered>): seq<Recovered> {
    if rs == [] then []
    else
      var init, last := rs[..|rs| - 1], rs[|rs| - 1];
      if HasOrder(init, last.workOrderId) then Unique(init) else Unique(init) + [last]
  }

  predicate HasOrder(rs: seq<Recovered>, id: nat) {
    exists i :: 0 <= i < |rs| && rs[i].workOrderId == id
  }

  method FirstRecords(rs: seq<Recovered>) returns (uniq: seq<Recovered>)
    ensures uniq == Unique(rs)
  {
    uniq := [];
    var seen: set<nat> := {};
    for i := 0 to |rs|
      invariant uniq == Unique(rs[..i])
      invariant forall id: nat :: id in seen <==> HasOrder(rs[..i], id)
    {
      assert rs[..i + 1][..i] == rs[..i];
      var id := rs[i].workOrderId;
      if id !in seen {
        uniq := uniq + [rs[i]];
      }
      forall other: nat ensures HasOrder(rs[..i + 1], other) <==> HasOrder(rs[..i], other) || other == id {
        assert rs[..i + 1][i].workOrderId == id;
        assert forall k :: 0 <= k < i ==> rs[..i + 1][k] == rs[..i][k];
      }
      seen := seen + {id};
    }
    assert rs[..|rs|] == rs;
  }

  ghost predicate DistinctOrders(rs: seq<Recovered>) {
    forall i, j :: 0 <= i < j < |rs| ==> rs[i].workOrderId != rs[j].workOrderId
  }

  /** One record per work order and none lost. */
  lemma {:induction false} UniqueOrders(rs: seq<Recovered>)
    ensures DistinctOrders(Unique(rs))
    ensures forall id: nat :: HasOrder(Unique(rs), id) <==> HasOrder(rs, id)
  {
    if rs != [] {
      var init, last := rs[..|rs| - 1], rs[|rs| - 1];
      UniqueOrders(init);
      OrdersOfSnoc(init, last);
      OrdersOfSnoc(Unique(init), last);
      assert rs == init + [last];
    }
  }

  /** Record i is the first of its work order. */
  predicate IsFirst(rs: seq<Recovered>, i: nat) {
    i < |rs| && !HasOrder(rs[..i], rs[i].workOrderId)
  }

  /** Each record kept is the first of its work order. */
  lemma {:induction false} UniqueKeepsFirst(rs: seq<Recovered>, k: nat) returns (i: nat)
    requires k < |Unique(rs)|
    ensures IsFirst(rs, i) && rs[i] == Unique(rs)[k]
  {
    var init := rs[..|rs| - 1];
    if k < |Unique(init)| {
      i := UniqueKeepsFirst(init, k);
      assert rs[..i] == init[..i];
    } else {
      i := |init|;
    }
  }

  lemma OrdersOfSnoc(rs: seq<Recovered>, last: Recovered)
    ensures forall id: nat :: HasOrder(rs + [last], id) <==> HasOrder(rs, id) || id == last.workOrderId
  {
    var more := rs + [last];
    forall id: nat ensures HasOrder(more, id) <==> HasOrder(rs, id) || id == last.workOrderId {
      assert more[|rs|] == last;
      if i :| 0 <= i < |rs| && rs[i].workOrderId == id {
        assert more[i].workOrderId == id;
      }
    }
  }

  // ---- choosing a booking ----

  /** Both present, non-empty and equal. */
  predicate SameName(a: Option<string>, b: Option<string>) {
    a.Some? && b.Some? && a.value != "" && a == b
  }

  function Find(bookings: seq<Booking>, p: Booking -> bool): (found: Option<Booking>)
    ensures found.Some? ==> found.value in bookings && p(found.value)
    ensures found.None? ==> forall b :: b in bookings ==> !p(b)
  {
    if bookings == [] then None else if p(bookings[0]) then Some(bookings[0]) else Find(bookings[1..], p)
  }

  /** What is found is the first that passes. */
  lemma {:induction false} FindsFirst(bookings: seq<Booking>, p: Booking -> bool) returns (k: nat)
    requires Find(bookings, p).Some?
    ensures k < |bookings| && Find(bookings, p) == Some(bookings[k]) && p(bookings[k])
    ensures forall j :: 0 <= j < k ==> !p(bookings[j])
  {
    if p(bookings[0]) {
      k := 0;
    } else {
      var rest := bookings[1..];
      var n := FindsFirst(rest, p);
      k := n + 1;
      forall j | 0 <= j < k ensures !p(bookings[j]) {
        assert j > 0 ==> rest[j - 1] == bookings[j];
      }
    }
  }

  function ByStore(candidates: seq<Booking>, r: Recovered): Option<Booking> {
    Find(candidates, (c: Booking) => SameName(c.store, r.store))
  }

  function ByBrand(candidates: seq<Booking>, r: Recovered): Option<Booking> {
    Find(candidates, (c: Booking) => SameName(c.brand, r.brand))
  }

  function ByUse(candidates: seq<Booking>, used: set<string>): Option<Booking> {
    Find(candidates, (c: Booking) => c.workOrderId !in used)
  }

  function Choose(candidates: seq<Booking>, r: Recovered, used: set<string>): (booking: Option<Booking>)
    ensures booking.Some? <==> candidates != []
    ensures booking.Some? ==> booking.value in candidates
  {
    if candidates == [] then None
    else if |candidates| == 1 then Some(candidates[0])
    else if ByStore(candidates, r).Some? then ByStore(candidates, r)
    else if ByBrand(candidates, r).Some? then ByBrand(candidates, r)
    else if ByUse(candidates, used).Some? then ByUse(candidates, used)
    else Some(candidates[0])
  }

  function Candidates(ledger: Ledger, r: Recovered): seq<Booking> {
    if r.userId in ledger.bookings then ledger.bookings[r.userId] else []
  }

  // ---- the plan loop ----

  function KeyOf(id: nat): string {
    Decimal(id) + ":pass"
  }

  function Or(a: Option<string>, b: Option<string>): Option<string> {
    if a.Some? then a else b
  }

  function NextRow(ledger: Ledger, used: set<string>, r: Recovered): Row {
    var key := KeyOf(r.workOrderId);
    match Choose(Candidates(ledger, r), r, used)
    case Some(b) =>
      if b.workOrderId !in used then
        Row(key, key in ledger.keys, Matched, b.workOrderId,
            if b.corpId.Some? && b.corpId.value != "" then b.corpId.value else TARGET_CORP,
            Or(b.botImId, r.botImId), Or(b.chatId, r.chatId), r.userId, r.workOrderId)
      else
        Row(key, key in ledger.keys, KpiOnlyDup, Decimal(r.workOrderId), TARGET_CORP, r.botImId, r.chatId,
            r.userId, r.workOrderId)
    case None =>
      Row(key, key in ledger.keys, KpiOnlyNoBooking, Decimal(r.workOrderId), TARGET_CORP, r.botImId, r.chatId,
          r.userId, r.workOrderId)
  }

  function Counted(stats: Stats, row: Row): Stats {
    var s := if row.isExisting then stats.(existingDup := stats.existingDup + 1) else stats;
    match row.how
    case Matched => s.(matched := s.matched + 1)
    case KpiOnlyDup => s.(kpiOnlyDup := s.kpiOnlyDup + 1)
    case KpiOnlyNoBooking => s.(kpiOnlyNoBooking := s.kpiOnlyNoBooking + 1)
  }

  /** One round of the plan loop, given how rows are made. */
  function Extended(next: (set<string>, Recovered) -> Row, plan: Plan, r: Recovered): Plan {
    var row := next(plan.used, r);
    Plan(plan.rows + [row], if row.how.Matched? then plan.used + {row.cohort} else plan.used, Counted(plan.stats, row))
  }

  function PlannedBy(next: (set<string>, Recovered) -> Row, used: set<string>, rs: seq<Recovered>): (plan: Plan)
    ensures |plan.rows| == |rs|
  {
    if rs == [] then Plan([], used, Stats(0, 0, 0, 0))
    else Extended(next, PlannedBy(next, used, rs[..|rs| - 1]), rs[|rs| - 1])
  }

  function Next(ledger: Ledger): (set<string>, Recovered) -> Row {
    (used, r) => NextRow(ledger, used, r)
  }

  function Planned(ledger: Ledger, rs: seq<Recovered>): (plan: Plan)
    ensures |plan.rows| == |rs|
  {
    PlannedBy(Next(ledger), ledger.used, rs)
  }

  method BuildPlan(ledger: Ledger, recovered: seq<Recovered>) returns (rows: seq<Row>, used: set<string>, stats: Stats)
    ensures Plan(rows, used, stats) == Planned(ledger, Unique(recovered))
  {
    var uniq := FirstRecords(recovered);
    rows, used, stats := [], ledger.used, Stats(0, 0, 0, 0);
    for i := 0 to |uniq|
      invariant Plan(rows, used, stats) == Planned(ledger, uniq[..i])
    {
      assert uniq[..i + 1][..i] == uniq[..i];
      rows, used, stats := PlanOne(ledger, uniq[i], rows, used, stats);
    }
    assert uniq[..|uniq|] == uniq;
  }

  method PlanOne(ledger: Ledger, r: Recovered, rows0: seq<Row>, used0: set<string>, stats0: Stats)
    returns (rows: seq<Row>, used: set<string>, stats: Stats)
    ensures Plan(rows, used, stats) == Extended(Next(ledger), Plan(rows0, used0, stats0), r)
  {
    used, stats := used0, stats0;
    var booking := Choose(Candidates(ledger, r), r, used);
    var cohort, how, corpId := Decimal(r.workOrderId), KpiOnlyNoBooking, TARGET_CORP;
    var botImId, chatId := r.botImId, r.chatId;
    if booking.Some? && booking.value.workOrderId !in used {
      var b := booking.value;
      used := used + {b.workOrderId};
      cohort, how := b.workOrderId, Matched;
      corpId := if b.corpId.Some? && b.corpId.value != "" then b.corpId.value else TARGET_CORP;
      botImId, chatId := Or(b.botImId, r.botImId), Or(b.chatId, r.chatId);
      stats := stats.(matched := stats.matched + 1);
    } else if booking.Some? {
      how := KpiOnlyDup;
      stats := stats.(kpiOnlyDup := stats.kpiOnlyDup + 1);
    } else {
      stats := stats.(kpiOnlyNoBooking := stats.kpiOnlyNoBooking + 1);
    }
    var key := KeyOf(r.workOrderId);
    var isExisting := key in ledger.keys;
    if isExisting {
      stats := stats.(existingDup := stats.existingDup + 1);
    }
    rows := rows0 + [Row(key, isExisting, how, cohort, corpId, botImId, chatId, r.userId, r.workOrderId)];
  }

  // ---- what the plan guarantees ----

  /** The cohort ids the first rows took. */
  ghost function TakenBy(rows: seq<Row>): set<string> {
    set i | 0 <= i < |rows| && rows[i].how.Matched? :: rows[i].cohort
  }

  lemma {:induction false} UsedByPlan(next: (set<string>, Recovered) -> Row, used: set<string>, rs: seq<Recovered>)
    ensures PlannedBy(next, used, rs).used == used + TakenBy(PlannedBy(next, used, rs).rows)
  {
    if rs != [] {
      UsedByPlan(next, used, rs[..|rs| - 1]);
      var before := PlannedBy(next, used, rs[..|rs| - 1]);
      TakenSnoc(before.rows, next(before.used, rs[|rs| - 1]));
    }
  }

  /** Row i is made for record i, with the ids of the ledger and of the matched rows before it in use. */
  lemma {:induction false} RowsInOrder(next: (set<string>, Recovered) -> Row, used: set<string>, rs: seq<Recovered>)
    ensures var rows := PlannedBy(next, used, rs).rows;
      forall i :: 0 <= i < |rs| ==> rows[i] == next(used + TakenBy(rows[..i]), rs[i])
  {
    if rs != [] {
      var init := rs[..|rs| - 1];
      RowsInOrder(next, used, init);
      UsedByPlan(next, used, init);
      var before, rows := PlannedBy(next, used, init).rows, PlannedBy(next, used, rs).rows;
      assert rows[..|init|] == before;
      forall i | 0 <= i < |rs| ensures rows[i] == next(used + TakenBy(rows[..i]), rs[i]) {
        if i < |init| {
          assert rows[..i] == before[..i];
        }
      }
    }
  }

  lemma TakenSnoc(rows: seq<Row>, row: Row)
    ensures TakenBy(rows + [row]) == TakenBy(rows) + if row.how.Matched? then {row.cohort} else {}
  {
    var more := rows + [row];
    forall c ensures c in TakenBy(more) <==> c in TakenBy(rows) || (row.how.Matched? && c == row.cohort) {
      if c in TakenBy(rows) {
        var i :| 0 <= i < |rows| && rows[i].how.Matched? && rows[i].cohort == c;
        assert more[i].cohort == c;
      }
      assert more[|rows|] == row;
    }
  }

  lemma KeysTellApart(a: nat, b: nat)
    requires KeyOf(a) == KeyOf(b)
    ensures a == b
  {
    DecimalRoundTrip(a);
    DecimalRoundTrip(b);
    assert KeyOf(a)[..|KeyOf(a)| - 5] == Decimal(a) && KeyOf(b)[..|KeyOf(b)| - 5] == Decimal(b);
  }

  /** What every row says of its record. */
  lemma RowOf(ledger: Ledger, used: set<string>, r: Recovered)
    ensures var row := Next(ledger)(used, r);
      && row.key == KeyOf(r.workOrderId) && (row.isExisting <==> row.key in ledger.keys)
      && (row.how.Matched? ==> row.cohort !in used && IsOwn(ledger, r, row.cohort))
  {
  }

  ghost predicate IsOwn(ledger: Ledger, r: Recovered, cohort: string) {
    exists b :: b in Candidates(ledger, r) && b.workOrderId == cohort
  }

  lemma KeysOfPlan(ledger: Ledger, rs: seq<Recovered>)
    ensures var rows := Planned(ledger, rs).rows;
      forall i :: 0 <= i < |rs| ==>
        rows[i].key == KeyOf(rs[i].workOrderId) && (rows[i].isExisting <==> rows[i].key in ledger.keys)
  {
    RowsInOrder(Next(ledger), ledger.used, rs);
    var rows := Planned(ledger, rs).rows;
    forall i | 0 <= i < |rs|
      ensures rows[i].key == KeyOf(rs[i].workOrderId) && (rows[i].isExisting <==> rows[i].key in ledger.keys)
    {
      RowOf(ledger, ledger.used + TakenBy(rows[..i]), rs[i]);
    }
  }

  ghost predicate HasKey(rows: seq<Row>, key: string) {
    exists i :: 0 <= i < |rows| && rows[i].key == key
  }

  /** Planned idempotency keys are pairwise distinct: exactly one per recovered work order. */
  lemma KeysDistinct(ledger: Ledger, recovered: seq<Recovered>)
    ensures var rows := Planned(ledger, Unique(recovered)).rows;
      (forall i, j :: 0 <= i < j < |rows| ==> rows[i].key != rows[j].key)
      && forall id: nat :: HasKey(rows, KeyOf(id)) <==> HasOrder(recovered, id)
  {
    UniqueOrders(recovered);
    KeysOfPlan(ledger, Unique(recovered));
    KeysFollowOrders(Unique(recovered), Planned(ledger, Unique(recovered)).rows);
  }

  lemma KeysFollowOrders(rs: seq<Recovered>, rows: seq<Row>)
    requires |rows| == |rs| && DistinctOrders(rs)
    requires forall i :: 0 <= i < |rs| ==> rows[i].key == KeyOf(rs[i].workOrderId)
    ensures forall i, j :: 0 <= i < j < |rows| ==> rows[i].key != rows[j].key
    ensures forall id: nat :: HasKey(rows, KeyOf(id)) <==> HasOrder(rs, id)
  {
    forall i, j | 0 <= i < j < |rows| ensures rows[i].key != rows[j].key {
      if rows[i].key == rows[j].key { KeysTellApart(rs[i].workOrderId, rs[j].workOrderId); }
    }
    forall id: nat ensures HasKey(rows, KeyOf(id)) <==> HasOrder(rs, id) {
      if i :| 0 <= i < |rows| && rows[i].key == KeyOf(id) { KeysTellApart(rs[i].workOrderId, id); }
      if i :| 0 <= i < |rs| && rs[i].workOrderId == id { assert rows[i].key == KeyOf(id); }
    }
  }

  lemma TakenBefore(rows: seq<Row>, i: nat, j: nat)
    requires i < j <= |rows| && rows[i].how.Matched?
    ensures rows[i].cohort in TakenBy(rows[..j])
  {
    assert rows[..j][i] == rows[i];
  }

  /** Matched rows take pairwise distinct bookings of their own users that were not on record before. */
  lemma AssignmentIsInjective(ledger: Ledger, rs: seq<Recovered>)
    ensures var rows := Planned(ledger, rs).rows;
      && (forall i, j :: 0 <= i < j < |rows| && rows[i].how.Matched? && rows[j].how.Matched? ==>
          rows[i].cohort != rows[j].cohort)
      && (forall i :: 0 <= i < |rows| && rows[i].how.Matched? ==>
           rows[i].cohort !in ledger.used && IsOwn(ledger, rs[i], rows[i].cohort))
  {
    RowsInOrder(Next(ledger), ledger.used, rs);
    var rows := Planned(ledger, rs).rows;
    forall i | 0 <= i < |rows| && rows[i].how.Matched?
      ensures rows[i].cohort !in ledger.used + TakenBy(rows[..i]) && IsOwn(ledger, rs[i], rows[i].cohort)
    {
      RowOf(ledger, ledger.used + TakenBy(rows[..i]), rs[i]);
    }
    forall i, j | 0 <= i < j < |rows| && rows[i].how.Matched? && rows[j].how.Matched?
      ensures rows[i].cohort != rows[j].cohort
    {
      TakenBefore(rows, i, j);
    }
  }

  function CountOf(rows: seq<Row>, how: How): nat {
    if rows == [] then 0 else CountOf(rows[..|rows| - 1], how) + if rows[|rows| - 1].how == how then 1 else 0
  }

  function ExistingIn(rows: seq<Row>): nat {
    if rows == [] then 0 else ExistingIn(rows[..|rows| - 1]) + if rows[|rows| - 1].isExisting then 1 else 0
  }

  ghost predicate StatsOf(stats: Stats, rows: seq<Row>) {
    && stats.matched == CountOf(rows, Matched)
    && stats.kpiOnlyDup == CountOf(rows, KpiOnlyDup)
    && stats.kpiOnlyNoBooking == CountOf(rows, KpiOnlyNoBooking)
    && stats.existingDup == ExistingIn(rows)
  }

  lemma CountOne(stats: Stats, rows: seq<Row>, row: Row)
    requires StatsOf(stats, rows)
    ensures StatsOf(Counted(stats, row), rows + [row])
  {
    CountSnoc(rows, row, Matched);
    CountSnoc(rows, row, KpiOnlyDup);
    CountSnoc(rows, row, KpiOnlyNoBooking);
    CountedOne(stats, row);
  }

  lemma CountSnoc(rows: seq<Row>, row: Row, how: How)
    ensures CountOf(rows + [row], how) == CountOf(rows, how) + if row.how == how then 1 else 0
    ensures ExistingIn(rows + [row]) == ExistingIn(rows) + if row.isExisting then 1 else 0
  {
    assert (rows + [row])[..|rows|] == rows;
  }

  lemma CountedOne(stats: Stats, row: Row)
    ensures var s := Counted(stats, row);
      && s.matched == stats.matched + (if row.how == Matched then 1 else 0)
      && s.kpiOnlyDup == stats.kpiOnlyDup + (if row.how == KpiOnlyDup then 1 else 0)
      && s.kpiOnlyNoBooking == stats.kpiOnlyNoBooking + (if row.how == KpiOnlyNoBooking then 1 else 0)
      && s.existingDup == stats.existingDup + (if row.isExisting then 1 else 0)
  {
  }

  lemma {:induction false} StatsOfPlan(next: (set<string>, Recovered) -> Row, used: set<string>, rs: seq<Recovered>)
    ensures var plan := PlannedBy(next, used, rs); StatsOf(plan.stats, plan.rows)
  {
    if rs != [] {
      StatsOfPlan(next, used, rs[..|rs| - 1]);
      var before := PlannedBy(next, used, rs[..|rs| - 1]);
      CountOne(before.stats, before.rows, next(before.used, rs[|rs| - 1]));
    }
  }

  lemma {:induction false} KindsAddUp(rows: seq<Row>)
    ensures CountOf(rows, Matched) + CountOf(rows, KpiOnlyDup) + CountOf(rows, KpiOnlyNoBooking) == |rows|
  {
    if rows != [] {
      KindsAddUp(rows[..|rows| - 1]);
    }
  }

  /** Each kind of row is counted exactly, and the three kinds add up to the plan. */
  lemma CountsAddUp(ledger: Ledger, rs: seq<Recovered>)
    ensures var plan := Planned(ledger, rs);
      StatsOf(plan.stats, plan.rows)
      && plan.stats.matched + plan.stats.kpiOnlyDup + plan.stats.kpiOnlyNoBooking == |plan.rows| == |rs|
  {
    StatsOfPlan(Next(ledger), ledger.used, rs);
    KindsAddUp(Planned(ledger, rs).rows);
  }

  // ---- what a row is, without the plan's own search ----

  predicate OfStore(b: Booking, r: Recovered) {
    b.store.Some? && r.store.Some? && b.store.value != "" && b.store.value == r.store.value
  }

  predicate OfBrand(b: Booking, r: Recovered) {
    b.brand.Some? && r.brand.Some? && b.brand.value != "" && b.brand.value == r.brand.value
  }

  predicate NoStore(c: seq<Booking>, r: Recovered, n: nat)
    requires n <= |c|
  {
    forall j :: 0 <= j < n ==> !OfStore(c[j], r)
  }

  predicate NoBrand(c: seq<Booking>, r: Recovered, n: nat)
    requires n <= |c|
  {
    forall j :: 0 <= j < n ==> !OfBrand(c[j], r)
  }

  predicate NoneFree(c: seq<Booking>, used: set<string>, n: nat)
    requires n <= |c|
  {
    forall j :: 0 <= j < n ==> c[j].workOrderId in used
  }

  /** The first booking of the record's store, else the first of its brand. */
  predicate OfSamePlace(c: seq<Booking>, r: Recovered, k: nat) {
    k < |c| &&
    ((OfStore(c[k], r) && NoStore(c, r, k))
     || (NoStore(c, r, |c|) && OfBrand(c[k], r) && NoBrand(c, r, k)))
  }

  /** That booking; without one the first that is free; without one the first. Of a single booking, that one. */
  predicate Preferred(c: seq<Booking>, r: Recovered, used: set<string>, k: nat) {
    k < |c| &&
    (|c| == 1 || OfSamePlace(c, r, k)
     || (NoStore(c, r, |c|) && NoBrand(c, r, |c|)
         && ((c[k].workOrderId !in used && NoneFree(c, used, k)) || (NoneFree(c, used, |c|) && k == 0))))
  }

  lemma FindsNone(bookings: seq<Booking>, p: Booking -> bool)
    requires Find(bookings, p).None?
    ensures forall j :: 0 <= j < |bookings| ==> !p(bookings[j])
  {
  }

  lemma ChosenIsPreferred(c: seq<Booking>, r: Recovered, used: set<string>) returns (k: nat)
    requires c != []
    ensures Preferred(c, r, used, k) && Choose(c, r, used) == Some(c[k])
  {
    k := 0;
    if |c| > 1 {
      if ByStore(c, r).Some? {
        k := FindsFirst(c, (b: Booking) => SameName(b.store, r.store));
      } else {
        FindsNone(c, (b: Booking) => SameName(b.store, r.store));
        if ByBrand(c, r).Some? {
          k := FindsFirst(c, (b: Booking) => SameName(b.brand, r.brand));
        } else {
          FindsNone(c, (b: Booking) => SameName(b.brand, r.brand));
          k := FirstFree(c, r, used);
        }
      }
    }
  }

  lemma FirstFree(c: seq<Booking>, r: Recovered, used: set<string>) returns (k: nat)
    requires |c| > 1 && ByStore(c, r).None? && ByBrand(c, r).None?
    ensures k < |c| && Choose(c, r, used) == Some(c[k])
    ensures (c[k].workOrderId !in used && NoneFree(c, used, k)) || (NoneFree(c, used, |c|) && k == 0)
  {
    if ByUse(c, used).Some? {
      k := FindsFirst(c, (b: Booking) => b.workOrderId !in used);
    } else {
      FindsNone(c, (b: Booking) => b.workOrderId !in used);
      k := 0;
    }
  }

  lemma PreferredIsOne(c: seq<Booking>, r: Recovered, used: set<string>, k: nat, n: nat)
    requires Preferred(c, r, used, k) && Preferred(c, r, used, n)
    ensures k == n
  {
  }

  /** A row that takes the booking: its cohort, with the booking's corporation, bot and chat where it has them. */
  predicate Takes(row: Row, r: Recovered, b: Booking) {
    && row.how == Matched && row.cohort == b.workOrderId
    && row.corpId == (if b.corpId.Some? && b.corpId.value != "" then b.corpId.value else "prod-sync")
    && row.botImId == (if b.botImId.Some? then b.botImId else r.botImId)
    && row.chatId == (if b.chatId.Some? then b.chatId else r.chatId)
  }

  /** A row that takes none is a cohort of its own. */
  predicate StandsAlone(row: Row, r: Recovered, how: How) {
    row.how == how && row.cohort == Decimal(r.workOrderId) && row.corpId == "prod-sync"
    && row.botImId == r.botImId && row.chatId == r.chatId
  }

  /** The row of a record, given the cohorts in use. */
  ghost predicate IsRowOf(row: Row, ledger: Ledger, used: set<string>, r: Recovered) {
    // The match is there for the proofs: the verifier keeps such a body folded where it is asserted.
    match ledger case Ledger(_, _, _) =>
    && row.key == Decimal(r.workOrderId) + ":pass" && (row.isExisting <==> row.key in ledger.keys)
    && row.userId == r.userId && row.original == r.workOrderId
    && if r.userId !in ledger.bookings || ledger.bookings[r.userId] == [] then StandsAlone(row, r, KpiOnlyNoBooking)
       else
         exists k: nat :: Preferred(ledger.bookings[r.userId], r, used, k)
           && var b := ledger.bookings[r.userId][k];
              if b.workOrderId in used then StandsAlone(row, r, KpiOnlyDup) else Takes(row, r, b)
  }

  lemma NextRowIs(ledger: Ledger, used: set<string>, r: Recovered)
    ensures IsRowOf(NextRow(ledger, used, r), ledger, used, r)
  {
    if Candidates(ledger, r) != [] {
      var k := ChosenIsPreferred(Candidates(ledger, r), r, used);
    }
  }

  /** Each row is that of its record, in use being what was on record and the cohorts of the matched rows before. */
  lemma RowsAreAssigned(ledger: Ledger, rs: seq<Recovered>, i: nat)
    requires i < |rs|
    ensures var rows := Planned(ledger, rs).rows;
      IsRowOf(rows[i], ledger, ledger.used + (set j | 0 <= j < i && rows[j].how.Matched? :: rows[j].cohort), rs[i])
  {
    var rows := Planned(ledger, rs).rows;
    RowsInOrder(Next(ledger), ledger.used, rs);
    TakenByIs(rows, i);
    NextRowIs(ledger, ledger.used + TakenBy(rows[..i]), rs[i]);
  }

  lemma TakenByIs(rows: seq<Row>, i: nat)
    requires i <= |rows|
    ensures TakenBy(rows[..i]) == set j | 0 <= j < i && rows[j].how.Matched? :: rows[j].cohort
  {
    forall j | 0 <= j < i && rows[j].how.Matched? ensures rows[j].cohort in TakenBy(rows[..i]) {
      assert rows[..i][j] == rows[j];
    }
  }

  /**
   * A user with a free booking still goes unmatched exactly when, among several bookings, the preferred
   * one is in use: the first of the same store, or with none of that store the first of the same brand.
   */
  lemma FreeBookingMissedExactlyWhen(ledger: Ledger, r: Recovered, used: set<string>)
    requires exists b :: b in Candidates(ledger, r) && b.workOrderId !in used
    ensures var c := Candidates(ledger, r);
      !NextRow(ledger, used, r).how.Matched? <==>
      |c| > 1 && exists k: nat :: OfSamePlace(c, r, k) && c[k].workOrderId in used
  {
    var c := Candidates(ledger, r);
    var k := ChosenIsPreferred(c, r, used);
    if n: nat :| |c| > 1 && OfSamePlace(c, r, n) {
      PreferredIsOne(c, r, used, k, n);
    }
    assert NoneFree(c, used, |c|) ==> forall b :: b in c ==> b.workOrderId in used;
  }

  /** Such a case: the booking of the same store is on record already, another one is free. */
  lemma FreeBookingCanBeMissed() returns (ledger: Ledger, r: Recovered)
    ensures NextRow(ledger, ledger.used, r).how == KpiOnlyDup
    ensures exists b :: b in Candidates(ledger, r) && b.workOrderId !in ledger.used
  {
    var a := Booking("7", None, None, None, Some("s"), None);
    var b := Booking("8", None, None, None, None, None);
    ledger := Ledger(map["u" := [a, b]], {"7"}, {});
    r := Recovered("u", 1, None, None, Some("s"), None);
    assert SameName(a.store, r.store);
    assert Candidates(ledger, r) == [a, b] && b in [a, b];
    assert ByStore([a, b], r) == Some(a);
  }

  /** The ledger once every row of a plan has been written. */
  ghost function Written(ledger: Ledger, rows: seq<Row>): Ledger {
    ledger.(used := ledger.used + (set i | 0 <= i < |rows| :: rows[i].cohort),
            keys := ledger.keys + (set i | 0 <= i < |rows| :: rows[i].key))
  }

  lemma WrittenKeys(ledger: Ledger, rows: seq<Row>)
    ensures forall i :: 0 <= i < |rows| ==> rows[i].key in Written(ledger, rows).keys
  {
  }

  /** Planning again after the plan was written proposes the same keys, every one of them already on record. */
  lemma RerunAddsNothing(ledger: Ledger, recovered: seq<Recovered>)
    ensures var rows := Planned(ledger, Unique(recovered)).rows;
      var again := Planned(Written(ledger, rows), Unique(recovered)).rows;
      |again| == |rows| && forall i :: 0 <= i < |rows| ==> again[i].key == rows[i].key && again[i].isExisting
  {
    var rows := Planned(ledger, Unique(recovered)).rows;
    KeysOfPlan(ledger, Unique(recovered));
    KeysOfPlan(Written(ledger, rows), Unique(recovered));
    WrittenKeys(ledger, rows);
  }
}
