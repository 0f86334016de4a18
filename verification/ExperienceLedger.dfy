/** Account experience: an append-only ledger with one entry per (source type, order), and a counter kept beside it. */
module ExperienceLedger {
  import opened Basics

  // ----- amounts and levels -----

  /** Python's round() on an exact number: to the nearest integer, ties to the even one. */
  function RoundHalfEven(r: real): int {
    var f := r.Floor;
    var d := r - f as real;
    if d < 0.5 || (d == 0.5 && f % 2 == 0) then f else f + 1
  }

  /** One yuan is a hundred points; missing and non-positive amounts give none. */
  function XpFromAmount(amount: Option<real>): int {
    if amount.None? || amount.value <= 0.0 then 0 else RoundHalfEven(amount.value * 100.0)
  }

  /** A whole number of cents gives exactly that many points; any amount is at most half a point off; more pays no
      less. */
  lemma XpFromAmountExact(cents: nat, amount: real, more: real)
    requires 0.0 <= amount <= more
    ensures XpFromAmount(Some(cents as real / 100.0)) == cents
    ensures -0.5 <= XpFromAmount(Some(amount)) as real - amount * 100.0 <= 0.5
    ensures XpFromAmount(Some(amount)) <= XpFromAmount(Some(more))
  {
    assert cents as real / 100.0 * 100.0 == cents as real;
    assert (cents as real).Floor == cents;
  }

  /** Missing, zero and negative amounts give no points, and every whole cent gives some. */
  lemma NoPoints(amount: Option<real>)
    ensures amount.None? || amount.value <= 0.0 ==> XpFromAmount(amount) == 0
    ensures amount.Some? && amount.value >= 0.01 ==> XpFromAmount(amount) > 0
  {
    if amount.Some? && amount.value >= 0.01 {
      XpFromAmountExact(1, 0.01, amount.value);
      assert XpFromAmount(Some(1 as real / 100.0)) == 1 && 1 as real / 100.0 == 0.01;
    }
  }

  datatype Threshold = Threshold(level: int, minExp: int, title: string)

  const THRESHOLDS: seq<Threshold> := [
    Threshold(1, 0, "新手"), Threshold(2, 1_000, "探索者"), Threshold(3, 5_000, "创作者"),
    Threshold(4, 20_000, "专家"), Threshold(5, 50_000, "大师"), Threshold(6, 100_000, "宗师"),
    Threshold(7, 200_000, "传奇")
  ]

  datatype LevelProfile = LevelProfile(level: int, title: string, experience: int,
                                       currentMin: int, nextMin: Option<int>, progress: real)

  /** Rank k is the highest whose threshold the experience has reached. */
  ghost predicate HighestRank(k: int, exp: int) {
    && 0 <= k < |THRESHOLDS|
    && forall j :: 0 <= j < |THRESHOLDS| ==> (THRESHOLDS[j].minExp <= exp <==> j <= k)
  }

  /** The share of the way to the next rank. */
  function Progress(exp: int, currentMin: int, nextMin: int): (r: real)
    requires currentMin <= exp < nextMin
    ensures 0.0 <= r < 1.0 && r * (nextMin - currentMin) as real == (exp - currentMin) as real
  {
    var span := Max(nextMin - currentMin, 1);
    var share := (exp - currentMin) as real / span as real;
    var capped := if share > 1.0 then 1.0 else share;
    if capped < 0.0 then 0.0 else capped
  }

  method BuildLevelProfile(experience: Option<int>) returns (p: LevelProfile)
    ensures p.experience == if experience.Some? then Max(experience.value, 0) else 0
    ensures exists k :: HighestRank(k, p.experience) &&
                        p.level == THRESHOLDS[k].level && p.title == THRESHOLDS[k].title &&
                        p.currentMin == THRESHOLDS[k].minExp &&
                        p.nextMin == if k + 1 < |THRESHOLDS| then Some(THRESHOLDS[k + 1].minExp) else None
    ensures p.level == if p.experience < 1_000 then 1 else if p.experience < 5_000 then 2
                       else if p.experience < 20_000 then 3 else if p.experience < 50_000 then 4
                       else if p.experience < 100_000 then 5 else if p.experience < 200_000 then 6 else 7
    ensures p.nextMin.None? ==> p.progress == 1.0
    ensures p.nextMin.Some? ==>
              && 0.0 <= p.progress < 1.0
              && p.progress * (p.nextMin.value - p.currentMin) as real == (p.experience - p.currentMin) as real
  {
    hide HighestRank, Progress;
    var exp := if experience.Some? then Max(experience.value, 0) else 0;
    var current, next, rank := FindRank(exp);
    var progress := if next.None? then 1.0 else Progress(exp, current.minExp, next.value.minExp);
    p := LevelProfile(current.level, current.title, exp, current.minExp,
                      if next.Some? then Some(next.value.minExp) else None, progress);
  }

  /** The loop over the table, stopping at the first threshold not reached. */
  method FindRank(exp: int) returns (current: Threshold, next: Option<Threshold>, ghost rank: int)
    requires 0 <= exp
    ensures HighestRank(rank, exp) && current == THRESHOLDS[rank]
    ensures current.minExp <= exp && (next.Some? ==> exp < next.value.minExp)
    ensures next == if rank + 1 < |THRESHOLDS| then Some(THRESHOLDS[rank + 1]) else None
  {
    current, next, rank := THRESHOLDS[0], None, -1;
    for idx := 0 to |THRESHOLDS|
      invariant idx > 0 ==> rank == idx - 1 && current == THRESHOLDS[rank] && current.minExp <= exp
      invariant idx > 0 ==> next == if idx < |THRESHOLDS| then Some(THRESHOLDS[idx]) else None
    {
      if exp >= THRESHOLDS[idx].minExp {
        current := THRESHOLDS[idx];
        next := if idx + 1 < |THRESHOLDS| then Some(THRESHOLDS[idx + 1]) else None;
        rank := idx;
      } else {
        break;
      }
    }
  }

  // ----- ledger and counter -----

  datatype Source = OrderPaid | OrderRefunded

  datatype Entry = Entry(userId: int, source: Source, orderNo: string, amount: real, xpDelta: int)

  /** The two tables: ledger rows in order of insertion, and the experience column of the user rows that exist. */
  datatype Db = Db(ledger: seq<Entry>, experience: map<int, int>)

  datatype Op =
    | Apply(userId: int, orderNo: string, amount: Option<real>, countable: bool)
    | Revoke(userId: int, orderNo: string)

  predicate HasKey(e: Entry, source: Source, orderNo: string) {
    e.source == source && e.orderNo == orderNo
  }

  /** The row with the given key, or none. */
  function Find(ledger: seq<Entry>, source: Source, orderNo: string): Option<Entry> {
    if |ledger| == 0 then None
    else
      var front := Find(ledger[..|ledger| - 1], source, orderNo);
      if front.Some? then front
      else if HasKey(ledger[|ledger| - 1], source, orderNo) then Some(ledger[|ledger| - 1])
      else None
  }

  function Adjusted(experience: map<int, int>, userId: int, delta: int): map<int, int> {
    if userId in experience then experience[userId := Max(0, experience[userId] + delta)] else experience
  }

  function Post(db: Db, e: Entry): Db {
    Db(db.ledger + [e], Adjusted(db.experience, e.userId, e.xpDelta))
  }

  function PaidEntry(op: Op): Entry
    requires op.Apply?
  {
    Entry(op.userId, OrderPaid, op.orderNo, if op.amount.Some? then op.amount.value else 0.0, XpFromAmount(op.amount))
  }

  function RefundEntry(op: Op, paid: Entry): Entry
    requires op.Revoke?
  {
    Entry(op.userId, OrderRefunded, op.orderNo, -paid.amount, -paid.xpDelta)
  }

  /** The row a call is about to insert, if its guards let it. */
  function Planned(ledger: seq<Entry>, op: Op): Option<Entry> {
    if op.userId == 0 || op.orderNo == "" then None
    else if op.Apply? then
      if !op.countable || XpFromAmount(op.amount) <= 0 || Find(ledger, OrderPaid, op.orderNo).Some? then None
      else Some(PaidEntry(op))
    else
      var paid := Find(ledger, OrderPaid, op.orderNo);
      if paid.None? || Find(ledger, OrderRefunded, op.orderNo).Some? || paid.value.xpDelta <= 0 then None
      else Some(RefundEntry(op, paid.value))
  }

  /** One call made alone: the tables after it and the points it reports. */
  function SerialStep(db: Db, op: Op): (Db, int) {
    match Planned(db.ledger, op)
    case None => (db, 0)
    case Some(e) => (Post(db, e), if e.xpDelta < 0 then -e.xpDelta else e.xpDelta)
  }

  class AccountStore {
    var ledger: seq<Entry>
    var experience: map<int, int>

    ghost function State(): Db
      reads this
    {
      Db(ledger, experience)
    }

    constructor (ledger: seq<Entry>, experience: map<int, int>)
      ensures State() == Db(ledger, experience)
    {
      this.ledger, this.experience := ledger, experience;
    }

    method ExistingEntry(source: Source, orderNo: string) returns (r: Option<Entry>)
      ensures r == Find(ledger, source, orderNo)
    {
      for i := 0 to |ledger|
        invariant Find(ledger[..i], source, orderNo) == None
      {
        assert ledger[..i + 1][..i] == ledger[..i];
        if HasKey(ledger[i], source, orderNo) {
          FindStable(ledger[..i + 1], ledger[i + 1..], source, orderNo);
          assert ledger == ledger[..i + 1] + ledger[i + 1..];
          return Some(ledger[i]);
        }
      }
      assert ledger[..|ledger|] == ledger;
      return None;
    }

    method AdjustUserExp(userId: int, delta: int) returns (r: int)
      modifies this`experience
      ensures experience == Adjusted(old(experience), userId, delta)
      ensures r == if userId in experience then experience[userId] else 0
    {
      if userId !in experience {
        return 0;
      }
      r := Max(0, experience[userId] + delta);
      experience := experience[userId := r];
    }

    method ApplyOrderXp(userId: int, orderNo: string, amount: Option<real>, countable: bool) returns (xp: int)
      modifies this
      ensures (State(), xp) == SerialStep(old(State()), Apply(userId, orderNo, amount, countable))
    {
      if userId == 0 || orderNo == "" || !countable {
        return 0;
      }
      xp := XpFromAmount(amount);
      if xp <= 0 {
        return 0;
      }
      var existing := ExistingEntry(OrderPaid, orderNo);
      if existing.Some? {
        return 0;
      }
      ledger := ledger + [Entry(userId, OrderPaid, orderNo, if amount.Some? then amount.value else 0.0, xp)];
      var value := AdjustUserExp(userId, xp);
    }

    method RevokeOrderXp(userId: int, orderNo: string) returns (xp: int)
      modifies this
      ensures (State(), xp) == SerialStep(old(State()), Revoke(userId, orderNo))
    {
      if userId == 0 || orderNo == "" {
        return 0;
      }
      var paid := ExistingEntry(OrderPaid, orderNo);
      if paid.None? {
        return 0;
      }
      var refunded := ExistingEntry(OrderRefunded, orderNo);
      if refunded.Some? || paid.value.xpDelta <= 0 {
        return 0;
      }
      xp := paid.value.xpDelta;
      ledger := ledger + [Entry(userId, OrderRefunded, orderNo, -paid.value.amount, -xp)];
      var value := AdjustUserExp(userId, -xp);
    }
  }

  lemma {:induction false} FindStable(ledger: seq<Entry>, more: seq<Entry>, source: Source, orderNo: string)
    requires Find(ledger, source, orderNo).Some?
    ensures Find(ledger + more, source, orderNo) == Find(ledger, source, orderNo)
  {
    if |more| == 0 {
      assert ledger + more == ledger;
    } else {
      var all := ledger + more;
      assert all[..|all| - 1] == ledger + more[..|more| - 1];
      FindStable(ledger, more[..|more| - 1], source, orderNo);
    }
  }

  lemma {:induction false} FindMeans(ledger: seq<Entry>, source: Source, orderNo: string)
    ensures var r := Find(ledger, source, orderNo);
            if r.None? then forall i :: 0 <= i < |ledger| ==> !HasKey(ledger[i], source, orderNo)
            else r.value in ledger && HasKey(r.value, source, orderNo)
  {
    if |ledger| > 0 {
      FindMeans(ledger[..|ledger| - 1], source, orderNo);
    }
  }

  // ----- what every serial run keeps -----

  function SerialRun(db: Db, ops: seq<Op>): Db {
    if |ops| == 0 then db else SerialStep(SerialRun(db, ops[..|ops| - 1]), ops[|ops| - 1]).0
  }

  ghost predicate UniqueKeys(ledger: seq<Entry>) {
    forall i, j :: 0 <= i < j < |ledger| ==> !HasKey(ledger[i], ledger[j].source, ledger[j].orderNo)
  }

  /** Payments are positive, and every refund reverses an earlier payment of the same order to the point. */
  ghost predicate RefundsMatch(ledger: seq<Entry>) {
    forall i :: 0 <= i < |ledger| ==> RowMatches(ledger[..i], ledger[i])
  }

  predicate RowMatches(earlier: seq<Entry>, e: Entry) {
    match e.source
    case OrderPaid => e.xpDelta > 0
    case OrderRefunded =>
      var paid := Find(earlier, OrderPaid, e.orderNo);
      paid.Some? && e.xpDelta == -paid.value.xpDelta && e.amount == -paid.value.amount
  }

  ghost predicate Sound(ledger: seq<Entry>) {
    UniqueKeys(ledger) && RefundsMatch(ledger)
  }

  lemma PlannedKeepsSound(ledger: seq<Entry>, op: Op)
    requires Sound(ledger) && Planned(ledger, op).Some?
    ensures Sound(ledger + [Planned(ledger, op).value])
  {
    var e := Planned(ledger, op).value;
    var after := ledger + [e];
    FindMeans(ledger, e.source, e.orderNo);
    forall i | 0 <= i < |after| ensures after[..i] == if i < |ledger| then ledger[..i] else ledger {
    }
  }

  /** Over any run of calls, whatever their order and repetition: one entry per key, refunds matching, nothing
      rewritten. */
  lemma {:induction false} SerialRunSound(db: Db, ops: seq<Op>)
    requires Sound(db.ledger)
    ensures Sound(SerialRun(db, ops).ledger)
    ensures db.ledger <= SerialRun(db, ops).ledger
  {
    if |ops| > 0 {
      SerialRunSound(db, ops[..|ops| - 1]);
      var before := SerialRun(db, ops[..|ops| - 1]);
      if Planned(before.ledger, ops[|ops| - 1]).Some? {
        PlannedKeepsSound(before.ledger, ops[|ops| - 1]);
      }
    }
  }

  /** Repeating a call at once credits and reverses nothing more. */
  lemma RepeatIsNoOp(db: Db, op: Op)
    ensures SerialStep(SerialStep(db, op).0, op) == (SerialStep(db, op).0, 0)
  {
    if Planned(db.ledger, op).Some? {
      var e := Planned(db.ledger, op).value;
      var after := db.ledger + [e];
      assert after[..|after| - 1] == db.ledger;
      assert Find(after, e.source, e.orderNo).Some?;
    }
  }

  // ----- what one call does, row by row -----

  ghost predicate HasRow(ledger: seq<Entry>, source: Source, orderNo: string) {
    exists i :: 0 <= i < |ledger| && HasKey(ledger[i], source, orderNo)
  }

  lemma FindIff(ledger: seq<Entry>, source: Source, orderNo: string)
    ensures Find(ledger, source, orderNo).Some? <==> HasRow(ledger, source, orderNo)
  {
    FindMeans(ledger, source, orderNo);
    if Find(ledger, source, orderNo).Some? {
      var e := Find(ledger, source, orderNo).value;
      var i :| 0 <= i < |ledger| && ledger[i] == e;
      assert HasKey(ledger[i], source, orderNo);
    }
  }

  /** Everything a call that posts a row changes: the row is appended, and its delta added to its user's counter, which
      is cut at zero; every other counter stays. */
  ghost predicate Posts(db: Db, after: Db, e: Entry) {
    && after.ledger == db.ledger + [e]
    && after.experience.Keys == db.experience.Keys
    && (forall u :: u in db.experience && u != e.userId ==> after.experience[u] == db.experience[u])
    && (e.userId in db.experience ==>
          var sum := db.experience[e.userId] + e.xpDelta;
          after.experience[e.userId] == if sum < 0 then 0 else sum)
  }

  /** A payment is credited exactly if user and order are named, the order counts, its amount gives points, and the
      order has not been credited. Then its row is posted and the points are reported; otherwise nothing happens. */
  lemma PaymentMeans(db: Db, userId: int, orderNo: string, amount: Option<real>, countable: bool)
    ensures var (after, answer) := SerialStep(db, Apply(userId, orderNo, amount, countable));
            var points := XpFromAmount(amount);
            if userId != 0 && orderNo != "" && countable && points > 0 && !HasRow(db.ledger, OrderPaid, orderNo)
            then amount.Some? && answer == points &&
                 Posts(db, after, Entry(userId, OrderPaid, orderNo, amount.value, points))
            else after == db && answer == 0
  {
    FindIff(db.ledger, OrderPaid, orderNo);
    NoPoints(amount);
  }

  /** A refund is posted exactly if user and order are named, the order was credited with points, and has not been
      refunded. Then a row takes the payment's points and amount back, and the points are reported. */
  lemma RefundMeans(db: Db, userId: int, orderNo: string)
    requires UniqueKeys(db.ledger)
    ensures var (after, answer) := SerialStep(db, Revoke(userId, orderNo));
            if userId != 0 && orderNo != "" && !HasRow(db.ledger, OrderRefunded, orderNo) &&
               exists i :: 0 <= i < |db.ledger| && HasKey(db.ledger[i], OrderPaid, orderNo) && db.ledger[i].xpDelta > 0
            then forall i :: 0 <= i < |db.ledger| && HasKey(db.ledger[i], OrderPaid, orderNo) ==>
                   var paid := db.ledger[i];
                   && answer == paid.xpDelta > 0
                   && Posts(db, after, Entry(userId, OrderRefunded, orderNo, -paid.amount, -paid.xpDelta))
            else after == db && answer == 0
  {
    hide UniqueKeys;
    FindIff(db.ledger, OrderRefunded, orderNo);
    forall i | 0 <= i < |db.ledger| && HasKey(db.ledger[i], OrderPaid, orderNo)
      ensures Find(db.ledger, OrderPaid, orderNo) == Some(db.ledger[i])
    {
      FindUnique(db.ledger, OrderPaid, orderNo, i);
    }
    FindMeans(db.ledger, OrderPaid, orderNo);
  }

  lemma FindUnique(ledger: seq<Entry>, source: Source, orderNo: string, i: nat)
    requires UniqueKeys(ledger) && i < |ledger| && HasKey(ledger[i], source, orderNo)
    ensures Find(ledger, source, orderNo) == Some(ledger[i])
  {
    FindMeans(ledger, source, orderNo);
    var e := Find(ledger, source, orderNo).value;
    var k :| 0 <= k < |ledger| && ledger[k] == e;
    if k < i {
      assert !HasKey(ledger[k], ledger[i].source, ledger[i].orderNo);
    } else if i < k {
      assert !HasKey(ledger[i], ledger[k].source, ledger[k].orderNo);
    }
  }

  // ----- conservation: the counter equals the ledger -----

  function LedgerSum(ledger: seq<Entry>, userId: int): int {
    if |ledger| == 0 then 0
    else LedgerSum(ledger[..|ledger| - 1], userId) +
         if ledger[|ledger| - 1].userId == userId then ledger[|ledger| - 1].xpDelta else 0
  }

  /** Every user's experience is the starting value plus the sum of that user's ledger deltas. */
  ghost predicate Balanced(db: Db, start: map<int, int>) {
    && start.Keys == db.experience.Keys
    && forall u :: u in start ==> db.experience[u] == start[u] + LedgerSum(db.ledger, u)
  }

  ghost predicate NonNegative(experience: map<int, int>) {
    forall u :: u in experience ==> experience[u] >= 0
  }

  /** The guard of the clamp: a refund charged to a user whose counter is below the points to be taken back. */
  predicate ClampBites(db: Db, op: Op) {
    var e := Planned(db.ledger, op);
    e.Some? && e.value.userId in db.experience && db.experience[e.value.userId] + e.value.xpDelta < 0
  }

  lemma LedgerSumSnoc(ledger: seq<Entry>, e: Entry, userId: int)
    ensures LedgerSum(ledger + [e], userId) == LedgerSum(ledger, userId) + if e.userId == userId then e.xpDelta else 0
  {
    assert (ledger + [e])[..|ledger|] == ledger;
  }

  /** The answer of a call is what it changed: the points by which the named user's ledger sum grew for a payment, or
      shrank for a refund. It is positive exactly if a row was appended. */
  lemma AnswerIsLedgerChange(db: Db, op: Op)
    ensures var (after, answer) := SerialStep(db, op);
            var before, behind := LedgerSum(db.ledger, op.userId), LedgerSum(after.ledger, op.userId);
            && answer == (if op.Apply? then behind - before else before - behind)
            && (answer > 0 <==> |after.ledger| == |db.ledger| + 1)
            && (answer == 0 <==> after.ledger == db.ledger)
            && 0 <= answer
  {
    if Planned(db.ledger, op).Some? {
      LedgerSumSnoc(db.ledger, Planned(db.ledger, op).value, op.userId);
    }
  }

  /** One call keeps the counters equal to the ledger if and only if the clamp at zero does not bite. */
  lemma ConservesIffNoClamp(db: Db, start: map<int, int>, op: Op)
    requires Balanced(db, start)
    ensures Balanced(SerialStep(db, op).0, start) <==> !ClampBites(db, op)
    ensures NonNegative(db.experience) ==> NonNegative(SerialStep(db, op).0.experience)
    ensures ClampBites(db, op) && Sound(db.ledger) && NonNegative(db.experience) ==> op.Revoke?
  {
    var planned := Planned(db.ledger, op);
    if planned.Some? {
      var e := planned.value;
      var after := SerialStep(db, op).0;
      forall u ensures LedgerSum(after.ledger, u) == LedgerSum(db.ledger, u) + if e.userId == u then e.xpDelta else 0 {
        LedgerSumSnoc(db.ledger, e, u);
      }
      if ClampBites(db, op) {
        assert after.experience[e.userId] != start[e.userId] + LedgerSum(after.ledger, e.userId);
      }
    }
  }

  /** A refund that names someone other than the payer can run into the clamp, and then a point is created from
      nothing. */
  lemma ClampCanBite()
    ensures exists db: Db, start, op ::
              Sound(db.ledger) && Balanced(db, start) && NonNegative(start) && ClampBites(db, op)
  {
    var start := map[1 := 0, 2 := 0];
    var e := Entry(1, OrderPaid, "A", 1.0, 100);
    var db := Db([e], map[1 := 100, 2 := 0]);
    assert [e][..0] == [];
    assert LedgerSum([], 1) == 0 && LedgerSum([], 2) == 0;
    assert LedgerSum([e], 1) == 100 && LedgerSum([e], 2) == 0;
    assert Find([], OrderPaid, "A") == None && Find([], OrderRefunded, "A") == None;
    assert Find([e], OrderPaid, "A") == Some(e);
    assert Find([e], OrderRefunded, "A") == None;
    assert Sound(db.ledger) && Balanced(db, start) && ClampBites(db, Revoke(2, "A"));
  }

  /** Every refund in the ledger is charged to the user who was credited. */
  ghost predicate RefundsNamePayer(ledger: seq<Entry>) {
    forall i :: 0 <= i < |ledger| && ledger[i].source.OrderRefunded? ==>
      var paid := Find(ledger[..i], OrderPaid, ledger[i].orderNo);
      paid.Some? && paid.value.userId == ledger[i].userId
  }

  /** Points of a user's payments, among the first n rows, that no row of the ledger has reversed. */
  function Outstanding(ledger: seq<Entry>, n: nat, userId: int): int
    requires n <= |ledger|
  {
    if n == 0 then 0
    else
      var e := ledger[n - 1];
      Outstanding(ledger, n - 1, userId) +
      if IsOutstanding(ledger, e, userId) then e.xpDelta else 0
  }

  /** Appending a row changes what is outstanding among the old rows only by the payment it reverses. */
  lemma {:induction false} OutstandingAfter(ledger: seq<Entry>, e: Entry, n: nat, userId: int)
    requires n <= |ledger| && UniqueKeys(ledger)
    requires e.source.OrderRefunded? ==> Find(ledger, OrderRefunded, e.orderNo).None?
    ensures var reversed := exists i :: 0 <= i < n && HasKey(ledger[i], OrderPaid, e.orderNo);
            var paid := Find(ledger, OrderPaid, e.orderNo);
            Outstanding(ledger + [e], n, userId) == Outstanding(ledger, n, userId) -
            if e.source.OrderRefunded? && reversed && paid.Some? && paid.value.userId == userId
            then paid.value.xpDelta else 0
  {
    if n > 0 {
      OutstandingAfter(ledger, e, n - 1, userId);
      var row := ledger[n - 1];
      assert (ledger + [e])[..|ledger|] == ledger;
      FindMeans(ledger, OrderPaid, e.orderNo);
      if HasKey(row, OrderPaid, e.orderNo) {
        var paid := Find(ledger, OrderPaid, e.orderNo).value;
        var k :| 0 <= k < |ledger| && ledger[k] == paid;
        assert k == n - 1;
      }
    }
  }

  lemma FindSnoc(ledger: seq<Entry>, e: Entry, source: Source, orderNo: string)
    ensures Find(ledger + [e], source, orderNo) ==
            var front := Find(ledger, source, orderNo);
            if front.Some? then front else if HasKey(e, source, orderNo) then Some(e) else None
  {
    assert (ledger + [e])[..|ledger|] == ledger;
  }

  lemma NewPaymentIsOutstanding(front: seq<Entry>, e: Entry, userId: int)
    requires Sound(front) && UniqueKeys(front + [e]) && e.source.OrderPaid?
    ensures Outstanding(front + [e], |front| + 1, userId) ==
            Outstanding(front, |front|, userId) + if e.userId == userId then e.xpDelta else 0
  {
    KeyIsNew(front, e);
    if Find(front, OrderRefunded, e.orderNo).Some? {
      RefundHasPayment(front, e.orderNo);
      assert false;
    }
    OutstandingAfter(front, e, |front|, userId);
    FindSnoc(front, e, OrderRefunded, e.orderNo);
  }

  lemma RefundSettles(front: seq<Entry>, e: Entry, userId: int)
    requires UniqueKeys(front + [e]) && e.source.OrderRefunded? && RowMatches(front, e)
    requires Find(front, OrderPaid, e.orderNo).value.userId == e.userId
    ensures Outstanding(front + [e], |front| + 1, userId) ==
            Outstanding(front, |front|, userId) + if e.userId == userId then e.xpDelta else 0
  {
    KeyIsNew(front, e);
    FindMeans(front, OrderPaid, e.orderNo);
    OutstandingAfter(front, e, |front|, userId);
  }

  lemma KeyIsNew(front: seq<Entry>, e: Entry)
    requires UniqueKeys(front + [e])
    ensures Find(front, e.source, e.orderNo).None? && UniqueKeys(front)
  {
    var ledger := front + [e];
    assert ledger[|front|] == e;
    forall i, j | 0 <= i < j < |front| ensures !HasKey(front[i], front[j].source, front[j].orderNo) {
      assert ledger[i] == front[i] && ledger[j] == front[j];
    }
    forall i | 0 <= i < |front| ensures !HasKey(front[i], e.source, e.orderNo) {
      assert ledger[i] == front[i];
    }
    FindMeans(front, e.source, e.orderNo);
  }

  /** In a sound ledger whose refunds name the payer, a user's sum is what is still outstanding. */
  lemma {:induction false} SumIsOutstanding(ledger: seq<Entry>, userId: int)
    requires Sound(ledger) && RefundsNamePayer(ledger)
    ensures LedgerSum(ledger, userId) == Outstanding(ledger, |ledger|, userId)
    decreases |ledger|
  {
    if |ledger| > 0 {
      var front, e := ledger[..|ledger| - 1], ledger[|ledger| - 1];
      assert ledger == front + [e];
      SoundPrefix(ledger, |ledger| - 1);
      SumIsOutstanding(front, userId);
      assert RowMatches(ledger[..|front|], ledger[|front|]);
      if e.source.OrderPaid? {
        NewPaymentIsOutstanding(front, e, userId);
      } else {
        RefundSettles(front, e, userId);
      }
    }
  }

  lemma SoundPrefix(ledger: seq<Entry>, n: nat)
    requires Sound(ledger) && RefundsNamePayer(ledger) && n <= |ledger|
    ensures Sound(ledger[..n]) && RefundsNamePayer(ledger[..n])
  {
    forall i | 0 <= i < n ensures ledger[..n][..i] == ledger[..i] {
    }
  }

  lemma RefundHasPayment(ledger: seq<Entry>, orderNo: string)
    requires Sound(ledger) && Find(ledger, OrderRefunded, orderNo).Some?
    ensures Find(ledger, OrderPaid, orderNo).Some?
  {
    hide Find, UniqueKeys;
    FindMeans(ledger, OrderRefunded, orderNo);
    var e := Find(ledger, OrderRefunded, orderNo).value;
    var i :| 0 <= i < |ledger| && ledger[i] == e;
    assert RowMatches(ledger[..i], ledger[i]);
    FindStable(ledger[..i], ledger[i..], OrderPaid, orderNo);
    assert ledger == ledger[..i] + ledger[i..];
  }

  predicate IsOutstanding(ledger: seq<Entry>, e: Entry, userId: int) {
    e.userId == userId && e.source.OrderPaid? && Find(ledger, OrderRefunded, e.orderNo).None?
  }

  lemma {:induction false} OutstandingAtLeast(ledger: seq<Entry>, n: nat, i: nat, userId: int)
    requires i <= n <= |ledger| && RefundsMatch(ledger)
    ensures 0 <= Outstanding(ledger, n, userId)
    ensures i < n && IsOutstanding(ledger, ledger[i], userId) ==> ledger[i].xpDelta <= Outstanding(ledger, n, userId)
  {
    if n > 0 {
      assert RowMatches(ledger[..n - 1], ledger[n - 1]);
      OutstandingAtLeast(ledger, n - 1, if i < n then i else n - 1, userId);
    }
  }

  /** A caller that refunds the payer. */
  predicate NamesPayer(ledger: seq<Entry>, op: Op) {
    op.Revoke? ==>
      var paid := Find(ledger, OrderPaid, op.orderNo);
      paid.Some? ==> paid.value.userId == op.userId
  }

  ghost predicate InGoodOrder(db: Db, start: map<int, int>) {
    Sound(db.ledger) && RefundsNamePayer(db.ledger) && Balanced(db, start) && NonNegative(start)
  }

  /** A refund that names the payer always finds at least the points it takes back: the clamp never decides a value. */
  lemma PayerRefundNeverClamps(db: Db, start: map<int, int>, op: Op)
    requires InGoodOrder(db, start) && NamesPayer(db.ledger, op)
    ensures !ClampBites(db, op)
    ensures InGoodOrder(SerialStep(db, op).0, start)
  {
    var planned := Planned(db.ledger, op);
    ConservesIffNoClamp(db, start, op);
    if planned.Some? {
      var e := planned.value;
      PlannedKeepsSound(db.ledger, op);
      var after := db.ledger + [e];
      forall i | 0 <= i < |after| ensures after[..i] == if i < |db.ledger| then db.ledger[..i] else db.ledger {
      }
      SumIsOutstanding(db.ledger, e.userId);
      if op.Revoke? {
        FindMeans(db.ledger, OrderPaid, op.orderNo);
        var i :| 0 <= i < |db.ledger| && db.ledger[i] == Find(db.ledger, OrderPaid, op.orderNo).value;
        OutstandingAtLeast(db.ledger, |db.ledger|, i, e.userId);
      } else {
        OutstandingAtLeast(db.ledger, |db.ledger|, 0, e.userId);
      }
    }
  }

  /** Every refund of the run names the payer of its order, as far as the order is paid when the refund runs. */
  ghost predicate RunNamesPayers(db: Db, ops: seq<Op>) {
    forall k :: 0 <= k < |ops| ==> NamesPayer(SerialRun(db, ops[..k]).ledger, ops[k])
  }

  /** Conservation over whole runs. */
  lemma {:induction false} SerialRunConserves(db: Db, start: map<int, int>, ops: seq<Op>)
    requires InGoodOrder(db, start) && RunNamesPayers(db, ops)
    ensures InGoodOrder(SerialRun(db, ops), start)
  {
    if |ops| > 0 {
      var front := ops[..|ops| - 1];
      forall k | 0 <= k < |front| ensures NamesPayer(SerialRun(db, front[..k]).ledger, front[k]) {
        assert front[..k] == ops[..k];
      }
      SerialRunConserves(db, start, front);
      PayerRefundNeverClamps(SerialRun(db, front), start, ops[|ops| - 1]);
    }
  }
}
