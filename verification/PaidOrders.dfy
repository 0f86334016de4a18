/** The paid-order store: checkouts, repeated payment notices, status rewrites, and the entitlements they grant. */
module PaidOrders {
  import opened Basics
  import opened Decimal

  // ----- the amount a notice must carry -----

  function TwoDigits(n: nat): string
    requires n < 100
  {
    [DigitChar(n / 10), DigitChar(n % 10)]
  }

  function YuanOf(n: nat): string {
    Digits(n / 100) + "." + TwoDigits(n % 100)
  }

  /** f"{cents / 100:.2f}" */
  function Yuan(cents: int): string {
    if cents < 0 then "-" + YuanOf(-cents) else YuanOf(cents)
  }

  lemma YuanOfInjective(m: nat, n: nat)
    requires YuanOf(m) == YuanOf(n)
    ensures m == n
  {
    var s, k := YuanOf(m), |YuanOf(m)|;
    DigitsAreDigits(m / 100);
    DigitsAreDigits(n / 100);
    assert s[..k - 3] == Digits(m / 100) && s[k - 2] == TwoDigits(m % 100)[0] && s[k - 1] == TwoDigits(m % 100)[1];
    assert s[..k - 3] == Digits(n / 100) && s[k - 2] == TwoDigits(n % 100)[0] && s[k - 1] == TwoDigits(n % 100)[1];
    DigitsInjective(m / 100, n / 100);
  }

  /** Different amounts never print alike, so a matching notice names exactly the order's amount. */
  lemma YuanInjective(a: int, b: int)
    requires Yuan(a) == Yuan(b)
    ensures a == b
  {
    var m, n := if a < 0 then -a else a, if b < 0 then -b else b;
    DigitsAreDigits(m / 100);
    DigitsAreDigits(n / 100);
    assert YuanOf(m)[0] == Digits(m / 100)[0] && YuanOf(n)[0] == Digits(n / 100)[0];
    assert a < 0 ==> Yuan(a)[1..] == YuanOf(m);
    assert b < 0 ==> Yuan(b)[1..] == YuanOf(n);
    YuanOfInjective(m, n);
  }

  /** The printed amount reads back as the cents: a sign, a numeral of the yuan, a point and two digits. */
  lemma YuanReads(cents: int)
    ensures var text, n := Yuan(cents), if cents < 0 then -cents else cents;
            exists yuan: string, c: char, d: char ::
              && IsNumeral(yuan) && IsDigit(c) && IsDigit(d)
              && text == (if cents < 0 then "-" else "") + yuan + "." + [c, d]
              && n == 100 * Value(yuan) + 10 * (c as int - '0' as int) + (d as int - '0' as int)
  {
    var n: nat := if cents < 0 then -cents else cents;
    var yuan, c, d := Digits(n / 100), DigitChar(n % 100 / 10), DigitChar(n % 100 % 10);
    DigitsAreNumerals(n / 100);
    ValueOfDigits(n / 100);
    assert YuanOf(n) == yuan + "." + [c, d];
    assert Yuan(cents) == (if cents < 0 then "-" else "") + yuan + "." + [c, d];
  }

  // ----- the store -----

  datatype Order = Order(planId: string, cents: int, status: string, tradeNo: Option<string>,
                         paidAt: Option<int>, notifyCount: int, lastNotifyAt: Option<int>)

  datatype Entitlement = Entitlement(purchaseCount: int, firstPaidAt: int, lastPaidAt: int,
                                     lastOrderNo: string, lastTradeNo: string)

  datatype Store = Store(orders: map<string, Order>, entitlements: map<string, Entitlement>)

  /** The optional fields a status rewrite may carry along; they overwrite the order's, status included. */
  datatype Extra = Extra(status: Option<string>, planId: Option<string>, cents: Option<int>)

  datatype Event =
    | Checkout(orderNo: string, planId: string, cents: int)
    | Notify(orderNo: string, tradeNo: string, amount: string, now: int)
    | SetStatus(orderNo: string, status: string, extra: Extra)

  datatype Reason = Recorded | MarkedPaid | AlreadyPaid | UnknownOrder | AmountMismatch | StatusSet | NotFound

  const PENDING := "pending_payment"
  const PAID := "paid"

  function GetOr<T>(o: Option<T>, default: T): T {
    if o.Some? then o.value else default
  }

  function Granted(entitlements: map<string, Entitlement>, planId: string, orderNo: string, tradeNo: string, now: int):
    map<string, Entitlement>
  {
    var record := Entitlement(1, now, now, orderNo, tradeNo);
    entitlements[planId :=
      if planId in entitlements
      then record.(purchaseCount := entitlements[planId].purchaseCount + 1,
                   firstPaidAt := entitlements[planId].firstPaidAt)
      else record]
  }

  function Step(s: Store, e: Event): (Store, Reason) {
    match e
    case Checkout(no, plan, cents) =>
      (s.(orders := s.orders[no := Order(plan, cents, PENDING, None, None, 0, None)]), Recorded)
    case Notify(no, tradeNo, amount, now) =>
      if no !in s.orders then (s, UnknownOrder)
      else if amount != Yuan(s.orders[no].cents) then (s, AmountMismatch)
      else
        var o := s.orders[no];
        var seen := o.(notifyCount := o.notifyCount + 1, lastNotifyAt := Some(now));
        if o.status == PAID then (s.(orders := s.orders[no := seen]), AlreadyPaid)
        else
          (Store(s.orders[no := seen.(status := PAID, tradeNo := Some(tradeNo), paidAt := Some(now))],
                 if o.planId == "" then s.entitlements else Granted(s.entitlements, o.planId, no, tradeNo, now)),
         MarkedPaid)
    case SetStatus(no, status, extra) =>
      if no == "" || no !in s.orders then (s, NotFound)
      else
        var o := s.orders[no];
        (s.(orders := s.orders[no := o.(status := GetOr(extra.status, status), planId := GetOr(extra.planId, o.planId),
                                        cents := GetOr(extra.cents, o.cents))]), StatusSet)
  }

  /** The field a status rewrite writes: the one it carries along, or the given one. */
  ghost predicate Takes<T(!new)>(value: T, extra: Option<T>, given: T) {
    if extra.Some? then extra == Some(value) else value == given
  }

  /** What every event answers and stores, field by field, in its own order's record. */
  lemma StepMeans(s: Store, e: Event)
    ensures var (s', r) := Step(s, e);
            && (s'.orders.Keys == s.orders.Keys + if e.Checkout? then {e.orderNo} else {})
            && (e.Checkout? ==>
                  var o := s'.orders[e.orderNo];
                  && r.Recorded? && o.planId == e.planId && o.cents == e.cents && o.status == "pending_payment"
                  && o.tradeNo.None? && o.paidAt.None? && o.notifyCount == 0 && o.lastNotifyAt.None?)
            && (e.Notify? ==>
                  if e.orderNo !in s.orders then r.UnknownOrder? && s' == s
                  else if e.amount != Yuan(s.orders[e.orderNo].cents) then r.AmountMismatch? && s' == s
                  else
                    var o, o' := s.orders[e.orderNo], s'.orders[e.orderNo];
                    && (r.AlreadyPaid? <==> o.status == "paid") && (r.MarkedPaid? <==> o.status != "paid")
                    && o'.planId == o.planId && o'.cents == o.cents && o'.status == "paid"
                    && o'.notifyCount == o.notifyCount + 1 && o'.lastNotifyAt == Some(e.now)
                    && (r.AlreadyPaid? ==> o'.tradeNo == o.tradeNo && o'.paidAt == o.paidAt)
                    && (r.MarkedPaid? ==> o'.tradeNo == Some(e.tradeNo) && o'.paidAt == Some(e.now)))
            && (e.SetStatus? ==>
                  && (r.StatusSet? <==> e.orderNo != "" && e.orderNo in s.orders)
                  && (!r.StatusSet? ==> r.NotFound? && s' == s)
                  && (r.StatusSet? ==>
                        var o, o' := s.orders[e.orderNo], s'.orders[e.orderNo];
                        && Takes(o'.status, e.extra.status, e.status) && Takes(o'.planId, e.extra.planId, o.planId)
                        && Takes(o'.cents, e.extra.cents, o.cents)
                        && o'.tradeNo == o.tradeNo && o'.paidAt == o.paidAt
                        && o'.notifyCount == o.notifyCount && o'.lastNotifyAt == o.lastNotifyAt))
            && (r.MarkedPaid? && s.orders[e.orderNo].planId != "" ==>
                  var plan := s.orders[e.orderNo].planId;
                  && plan in s'.entitlements
                  && s'.entitlements[plan].lastPaidAt == e.now && s'.entitlements[plan].lastOrderNo == e.orderNo
                  && s'.entitlements[plan].lastTradeNo == e.tradeNo
                  && (plan !in s.entitlements ==> s'.entitlements[plan].firstPaidAt == e.now))
            && (!r.MarkedPaid? || s.orders[e.orderNo].planId == "" ==> s'.entitlements == s.entitlements)
  {
    hide Yuan;
  }

  class OrderStore {
    var orders: map<string, Order>
    var entitlements: map<string, Entitlement>

    ghost function State(): Store
      reads this
    {
      Store(orders, entitlements)
    }

    constructor ()
      ensures State() == Store(map[], map[])
    {
      orders, entitlements := map[], map[];
    }

    method RecordCheckoutPending(orderNo: string, planId: string, cents: int)
      modifies this
      ensures State() == Step(old(State()), Checkout(orderNo, planId, cents)).0
    {
      orders := orders[orderNo := Order(planId, cents, PENDING, None, None, 0, None)];
    }

    method ApplyNotifyPaid(orderNo: string, tradeNo: string, amount: string, now: int) returns (r: Reason)
      modifies this
      ensures (State(), r) == Step(old(State()), Notify(orderNo, tradeNo, amount, now))
    {
      if orderNo !in orders {
        return UnknownOrder;
      }
      var o := orders[orderNo];
      var expected := Yuan(o.cents);
      if amount != expected {
        return AmountMismatch;
      }
      var wasPaid := o.status == PAID;
      o := o.(notifyCount := o.notifyCount + 1);
      o := o.(lastNotifyAt := Some(now));
      if wasPaid {
        orders := orders[orderNo := o];
        return AlreadyPaid;
      }
      o := o.(status := PAID);
      o := o.(tradeNo := Some(tradeNo));
      o := o.(paidAt := Some(now));
      if o.planId != "" {
        GrantEntitlement(o.planId, orderNo, tradeNo, now);
      }
      orders := orders[orderNo := o];
      return MarkedPaid;
    }

    method GrantEntitlement(planId: string, orderNo: string, tradeNo: string, paidAt: int)
      modifies this`entitlements
      ensures entitlements == Granted(old(entitlements), planId, orderNo, tradeNo, paidAt)
    {
      var count, first := 0, paidAt;
      if planId in entitlements {
        count, first := entitlements[planId].purchaseCount, entitlements[planId].firstPaidAt;
      }
      entitlements := entitlements[planId := Entitlement(count + 1, first, paidAt, orderNo, tradeNo)];
    }

    method UpdateOrderStatus(orderNo: string, status: string, extra: Extra) returns (r: Reason)
      modifies this
      ensures (State(), r) == Step(old(State()), SetStatus(orderNo, status, extra))
    {
      if orderNo == "" || orderNo !in orders {
        return NotFound;
      }
      var o := orders[orderNo].(status := status);
      if extra.status.Some? { o := o.(status := extra.status.value); }
      if extra.planId.Some? { o := o.(planId := extra.planId.value); }
      if extra.cents.Some? { o := o.(cents := extra.cents.value); }
      orders := orders[orderNo := o];
      return StatusSet;
    }
  }

  // ----- whole runs -----

  function Run(s: Store, events: seq<Event>): Store {
    if |events| == 0 then s else Step(Run(s, events[..|events| - 1]), events[|events| - 1]).0
  }

  /** The result of event k of a run. */
  function ResultAt(s: Store, events: seq<Event>, k: nat): Reason
    requires k < |events|
  {
    Step(Run(s, events[..k]), events[k]).1
  }

  /** How many events of the run were answered "marked_paid" for an order of the given plan. */
  function PaidForPlan(s: Store, events: seq<Event>, planId: string): nat {
    if |events| == 0 then 0
    else
      var front, e := events[..|events| - 1], events[|events| - 1];
      var before := Run(s, front);
      PaidForPlan(s, front, planId) +
      if Step(before, e).1.MarkedPaid? && before.orders[e.orderNo].planId == planId then 1 else 0
  }

  /** How many events of the run were answered "marked_paid" for the given order. */
  function Grants(s: Store, events: seq<Event>, orderNo: string): nat {
    if |events| == 0 then 0
    else
      var front, e := events[..|events| - 1], events[|events| - 1];
      Grants(s, front, orderNo) + if e.orderNo == orderNo && Step(Run(s, front), e).1.MarkedPaid? then 1 else 0
  }

  /** An event that writes the order with a status other than paid. */
  predicate Opens(s: Store, e: Event, orderNo: string) {
    && e.orderNo == orderNo
    && match e
       case Checkout(_, _, _) => true
       case Notify(_, _, _, _) => false
       case SetStatus(_, status, extra) => Step(s, e).1.StatusSet? && GetOr(extra.status, status) != PAID
  }

  function Openings(s: Store, events: seq<Event>, orderNo: string): nat {
    if |events| == 0 then 0
    else
      var front, e := events[..|events| - 1], events[|events| - 1];
      Openings(s, front, orderNo) + if Opens(Run(s, front), e, orderNo) then 1 else 0
  }

  /** The last status that the events of a run wrote to an order, if any did. */
  ghost function LastStatus(s: Store, events: seq<Event>, orderNo: string): Option<string> {
    if |events| == 0 then None
    else
      var front, e := events[..|events| - 1], events[|events| - 1];
      var known := orderNo in Run(s, front).orders;
      if e.orderNo != orderNo then LastStatus(s, front, orderNo)
      else
        match e
        case Checkout(_, _, _) => Some("pending_payment")
        case Notify(_, _, amount, _) =>
          if known && amount == Yuan(Run(s, front).orders[orderNo].cents) then Some("paid")
          else LastStatus(s, front, orderNo)
        case SetStatus(_, status, extra) =>
          if orderNo == "" || !known then LastStatus(s, front, orderNo)
          else if extra.status.Some? then extra.status else Some(status)
  }

  /** An order's status is always the last one written to it: pending by its checkout, paid by a notice of its amount,
      and anything by a rewrite. */
  lemma {:induction false} StatusIsLastWritten(s: Store, events: seq<Event>, orderNo: string)
    ensures var last, s' := LastStatus(s, events, orderNo), Run(s, events);
            && (last.Some? ==> orderNo in s'.orders && s'.orders[orderNo].status == last.value)
            && (last.None? ==> (orderNo in s'.orders <==> orderNo in s.orders) &&
                               (orderNo in s.orders ==> s'.orders[orderNo].status == s.orders[orderNo].status))
  {
    hide Yuan;
    if |events| > 0 {
      StatusIsLastWritten(s, events[..|events| - 1], orderNo);
    }
  }

  function PurchaseCount(s: Store, planId: string): int {
    if planId in s.entitlements then s.entitlements[planId].purchaseCount else 0
  }

  /** An order that the next matching notice would grant. */
  predicate Open(s: Store, orderNo: string) {
    orderNo in s.orders && s.orders[orderNo].status != PAID
  }

  /** A plan's purchase count is exactly the number of payments marked for it, over any run. */
  lemma {:induction false} PurchaseCountIsMarkedPaid(s: Store, events: seq<Event>, planId: string)
    requires planId != ""
    ensures PurchaseCount(Run(s, events), planId) == PurchaseCount(s, planId) + PaidForPlan(s, events, planId)
  {
    if |events| > 0 {
      PurchaseCountIsMarkedPaid(s, events[..|events| - 1], planId);
    }
  }

  /** An order is granted at most once for every time it was written to a status other than paid. */
  lemma {:induction false} GrantsNeedOpenings(s: Store, events: seq<Event>, orderNo: string)
    ensures Grants(s, events, orderNo) + (if Open(Run(s, events), orderNo) then 1 else 0) <=
            Openings(s, events, orderNo) + (if Open(s, orderNo) then 1 else 0)
  {
    if |events| > 0 {
      GrantsNeedOpenings(s, events[..|events| - 1], orderNo);
    }
  }

  /** Event k of the run reopens the order. */
  predicate OpensAt(s: Store, events: seq<Event>, k: nat, orderNo: string)
    requires k < |events|
  {
    Opens(Run(s, events[..k]), events[k], orderNo)
  }

  predicate Settled(s: Store, orderNo: string) {
    orderNo in s.orders && s.orders[orderNo].status == PAID
  }

  lemma RunStep(s: Store, events: seq<Event>, k: nat)
    requires k < |events|
    ensures Run(s, events[..k + 1]) == Step(Run(s, events[..k]), events[k]).0
  {
    assert events[..k + 1][..k] == events[..k];
  }

  lemma StepStaysSettled(s: Store, e: Event, orderNo: string)
    requires Settled(s, orderNo) && !Opens(s, e, orderNo)
    ensures Settled(Step(s, e).0, orderNo)
  {
  }

  lemma {:induction false} StaysSettled(s: Store, events: seq<Event>, orderNo: string, lo: nat, hi: nat)
    requires lo <= hi <= |events| && Settled(Run(s, events[..lo]), orderNo)
    requires forall k :: lo <= k < hi ==> !OpensAt(s, events, k, orderNo)
    ensures Settled(Run(s, events[..hi]), orderNo)
    decreases hi
  {
    if lo < hi {
      StaysSettled(s, events, orderNo, lo, hi - 1);
      assert !OpensAt(s, events, hi - 1, orderNo);
      StepStaysSettled(Run(s, events[..hi - 1]), events[hi - 1], orderNo);
      RunStep(s, events, hi - 1);
    }
  }

  lemma GrantSettles(s: Store, e: Event)
    requires Step(s, e).1.MarkedPaid?
    ensures Settled(Step(s, e).0, e.orderNo)
  {
  }

  lemma GrantFindsOpen(s: Store, e: Event)
    requires Step(s, e).1.MarkedPaid?
    ensures !Settled(s, e.orderNo)
  {
  }

  /** Notices repeated with no rewrite in between grant once: between two grants of an order it was reopened. */
  lemma TwoGrantsNeedReopening(s: Store, events: seq<Event>, orderNo: string, i: nat, j: nat)
    requires i < j < |events| && events[i].orderNo == orderNo == events[j].orderNo
    requires ResultAt(s, events, i).MarkedPaid? && ResultAt(s, events, j).MarkedPaid?
    ensures exists k :: i < k < j && OpensAt(s, events, k, orderNo)
  {
    GrantSettles(Run(s, events[..i]), events[i]);
    RunStep(s, events, i);
    GrantFindsOpen(Run(s, events[..j]), events[j]);
    if forall k :: i < k < j ==> !OpensAt(s, events, k, orderNo) {
      StaysSettled(s, events, orderNo, i + 1, j);
    }
  }

  /** A notice is taken as a payment exactly when it names a known order, carries that order's amount to the cent,
      and the order is not paid yet. Whatever its answer, it touches no other order and no other plan. */
  lemma NotifyMeaning(s: Store, e: Event, cents: int)
    requires e.Notify?
    ensures var (s', r) := Step(s, e);
            && (r.MarkedPaid? && e.amount == Yuan(cents) <==>
                Open(s, e.orderNo) && s.orders[e.orderNo].cents == cents && e.amount == Yuan(cents))
            && (r.MarkedPaid? ==> !Open(s', e.orderNo) && s'.orders[e.orderNo].tradeNo == Some(e.tradeNo))
            && (!r.MarkedPaid? ==> s'.entitlements == s.entitlements)
            && (forall o :: o != e.orderNo ==> (o in s'.orders <==> o in s.orders))
            && (forall o :: o != e.orderNo && o in s.orders ==> s'.orders[o] == s.orders[o])
            && (forall p :: (e.orderNo !in s.orders || p != s.orders[e.orderNo].planId) ==>
                              PurchaseCount(s', p) == PurchaseCount(s, p))
  {
    if e.orderNo in s.orders && e.amount == Yuan(cents) && e.amount == Yuan(s.orders[e.orderNo].cents) {
      YuanInjective(cents, s.orders[e.orderNo].cents);
    }
  }

  /** A notice replayed after a refund finds the order reopened and grants it a second time. */
  lemma ReplayAfterRefundGrantsAgain(s: Store, orderNo: string, planId: string, cents: int, tradeNo: string, now: int)
    requires orderNo != "" && planId != ""
    ensures var notice := Notify(orderNo, tradeNo, Yuan(cents), now);
            var events := [Checkout(orderNo, planId, cents), notice,
                           SetStatus(orderNo, "refunded", Extra(None, None, None)), notice];
            PurchaseCount(Run(s, events), planId) == PurchaseCount(s, planId) + 2
  {
    var notice := Notify(orderNo, tradeNo, Yuan(cents), now);
    var events := [Checkout(orderNo, planId, cents), notice,
                   SetStatus(orderNo, "refunded", Extra(None, None, None)), notice];
    hide Yuan;
    assert events[..4] == events && events[..0] == [];
    RunStep(s, events, 0);
    RunStep(s, events, 1);
    RunStep(s, events, 2);
    RunStep(s, events, 3);
    var s1 := Step(s, events[0]).0;
    assert Run(s, events[..1]) == s1;
    assert Open(s1, orderNo) && s1.orders[orderNo].cents == cents && s1.orders[orderNo].planId == planId;
    var s2 := Step(s1, notice).0;
    assert Run(s, events[..2]) == s2 && s2.orders[orderNo].planId == planId;
  }

  /** The date of a plan's first payment never changes. */
  lemma {:induction false} FirstPaymentIsKept(s: Store, events: seq<Event>, planId: string)
    requires planId in s.entitlements
    ensures var s' := Run(s, events);
            planId in s'.entitlements && s'.entitlements[planId].firstPaidAt == s.entitlements[planId].firstPaidAt
  {
    if |events| > 0 {
      FirstPaymentIsKept(s, events[..|events| - 1], planId);
    }
  }
}
