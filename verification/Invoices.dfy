/** Invoice applications and their review: an order is on at most one invoice that is not rejected. */
module Invoices {
  import opened Basics
  import opened Text

  datatype Status = Pending | Issued | Rejected

  /** Amounts are in cents. */
  datatype Invoice = Invoice(id: int, userId: int, orderIds: seq<string>, amount: int, company: bool, title: string,
                             taxNo: string, status: Status, pdfUrl: string, rejectReason: string)

  /** An order as the payment store reports it at the time of the call. */
  datatype Order = Order(paid: bool, refunded: bool, userId: int, amount: int)

  datatype InvoiceError =
    | TaxNoMissing
    | OrderNotFound(orderId: string)
    | NotPaid(orderId: string)
    | Refunded(orderId: string)
    | NotOwner(orderId: string)
    | AlreadyInvoiced(orderId: string, invoiceId: int)
    | NotAdmin
    | PdfMissing
    | ReasonMissing
    | NoSuchInvoice
    | NotPending(status: Status)

  function OrderProblem(orders: map<string, Order>, userId: int, orderId: string): Option<InvoiceError> {
    if orderId !in orders then Some(OrderNotFound(orderId))
    else if !orders[orderId].paid then Some(NotPaid(orderId))
    else if orders[orderId].refunded then Some(Refunded(orderId))
    else if orders[orderId].userId != userId then Some(NotOwner(orderId))
    else None
  }

  predicate Eligible(orders: map<string, Order>, userId: int, orderId: string) {
    OrderProblem(orders, userId, orderId).None?
  }

  /** An order can be invoiced exactly if it exists, is paid, was not refunded and is the applicant's; the first of
      these that fails is reported. */
  lemma EligibleMeans(orders: map<string, Order>, userId: int, orderId: string)
    ensures Eligible(orders, userId, orderId) <==>
            orderId in orders && orders[orderId].paid && !orders[orderId].refunded && orders[orderId].userId == userId
    ensures var problem := OrderProblem(orders, userId, orderId);
            && (problem == Some(OrderNotFound(orderId)) <==> orderId !in orders)
            && (problem == Some(NotPaid(orderId)) <==> orderId in orders && !orders[orderId].paid)
            && (problem == Some(Refunded(orderId)) <==>
                orderId in orders && orders[orderId].paid && orders[orderId].refunded)
            && (problem == Some(NotOwner(orderId)) <==>
                orderId in orders && orders[orderId].paid && !orders[orderId].refunded &&
                orders[orderId].userId != userId)
  {
  }

  /** Why an application is refused: a company without its tax number, else the first order that is not eligible, else
      the first one that is on an open invoice. */
  ghost predicate Explains(e: InvoiceError, orders: map<string, Order>, userId: int, orderIds: seq<string>,
                           company: bool, taxNo: string, invoices: seq<Invoice>)
  {
    if company && AllSpace(taxNo) then e.TaxNoMissing?
    else if exists i :: 0 <= i < |orderIds| && !Eligible(orders, userId, orderIds[i]) then
      exists i :: 0 <= i < |orderIds| && OrderProblem(orders, userId, orderIds[i]) == Some(e)
                  && forall j :: 0 <= j < i ==> Eligible(orders, userId, orderIds[j])
    else
      exists i :: 0 <= i < |orderIds| && e.AlreadyInvoiced? && e.orderId == orderIds[i]
                  && Occupied(invoices, orderIds[i])
                  && forall j :: 0 <= j < i ==> !Occupied(invoices, orderIds[j])
  }

  function Total(orders: map<string, Order>, orderIds: seq<string>): int {
    if |orderIds| == 0 then 0
    else
      var last := orderIds[|orderIds| - 1];
      Total(orders, orderIds[..|orderIds| - 1]) + if last in orders then orders[last].amount else 0
  }

  /** The invoice holds the order: it lists it and is not rejected. */
  predicate Holds(inv: Invoice, orderId: string) {
    !inv.status.Rejected? && orderId in inv.orderIds
  }

  ghost predicate Occupied(invoices: seq<Invoice>, orderId: string) {
    exists i :: 0 <= i < |invoices| && Holds(invoices[i], orderId)
  }

  /** No order is on two invoices that are not rejected. */
  ghost predicate Exclusive(invoices: seq<Invoice>) {
    forall i, j, o :: 0 <= i < j < |invoices| && Holds(invoices[i], o) ==> !Holds(invoices[j], o)
  }

  ghost predicate Numbered(invoices: seq<Invoice>) {
    forall i :: 0 <= i < |invoices| ==> invoices[i].id == i + 1
  }

  class InvoiceBook {
    var invoices: seq<Invoice>

    ghost predicate Valid()
      reads this
    {
      Exclusive(invoices) && Numbered(invoices)
    }

    constructor ()
      ensures Valid() && invoices == []
    {
      invoices := [];
    }

    method Apply(orders: map<string, Order>, userId: int, orderIds: seq<string>, company: bool, title: string,
                 taxNo: string)
      returns (r: Result<Invoice, InvoiceError>)
      requires Valid()
      modifies this
      ensures Valid()
      ensures r.Ok? <==> && (company ==> Strip(taxNo) != [])
                         && (forall o :: o in orderIds ==> Eligible(orders, userId, o) && !Occupied(old(invoices), o))
      ensures r.Ok? ==> && invoices == old(invoices) + [r.value]
                        && r.value == Invoice(|old(invoices)| + 1, userId, orderIds, Total(orders, orderIds), company,
                                              Strip(title), Strip(taxNo), Pending, "", "")
                        && Changes(old(invoices), Applied(r.value), invoices)
      ensures r.Err? ==> invoices == old(invoices) &&
                         Explains(r.error, orders, userId, orderIds, company, taxNo, invoices)
      ensures r.Err? && r.error.AlreadyInvoiced? ==>
                exists i :: 0 <= i < |invoices| && invoices[i].id == r.error.invoiceId &&
                            Holds(invoices[i], r.error.orderId)
    {
      StripEnds(taxNo);
      if company && Strip(taxNo) == [] {
        return Err(TaxNoMissing);
      }
      var total := 0;
      for i := 0 to |orderIds|
        invariant forall j :: 0 <= j < i ==> Eligible(orders, userId, orderIds[j])
        invariant total == Total(orders, orderIds[..i])
      {
        var problem := OrderProblem(orders, userId, orderIds[i]);
        if problem.Some? {
          assert orderIds[i] in orderIds;
          return Err(problem.value);
        }
        assert orderIds[..i + 1][..i] == orderIds[..i];
        total := total + orders[orderIds[i]].amount;
      }
      assert orderIds[..|orderIds|] == orderIds;
      var occupied := OccupiedOrders();
      for i := 0 to |orderIds|
        invariant forall j :: 0 <= j < i ==> !Occupied(invoices, orderIds[j])
      {
        if orderIds[i] in occupied {
          assert orderIds[i] in orderIds;
          return Err(AlreadyInvoiced(orderIds[i], occupied[orderIds[i]]));
        }
      }
      var inv := Invoice(|invoices| + 1, userId, orderIds, total, company, Strip(title), Strip(taxNo), Pending, "", "");
      ApplyKeepsExclusive(invoices, inv);
      invoices := invoices + [inv];
      return Ok(inv);
    }

    /** The dictionary of occupied orders, built over all invoices that are not rejected. */
    method OccupiedOrders() returns (occupied: map<string, int>)
      ensures forall o :: o in occupied <==> Occupied(invoices, o)
      ensures forall o :: o in occupied ==>
                exists i :: 0 <= i < |invoices| && invoices[i].id == occupied[o] && Holds(invoices[i], o)
    {
      occupied := map[];
      for i := 0 to |invoices|
        invariant forall o :: o in occupied <==> Occupied(invoices[..i], o)
        invariant forall o :: o in occupied ==>
                    exists k :: 0 <= k < |invoices| && invoices[k].id == occupied[o] && Holds(invoices[k], o)
      {
        var inv := invoices[i];
        OccupiedSnoc(invoices[..i], inv);
        assert invoices[..i + 1] == invoices[..i] + [inv];
        if !inv.status.Rejected? {
          for j := 0 to |inv.orderIds|
            invariant forall o :: o in occupied <==> Occupied(invoices[..i], o) || o in inv.orderIds[..j]
            invariant forall o :: o in occupied ==>
                        exists k :: 0 <= k < |invoices| && invoices[k].id == occupied[o] && Holds(invoices[k], o)
          {
            assert inv.orderIds[..j + 1] == inv.orderIds[..j] + [inv.orderIds[j]];
            occupied := occupied[inv.orderIds[j] := inv.id];
            assert Holds(invoices[i], inv.orderIds[j]);
          }
          assert inv.orderIds[..|inv.orderIds|] == inv.orderIds;
        }
      }
      assert invoices[..|invoices|] == invoices;
    }

    method Review(isAdmin: bool, invoiceId: int, issue: bool, pdfUrl: string, rejectReason: string)
      returns (r: Result<Status, InvoiceError>)
      requires Valid()
      modifies this
      ensures Valid()
      ensures r.Ok? <==> && isAdmin && (if issue then Strip(pdfUrl) != [] else Strip(rejectReason) != [])
                         && 1 <= invoiceId <= |old(invoices)| && old(invoices)[invoiceId - 1].status.Pending?
      ensures r.Ok? ==> && r.value == (if issue then Issued else Rejected)
                        && invoices == old(invoices)[invoiceId - 1 :=
                                         if issue
                                         then old(invoices)[invoiceId - 1].
                                               (status := Issued, pdfUrl := Strip(pdfUrl), rejectReason := "")
                                         else old(invoices)[invoiceId - 1].
                                               (status := Rejected, rejectReason := Strip(rejectReason))]
      ensures r.Err? ==> r.error == if !isAdmin then NotAdmin
                                    else if issue && Strip(pdfUrl) == [] then PdfMissing
                                    else if !issue && Strip(rejectReason) == [] then ReasonMissing
                                    else if !(1 <= invoiceId <= |invoices|) then NoSuchInvoice
                                    else NotPending(invoices[invoiceId - 1].status)
      ensures r.Ok? ==> Changes(old(invoices), Reviewed(invoiceId - 1, invoices[invoiceId - 1]), invoices)
      ensures r.Err? ==> invoices == old(invoices)
    {
      if !isAdmin {
        return Err(NotAdmin);
      }
      if issue && Strip(pdfUrl) == [] {
        return Err(PdfMissing);
      }
      if !issue && Strip(rejectReason) == [] {
        return Err(ReasonMissing);
      }
      if !(1 <= invoiceId <= |invoices|) {
        return Err(NoSuchInvoice);
      }
      var inv := invoices[invoiceId - 1];
      if !inv.status.Pending? {
        return Err(NotPending(inv.status));
      }
      if issue {
        inv := inv.(status := Issued, pdfUrl := Strip(pdfUrl), rejectReason := "");
      } else {
        inv := inv.(status := Rejected, rejectReason := Strip(rejectReason));
      }
      ReviewKeepsExclusive(invoices, invoiceId - 1, inv);
      invoices := invoices[invoiceId - 1 := inv];
      return Ok(inv.status);
    }
  }

  lemma OccupiedSnoc(invoices: seq<Invoice>, inv: Invoice)
    ensures forall o :: Occupied(invoices + [inv], o) <==> Occupied(invoices, o) || Holds(inv, o)
  {
    var all := invoices + [inv];
    assert all[|invoices|] == inv;
    forall o | Occupied(invoices, o) ensures Occupied(all, o) {
      var i :| 0 <= i < |invoices| && Holds(invoices[i], o);
      assert Holds(all[i], o);
    }
  }

  lemma ApplyKeepsExclusive(invoices: seq<Invoice>, inv: Invoice)
    requires Exclusive(invoices) && forall o :: o in inv.orderIds ==> !Occupied(invoices, o)
    ensures Exclusive(invoices + [inv])
  {
    var all := invoices + [inv];
    forall i, j, o | 0 <= i < j < |all| && Holds(all[i], o) ensures !Holds(all[j], o) {
      if j == |invoices| {
        assert Occupied(invoices, o);
      }
    }
  }

  /** A review changes neither which orders an invoice lists nor its being open to anyone but itself. */
  lemma ReviewKeepsExclusive(invoices: seq<Invoice>, k: nat, inv: Invoice)
    requires Exclusive(invoices) && k < |invoices| && inv.orderIds == invoices[k].orderIds
    requires invoices[k].status.Pending?
    ensures Exclusive(invoices[k := inv])
  {
    var all := invoices[k := inv];
    forall i, j, o | 0 <= i < j < |all| && Holds(all[i], o) ensures !Holds(all[j], o) {
      assert Holds(invoices[i], o);
    }
  }

  /** Rejecting an invoice frees exactly its own orders: each can be applied for again, and no other order becomes
      free. */
  lemma RejectFreesExactlyItsOrders(invoices: seq<Invoice>, k: nat, rejected: Invoice, o: string)
    requires Exclusive(invoices) && k < |invoices| && invoices[k].status.Pending?
    requires rejected.status.Rejected?
    ensures Occupied(invoices[k := rejected], o) <==> Occupied(invoices, o) && o !in invoices[k].orderIds
  {
    var after := invoices[k := rejected];
    if Occupied(after, o) {
      var i :| 0 <= i < |after| && Holds(after[i], o);
      assert i != k && Holds(invoices[i], o);
      assert !Holds(invoices[k], o);
    }
    if Occupied(invoices, o) && o !in invoices[k].orderIds {
      var i :| 0 <= i < |invoices| && Holds(invoices[i], o);
      assert Holds(after[i], o);
    }
  }

  // ----- any serial run -----

  datatype Change = Applied(inv: Invoice) | Reviewed(k: nat, inv: Invoice)

  /** The effects the two operations promise. */
  ghost predicate Changes(before: seq<Invoice>, c: Change, after: seq<Invoice>) {
    match c
    case Applied(inv) =>
      && inv.status.Pending? && after == before + [inv]
      && (forall o :: o in inv.orderIds ==> !Occupied(before, o))
    case Reviewed(k, inv) =>
      && k < |before| && before[k].status.Pending? && !inv.status.Pending? && inv.orderIds == before[k].orderIds
      && after == before[k := inv]
  }

  ghost predicate History(states: seq<seq<Invoice>>, changes: seq<Change>) {
    && |states| == |changes| + 1
    && forall n :: 0 <= n < |changes| ==> Changes(states[n], changes[n], states[n + 1])
  }

  /** Over any run: exclusiveness stays, no invoice disappears, and an issued or rejected invoice never changes again.
      */
  lemma {:induction false} HistoriesAreExclusive(states: seq<seq<Invoice>>, changes: seq<Change>)
    requires History(states, changes) && Exclusive(states[0])
    ensures Exclusive(states[|changes|])
    ensures |states[0]| <= |states[|changes|]|
    ensures forall i :: 0 <= i < |states[0]| && !states[0][i].status.Pending? ==> states[|changes|][i] == states[0][i]
    decreases |changes|
  {
    if |changes| > 0 {
      var n := |changes| - 1;
      HistoriesAreExclusive(states[..n + 1], changes[..n]);
      assert Changes(states[n], changes[n], states[n + 1]);
      match changes[n] {
        case Applied(inv) => ApplyKeepsExclusive(states[n], inv);
        case Reviewed(k, inv) => ReviewKeepsExclusive(states[n], k, inv);
      }
    }
  }

  // ----- an order listed twice in one application -----

  predicate Distinct(orderIds: seq<string>) {
    forall i, j :: 0 <= i < j < |orderIds| ==> orderIds[i] != orderIds[j]
  }

  /** The total with every order counted once. */
  function DistinctTotal(orders: map<string, Order>, orderIds: seq<string>): int {
    if |orderIds| == 0 then 0
    else
      var front, last := orderIds[..|orderIds| - 1], orderIds[|orderIds| - 1];
      DistinctTotal(orders, front) + if last in orders && last !in front then orders[last].amount else 0
  }

  /** The invoiced amount is what the orders are worth exactly when the application names no order twice:
      the check against other invoices does not look inside the application itself. */
  lemma {:induction false} AmountIsRightIffDistinct(orders: map<string, Order>, orderIds: seq<string>)
    requires forall o :: o in orderIds ==> o in orders && orders[o].amount > 0
    ensures Total(orders, orderIds) == DistinctTotal(orders, orderIds) <==> Distinct(orderIds)
    ensures Total(orders, orderIds) >= DistinctTotal(orders, orderIds)
  {
    if |orderIds| > 0 {
      var front, last := orderIds[..|orderIds| - 1], orderIds[|orderIds| - 1];
      AmountIsRightIffDistinct(orders, front);
      if last in front {
        var i :| 0 <= i < |front| && front[i] == last;
        assert orderIds[i] == orderIds[|orderIds| - 1];
      }
    }
  }
}
