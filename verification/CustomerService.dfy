/** The customer-service desk: messages open or continue tickets, plan actions under idempotency keys, and run them. */
module CustomerService {
  import opened Basics
  import opened Text
  import Decimal
  import Keys

  datatype Intent = Refund | CatalogComplaint | CatalogReview | LlmExtension | AccountSupport | General

  datatype TicketStatus = Open | WaitingUser | Processing | Resolved

  datatype Ticket = Ticket(id: int, sessionId: int, userId: int, intent: Intent, status: TicketStatus)

  /** What a message says, field by field; an empty text is a missing field. */
  datatype Fields = Fields(orderNo: string, catalogId: string, complaintType: string, reason: string,
                           provider: string, model: string)

  datatype ActionType =
    RefundApply | ComplaintCreate | ComplianceReview | WorkflowExecute | OpenapiOperation | ModelPropose

  datatype ActionStatus = Waiting | Completed | Skipped | Failed

  /** The stored idempotency key is Key(ticketId, kind, target). */
  datatype Action = Action(ticketId: int, userId: int, kind: ActionType, target: string, request: Fields,
                           status: ActionStatus)

  datatype RefundRequest = RefundRequest(userId: int, orderNo: string, amount: int)

  datatype Complaint = Complaint(catalogId: int, userId: int, complaintType: string)

  /** The rows of the desk. Rows are never deleted, so a ticket's id is its place. */
  datatype Desk = Desk(tickets: seq<Ticket>, actions: seq<Action>, refunds: seq<RefundRequest>,
                       complaints: seq<Complaint>)

  datatype Order = Order(userId: int, paid: bool, amount: int)

  /** How an outside call behind an action comes out. */
  datatype Outcome = Good | Bad | Raises

  datatype Target = Workflow(id: int) | Openapi(connectorId: int, operation: string) | Unsupported

  /** A row of the integrations table; `autoInvoke` is false only if the configuration says so outright. */
  datatype Integration = Integration(enabled: bool, scenario: string, autoInvoke: bool, target: Target)

  /** What the desk sees of the rest of the system during one message. Call 0 is the planned action's, call n + 1 that
      of the integration in row n. */
  datatype World = World(orders: map<string, Order>, catalog: set<int>, readInt: string -> Option<int>,
                         outcome: nat -> Outcome, integrations: seq<Integration>)

  datatype Message = Message(sessionId: int, userId: int, intent: Intent, fields: Fields, world: World)

  /** An action to run: the one a decision plans, or the one an integration asks for. */
  datatype Item = Item(kind: ActionType, target: string)

  datatype Job = Job(item: Item, outcome: Outcome)

  // ----- keys -----

  function KindName(kind: ActionType): string {
    match kind
    case RefundApply => "refund.apply:order"
    case ComplaintCreate => "catalog.complaint.create:catalog_item"
    case ComplianceReview => "catalog.compliance.review:catalog_item"
    case WorkflowExecute => "workflow.execute:workflow"
    case OpenapiOperation => "openapi.operation:openapi"
    case ModelPropose => "llm.model_capability.propose:llm_model"
  }

  /** ticket : action type : target type : target. Each action type is used with one target type. */
  function Key(ticketId: int, kind: ActionType, target: string): string {
    Decimal.PrintInt(ticketId) + (":" + (KindName(kind) + (":" + target)))
  }

  lemma KindNamesApart(k: ActionType, k': ActionType, target: string, target': string)
    requires KindName(k) + (":" + target) == KindName(k') + (":" + target')
    ensures k == k' && target == target'
  {
    hide KindName;
    var s := KindName(k) + (":" + target);
    KindCode(k);
    KindCode(k');
    assert s[0] == KindName(k)[0] == KindName(k')[0];
    assert s[13] == KindName(k)[13] == KindName(k')[13];
    assert s[|KindName(k)| + 1..] == target && s[|KindName(k')| + 1..] == target';
  }

  /** The first and the fourteenth character tell the action types apart. */
  lemma KindCode(k: ActionType)
    ensures |KindName(k)| > 13
    ensures (KindName(k)[0], KindName(k)[13]) == match k
              case RefundApply => ('r', 'o')
              case ComplaintCreate => ('c', 'a')
              case ComplianceReview => ('c', 'i')
              case WorkflowExecute => ('w', 'u')
              case OpenapiOperation => ('o', 't')
              case ModelPropose => ('l', 'a')
  {
  }

  /** Two actions with one idempotency key are the same action of the same ticket on the same target. */
  lemma KeyInjective(t: int, k: ActionType, target: string, t': int, k': ActionType, target': string)
    requires Key(t, k, target) == Key(t', k', target')
    ensures t == t' && k == k' && target == target'
  {
    Decimal.PrintIntShape(t);
    Decimal.PrintIntShape(t');
    Keys.SplitAtColon(Decimal.PrintInt(t), Decimal.PrintInt(t'),
                      KindName(k) + (":" + target), KindName(k') + (":" + target'));
    Decimal.PrintIntInjective(t, t');
    KindNamesApart(k, k', target, target');
  }

  // ----- what a desk keeps -----

  predicate Done(a: Action) {
    a.status.Completed? || a.status.Skipped?
  }

  function CompletedComplaints(actions: seq<Action>): nat {
    if |actions| == 0 then 0
    else
      var a := actions[|actions| - 1];
      CompletedComplaints(actions[..|actions| - 1]) + if a.kind.ComplaintCreate? && a.status.Completed? then 1 else 0
  }

  predicate IsFor(a: Action, ticketId: int, kind: ActionType, target: string) {
    a.ticketId == ticketId && a.kind == kind && a.target == target
  }

  /** No two actions have the same ticket, type and target. */
  ghost predicate OneActionPerKey(actions: seq<Action>) {
    forall i, j :: 0 <= i < j < |actions| ==>
                     !IsFor(actions[i], actions[j].ticketId, actions[j].kind, actions[j].target)
  }

  ghost predicate OneRefundPerOrder(refunds: seq<RefundRequest>) {
    forall i, j :: 0 <= i < j < |refunds| ==> refunds[i].orderNo != refunds[j].orderNo
  }

  /** The order a refund action is about. */
  function OrderOf(a: Action): string {
    Strip(if a.request.orderNo != "" then a.request.orderNo else a.target)
  }

  predicate Requested(refunds: seq<RefundRequest>, orderNo: string) {
    exists i :: 0 <= i < |refunds| && refunds[i].orderNo == orderNo
  }

  predicate CompletesRefund(a: Action, orderNo: string) {
    a.kind.RefundApply? && a.status.Completed? && OrderOf(a) == orderNo
  }

  predicate RefundDone(actions: seq<Action>, orderNo: string) {
    exists i :: 0 <= i < |actions| && CompletesRefund(actions[i], orderNo)
  }

  /** The orders with a refund request are those of the completed refund actions. */
  ghost predicate RefundsMatchActions(d: Desk) {
    forall orderNo :: Requested(d.refunds, orderNo) <==> RefundDone(d.actions, orderNo)
  }

  ghost predicate Sound(d: Desk) {
    && OneActionPerKey(d.actions)
    && OneRefundPerOrder(d.refunds)
    && |d.complaints| == CompletedComplaints(d.actions)
    && RefundsMatchActions(d)
    && forall i :: 0 <= i < |d.tickets| ==> d.tickets[i].id == i + 1
  }

  /** How a desk may change: nothing disappears, and finished actions and resolved tickets stay exactly as they are. */
  ghost predicate Evolves(d: Desk, d': Desk) {
    && |d.tickets| <= |d'.tickets| && |d.actions| <= |d'.actions|
    && d.refunds <= d'.refunds && d.complaints <= d'.complaints
    && (forall i :: 0 <= i < |d.tickets| && d.tickets[i].status.Resolved? ==> d'.tickets[i] == d.tickets[i])
    && (forall i :: 0 <= i < |d.actions| && Done(d.actions[i]) ==> d'.actions[i] == d.actions[i])
    && (forall i :: 0 <= i < |d.actions| ==> d'.actions[i].(status := d.actions[i].status) == d.actions[i])
  }

  lemma EvolvesTransitive(d: Desk, d': Desk, d'': Desk)
    requires Evolves(d, d') && Evolves(d', d'')
    ensures Evolves(d, d'')
  {
  }

  // ----- running one action -----

  function Refunded(d: Desk, a: Action, userId: int, w: World): (seq<RefundRequest>, bool) {
    var orderNo := OrderOf(a);
    if orderNo == "" || orderNo !in w.orders || w.orders[orderNo].userId != userId || !w.orders[orderNo].paid then
      (d.refunds, false)
    else if Requested(d.refunds, orderNo) then (d.refunds, true)
    else (d.refunds + [RefundRequest(userId, orderNo, w.orders[orderNo].amount)], true)
  }

  function Cut(s: string, n: nat): string {
    if |s| <= n then s else s[..n]
  }

  function ComplaintTypeOf(a: Action): string {
    if a.request.complaintType == "" then "other" else Cut(a.request.complaintType, 32)
  }

  function CatalogIdOf(a: Action, w: World): Option<int> {
    var text := if a.request.catalogId != "" then a.request.catalogId else a.target;
    if text == "" then Some(0) else w.readInt(text)
  }

  function Complained(d: Desk, a: Action, userId: int, w: World): (seq<Complaint>, bool) {
    var id := CatalogIdOf(a, w);
    if id.None? || id.value <= 0 || id.value !in w.catalog then (d.complaints, false)
    else
      (d.complaints + [Complaint(id.value, userId, ComplaintTypeOf(a))], true)
  }

  predicate Reviewable(a: Action, w: World) {
    var id := CatalogIdOf(a, w);
    id.Some? && id.value > 0 && id.value in w.catalog
  }

  /** The effect of running action i with the given outcome of an outside call. */
  function Executed(d: Desk, i: nat, userId: int, w: World, outcome: Outcome): (r: Desk)
    requires i < |d.actions|
    ensures r.tickets == d.tickets
  {
    var a := d.actions[i];
    if Done(a) then d
    else
      var (refunds, refundOk) := Refunded(d, a, userId, w);
      var (complaints, complaintOk) := Complained(d, a, userId, w);
      match a.kind
      case RefundApply => Finished(d, i, refundOk).(refunds := refunds)
      case ComplaintCreate => Finished(d, i, complaintOk).(complaints := complaints)
      case ComplianceReview => Finished(d, i, Reviewable(a, w))
      case _ => Finished(d, i, outcome.Good?)
  }

  function Finished(d: Desk, i: nat, ok: bool): Desk
    requires i < |d.actions|
  {
    d.(actions := d.actions[i := d.actions[i].(status := if ok then Completed else Failed)])
  }

  lemma {:induction false} CompletedComplaintsUpdate(actions: seq<Action>, i: nat, a: Action)
    requires i < |actions| && actions[i].kind == a.kind && !actions[i].status.Completed?
    ensures CompletedComplaints(actions[i := a]) ==
            CompletedComplaints(actions) + if a.kind.ComplaintCreate? && a.status.Completed? then 1 else 0
    decreases |actions|
  {
    var n := |actions| - 1;
    if i < n {
      CompletedComplaintsUpdate(actions[..n], i, a);
      assert actions[i := a][..n] == actions[..n][i := a];
    } else {
      assert actions[i := a][..n] == actions[..n];
    }
  }

  /** An unfinished action's row is rewritten: its order is the only one that can become refunded. */
  lemma RefundDoneUpdate(actions: seq<Action>, i: nat, a: Action, orderNo: string)
    requires i < |actions| && !Done(actions[i])
    ensures RefundDone(actions[i := a], orderNo) <==> RefundDone(actions, orderNo) || CompletesRefund(a, orderNo)
  {
    var after := actions[i := a];
    if RefundDone(actions, orderNo) {
      var k :| 0 <= k < |actions| && CompletesRefund(actions[k], orderNo);
      assert CompletesRefund(after[k], orderNo);
    }
    if CompletesRefund(a, orderNo) {
      assert CompletesRefund(after[i], orderNo);
    }
    if RefundDone(after, orderNo) && !CompletesRefund(a, orderNo) {
      var k :| 0 <= k < |after| && CompletesRefund(after[k], orderNo);
      assert CompletesRefund(actions[k], orderNo);
    }
  }

  /** Writing the outcome of a run into its row. */
  lemma FinishedKeeps(d: Desk, i: nat, ok: bool)
    requires Sound(d) && i < |d.actions| && !Done(d.actions[i])
    ensures var d' := Finished(d, i, ok);
            && OneActionPerKey(d'.actions) && Evolves(d, d')
            && CompletedComplaints(d'.actions) ==
               CompletedComplaints(d.actions) + (if ok && d.actions[i].kind.ComplaintCreate? then 1 else 0)
    ensures forall orderNo :: RefundDone(Finished(d, i, ok).actions, orderNo) <==>
              RefundDone(d.actions, orderNo) ||
              (ok && d.actions[i].kind.RefundApply? && OrderOf(d.actions[i]) == orderNo)
  {
    var d' := Finished(d, i, ok);
    CompletedComplaintsUpdate(d.actions, i, d'.actions[i]);
    forall j, k | 0 <= j < k < |d'.actions|
      ensures !IsFor(d'.actions[j], d'.actions[k].ticketId, d'.actions[k].kind, d'.actions[k].target)
    {
      assert !IsFor(d.actions[j], d.actions[k].ticketId, d.actions[k].kind, d.actions[k].target);
    }
    forall orderNo
      ensures RefundDone(d'.actions, orderNo) <==>
              RefundDone(d.actions, orderNo) || CompletesRefund(d'.actions[i], orderNo)
    {
      RefundDoneUpdate(d.actions, i, d'.actions[i], orderNo);
    }
    assert OrderOf(d'.actions[i]) == OrderOf(d.actions[i]);
  }

  lemma RequestedMore(refunds: seq<RefundRequest>, r: RefundRequest)
    ensures forall o :: Requested(refunds + [r], o) <==> Requested(refunds, o) || o == r.orderNo
  {
    var more := refunds + [r];
    assert more[|refunds|] == r;
    forall o | Requested(refunds, o) ensures Requested(more, o) {
      var k :| 0 <= k < |refunds| && refunds[k].orderNo == o;
      assert more[k].orderNo == o;
    }
  }

  lemma RefundKeepsSound(d: Desk, i: nat, userId: int, w: World)
    requires Sound(d) && i < |d.actions| && !Done(d.actions[i]) && d.actions[i].kind.RefundApply?
    ensures var (refunds, ok) := Refunded(d, d.actions[i], userId, w);
            var d' := Finished(d, i, ok).(refunds := refunds);
            Sound(d') && Evolves(d, d')
  {
    var (refunds, ok) := Refunded(d, d.actions[i], userId, w);
    FinishedKeeps(d, i, ok);
    if refunds != d.refunds {
      RequestedMore(d.refunds, refunds[|d.refunds|]);
      assert refunds == d.refunds + [refunds[|d.refunds|]];
    }
  }

  /** A complaint action that completes has filed one complaint, and one that fails has filed none. */
  lemma ComplaintKeepsSound(d: Desk, i: nat, userId: int, w: World)
    requires Sound(d) && i < |d.actions| && !Done(d.actions[i]) && d.actions[i].kind.ComplaintCreate?
    ensures var (complaints, ok) := Complained(d, d.actions[i], userId, w);
            var d' := Finished(d, i, ok).(complaints := complaints);
            Sound(d') && Evolves(d, d')
  {
    FinishedKeeps(d, i, Complained(d, d.actions[i], userId, w).1);
  }

  lemma PlainActionKeepsSound(d: Desk, i: nat, ok: bool)
    requires Sound(d) && i < |d.actions| && !Done(d.actions[i])
    requires !d.actions[i].kind.ComplaintCreate? && !d.actions[i].kind.RefundApply?
    ensures Sound(Finished(d, i, ok)) && Evolves(d, Finished(d, i, ok))
  {
    FinishedKeeps(d, i, ok);
  }

  /** Running an action keeps the desk sound, and a finished one is not run again. */
  lemma ExecutedKeepsSound(d: Desk, i: nat, userId: int, w: World, outcome: Outcome)
    requires Sound(d) && i < |d.actions|
    ensures Sound(Executed(d, i, userId, w, outcome)) && Evolves(d, Executed(d, i, userId, w, outcome))
    ensures Done(d.actions[i]) ==> Executed(d, i, userId, w, outcome) == d
  {
    var a := d.actions[i];
    if !Done(a) {
      match a.kind {
        case RefundApply => RefundKeepsSound(d, i, userId, w);
        case ComplaintCreate => ComplaintKeepsSound(d, i, userId, w);
        case ComplianceReview => PlainActionKeepsSound(d, i, Reviewable(a, w));
        case _ => PlainActionKeepsSound(d, i, outcome.Good?);
      }
    }
  }

  // ----- deciding and planning -----

  function MissingFields(intent: Intent, f: Fields): seq<string> {
    match intent
    case Refund => Absent("order_no", f.orderNo) + Absent("reason", f.reason)
    case CatalogComplaint =>
      Absent("catalog_id", f.catalogId) + Absent("complaint_type", f.complaintType) + Absent("reason", f.reason)
    case CatalogReview => Absent("catalog_id", f.catalogId)
    case LlmExtension => Absent("provider", f.provider) + Absent("model", f.model) + Absent("reason", f.reason)
    case _ => []
  }

  function Absent(name: string, value: string): seq<string> {
    if value == "" then [name] else []
  }

  datatype Decision = Approved | NeedsMoreInfo

  function Decide(intent: Intent, f: Fields): Decision {
    if MissingFields(intent, f) != [] then NeedsMoreInfo else Approved
  }

  /** The action an approved message plans, and its target. */
  function PlannedAction(intent: Intent, f: Fields): Option<Item> {
    match intent
    case Refund => Some(Item(RefundApply, f.orderNo))
    case CatalogComplaint => Some(Item(ComplaintCreate, f.catalogId))
    case CatalogReview => Some(Item(ComplianceReview, f.catalogId))
    case LlmExtension => Some(Item(ModelPropose, Cut(f.provider + ":" + f.model, 240)))
    case _ => None
  }

  function PlannedJobs(m: Message): seq<Job> {
    var plan := PlannedAction(m.intent, m.fields);
    if Decide(m.intent, m.fields).Approved? && plan.Some? then [Job(plan.value, m.world.outcome(0))] else []
  }

  function Scenario(intent: Intent): string {
    match intent
    case Refund => "refund"
    case CatalogComplaint => "catalog_complaint"
    case CatalogReview => "catalog_review"
    case LlmExtension => "llm_extension"
    case AccountSupport => "account_support"
    case General => "general"
  }

  predicate Applies(row: Integration, intent: Intent) {
    row.enabled && row.autoInvoke && (row.scenario == Scenario(intent) || row.scenario == "general")
  }

  /** The action an integration asks for, unless its configuration is incomplete. */
  function ItemOf(target: Target): Option<Item> {
    match target
    case Workflow(id) => if id == 0 then None else Some(Item(WorkflowExecute, Decimal.PrintInt(id)))
    case Openapi(connectorId, operation) =>
      if connectorId == 0 || Strip(operation) == [] then None
      else Some(Item(OpenapiOperation, Decimal.PrintInt(connectorId) + (":" + Strip(operation))))
    case Unsupported => None
  }

  /** The job of the integration in row n, if it applies. */
  function JobsAt(m: Message, n: nat): seq<Job>
    requires n < |m.world.integrations|
  {
    var row := m.world.integrations[n];
    var item := ItemOf(row.target);
    if Applies(row, m.intent) && item.Some? then [Job(item.value, m.world.outcome(n + 1))] else []
  }

  /** The jobs of the first n integrations. */
  function IntegrationJobs(m: Message, n: nat): seq<Job>
    requires n <= |m.world.integrations|
  {
    if n == 0 then [] else IntegrationJobs(m, n - 1) + JobsAt(m, n - 1)
  }

  /** A message's own actions, in the order they are run. */
  function JobsOf(m: Message): seq<Job> {
    PlannedJobs(m) + IntegrationJobs(m, |m.world.integrations|)
  }

  // ----- one message -----

  predicate Active(t: Ticket) {
    !t.status.Resolved?
  }

  predicate ActiveIn(t: Ticket, sessionId: int) {
    t.sessionId == sessionId && Active(t)
  }

  /** One past the newest active ticket of a session, or zero. */
  function LastActive(tickets: seq<Ticket>, sessionId: int): (k: nat)
    ensures k <= |tickets|
    ensures k > 0 ==> ActiveIn(tickets[k - 1], sessionId)
    ensures forall j :: k <= j < |tickets| ==> !ActiveIn(tickets[j], sessionId)
  {
    if |tickets| == 0 then 0
    else if ActiveIn(tickets[|tickets| - 1], sessionId) then |tickets|
    else LastActive(tickets[..|tickets| - 1], sessionId)
  }

  /** The place of the ticket a message continues, or the next free place. */
  function ChosenTicket(tickets: seq<Ticket>, m: Message): (t: nat)
    ensures t <= |tickets|
  {
    var k := LastActive(tickets, m.sessionId);
    if k > 0 && tickets[k - 1].intent == m.intent then k - 1 else |tickets|
  }

  function Opened(d: Desk, m: Message): (r: Desk)
    ensures ChosenTicket(d.tickets, m) < |r.tickets|
  {
    if ChosenTicket(d.tickets, m) < |d.tickets| then d
    else d.(tickets := d.tickets + [Ticket(|d.tickets| + 1, m.sessionId, m.userId, m.intent, Open)])
  }

  /** The place of the action under a key, or the next free place. */
  function Place(actions: seq<Action>, ticketId: int, item: Item): (i: nat)
    ensures i <= |actions|
    ensures i < |actions| ==> IsFor(actions[i], ticketId, item.kind, item.target)
    ensures forall j :: 0 <= j < i ==> !IsFor(actions[j], ticketId, item.kind, item.target)
  {
    if |actions| == 0 || IsFor(actions[0], ticketId, item.kind, item.target) then 0
    else 1 + Place(actions[1..], ticketId, item)
  }

  function NewAction(ticketId: int, m: Message, item: Item): Action {
    Action(ticketId, m.userId, item.kind, item.target, m.fields, Waiting)
  }

  function Built(d: Desk, ticketId: int, m: Message, item: Item): (r: Desk)
    ensures r.tickets == d.tickets
    ensures Place(r.actions, ticketId, item) == Place(d.actions, ticketId, item) < |r.actions|
  {
    var i := Place(d.actions, ticketId, item);
    if i < |d.actions| then d
    else
      var r := d.(actions := d.actions + [NewAction(ticketId, m, item)]);
      assert IsFor(r.actions[i], ticketId, item.kind, item.target);
      assert forall j :: 0 <= j < i ==> r.actions[j] == d.actions[j];
      r
  }

  /** One job: its action is built unless it exists, and run unless it is finished. */
  function Acted(d: Desk, ticketId: int, m: Message, job: Job): (r: Desk)
    ensures r.tickets == d.tickets
  {
    var built := Built(d, ticketId, m, job.item);
    Executed(built, Place(built.actions, ticketId, job.item), m.userId, m.world, job.outcome)
  }

  function Worked(d: Desk, ticketId: int, m: Message, jobs: seq<Job>): (r: Desk)
    ensures r.tickets == d.tickets
  {
    if |jobs| == 0 then d
    else Acted(Worked(d, ticketId, m, jobs[..|jobs| - 1]), ticketId, m, jobs[|jobs| - 1])
  }

  predicate ItemDone(actions: seq<Action>, ticketId: int, item: Item) {
    var i := Place(actions, ticketId, item);
    i < |actions| && Done(actions[i])
  }

  predicate AllDone(actions: seq<Action>, ticketId: int, jobs: seq<Job>) {
    forall k :: 0 <= k < |jobs| ==> ItemDone(actions, ticketId, jobs[k].item)
  }

  /** The ticket's status behind a message. */
  function StatusAfter(m: Message, ticketId: int, actions: seq<Action>): TicketStatus {
    if Decide(m.intent, m.fields).NeedsMoreInfo? then WaitingUser
    else if AllDone(actions, ticketId, JobsOf(m)) then Resolved
    else Processing
  }

  function Stamped(d: Desk, t: nat, status: TicketStatus): Desk
    requires t < |d.tickets|
  {
    d.(tickets := d.tickets[t := d.tickets[t].(status := status)])
  }

  /** The whole effect of one message. */
  function Handled(d: Desk, m: Message): Desk {
    var t := ChosenTicket(d.tickets, m);
    var worked := Worked(Opened(d, m), t + 1, m, JobsOf(m));
    Stamped(worked, t, StatusAfter(m, t + 1, worked.actions))
  }

  // ----- the desk as it runs -----

  class ServiceDesk {
    var tickets: seq<Ticket>
    var actions: seq<Action>
    var refunds: seq<RefundRequest>
    var complaints: seq<Complaint>

    ghost function State(): Desk
      reads this
    {
      Desk(tickets, actions, refunds, complaints)
    }

    constructor ()
      ensures State() == EMPTY
    {
      tickets, actions, refunds, complaints := [], [], [], [];
    }

    method EnsureTicket(m: Message) returns (t: nat)
      modifies this`tickets
      ensures t == ChosenTicket(old(tickets), m) < |tickets| && State() == Opened(old(State()), m)
    {
      var k := |tickets|;
      while k > 0 && !(tickets[k - 1].sessionId == m.sessionId && Active(tickets[k - 1]))
        invariant 0 <= k <= |tickets|
        invariant forall j :: k <= j < |tickets| ==> !ActiveIn(tickets[j], m.sessionId)
      {
        k := k - 1;
      }
      assert k == LastActive(tickets, m.sessionId);
      if k > 0 && tickets[k - 1].intent == m.intent {
        return k - 1;
      }
      t := |tickets|;
      tickets := tickets + [Ticket(|tickets| + 1, m.sessionId, m.userId, m.intent, Open)];
    }

    method BuildAction(ticketId: int, m: Message, item: Item) returns (i: nat)
      modifies this`actions
      ensures i == Place(actions, ticketId, item) < |actions|
      ensures State() == Built(old(State()), ticketId, m, item)
    {
      i := FindAction(ticketId, item);
      if i == |actions| {
        actions := actions + [Action(ticketId, m.userId, item.kind, item.target, m.fields, Waiting)];
      }
      assert State() == Built(old(State()), ticketId, m, item);
    }

    /** The query by idempotency key. */
    method FindAction(ticketId: int, item: Item) returns (i: nat)
      ensures i == Place(actions, ticketId, item)
    {
      for k := 0 to |actions|
        invariant forall j :: 0 <= j < k ==> !IsFor(actions[j], ticketId, item.kind, item.target)
      {
        var same := SameKey(actions[k], ticketId, item);
        if same {
          return k;
        }
      }
      return |actions|;
    }

    /** The stored key and the key asked for, compared as texts. */
    static method SameKey(a: Action, ticketId: int, item: Item) returns (same: bool)
      ensures same <==> IsFor(a, ticketId, item.kind, item.target)
    {
      same := Key(a.ticketId, a.kind, a.target) == Key(ticketId, item.kind, item.target);
      if same {
        KeyInjective(a.ticketId, a.kind, a.target, ticketId, item.kind, item.target);
      }
    }

    method ExecuteAction(i: nat, userId: int, w: World, outcome: Outcome)
      requires i < |actions|
      modifies this
      ensures State() == Executed(old(State()), i, userId, w, outcome)
    {
      var a := actions[i];
      if Done(a) {
        return;
      }
      var ok := outcome.Good?;
      match a.kind {
        case RefundApply => ok := ApplyRefund(a, userId, w);
        case ComplaintCreate => ok := CreateComplaint(a, userId, w);
        case ComplianceReview => ok := Reviewable(a, w);
        case _ =>
      }
      actions := actions[i := a.(status := if ok then Completed else Failed)];
    }

    method ApplyRefund(a: Action, userId: int, w: World) returns (ok: bool)
      modifies this`refunds
      ensures (refunds, ok) == Refunded(old(State()), a, userId, w)
    {
      var orderNo := OrderOf(a);
      if orderNo == "" || orderNo !in w.orders || w.orders[orderNo].userId != userId || !w.orders[orderNo].paid {
        return false;
      }
      for k := 0 to |refunds|
        invariant forall j :: 0 <= j < k ==> refunds[j].orderNo != orderNo
      {
        if refunds[k].orderNo == orderNo {
          return true;
        }
      }
      refunds := refunds + [RefundRequest(userId, orderNo, w.orders[orderNo].amount)];
      return true;
    }

    method CreateComplaint(a: Action, userId: int, w: World) returns (ok: bool)
      modifies this`complaints
      ensures (complaints, ok) == Complained(old(State()), a, userId, w)
    {
      var id := CatalogIdOf(a, w);
      if id.None? || id.value <= 0 || id.value !in w.catalog {
        return false;
      }
      complaints := complaints + [Complaint(id.value, userId, ComplaintTypeOf(a))];
      return true;
    }

    /** Builds and runs one action. */
    method PlanAndRun(ticketId: int, m: Message, job: Job) returns (own: seq<nat>)
      modifies this
      ensures State() == Worked(old(State()), ticketId, m, [job])
      ensures Own(own, [job], ticketId, actions)
    {
      var i := BuildAction(ticketId, m, job.item);
      ghost var built := State();
      ExecuteAction(i, m.userId, m.world, job.outcome);
      ExecutedKeepsKeys(built, i, m.userId, m.world, job.outcome);
      SamePlace(built.actions, actions, ticketId, job.item);
      WorkedOne(old(State()), ticketId, m, job);
      own := [i];
    }

    /** One action for every integration that applies, in order. */
    method ExecuteMatchingIntegrations(ticketId: int, m: Message) returns (own: seq<nat>)
      modifies this
      ensures State() == Worked(old(State()), ticketId, m, IntegrationJobs(m, |m.world.integrations|))
      ensures Own(own, IntegrationJobs(m, |m.world.integrations|), ticketId, actions)
    {
      own := [];
      for n := 0 to |m.world.integrations|
        invariant State() == Worked(old(State()), ticketId, m, IntegrationJobs(m, n))
        invariant Own(own, IntegrationJobs(m, n), ticketId, actions)
      {
        ghost var before := State();
        var more := RunIntegration(ticketId, m, n);
        OwnBoth(own, IntegrationJobs(m, n), more, JobsAt(m, n), ticketId, m, before);
        WorkedTwice(old(State()), ticketId, m, IntegrationJobs(m, n), JobsAt(m, n));
        own := own + more;
      }
    }

    /** The integration in row n, if it applies. */
    method RunIntegration(ticketId: int, m: Message, n: nat) returns (own: seq<nat>)
      requires n < |m.world.integrations|
      modifies this
      ensures State() == Worked(old(State()), ticketId, m, JobsAt(m, n))
      ensures Own(own, JobsAt(m, n), ticketId, actions)
    {
      var row := m.world.integrations[n];
      own := [];
      if Applies(row, m.intent) {
        var item := ItemOf(row.target);
        if item.Some? {
          own := PlanAndRun(ticketId, m, Job(item.value, m.world.outcome(n + 1)));
        }
      }
    }

    /** The action an approved message plans, run at once. */
    method PlanActions(ticketId: int, m: Message, decision: Decision) returns (own: seq<nat>)
      requires decision == Decide(m.intent, m.fields)
      modifies this
      ensures State() == Worked(old(State()), ticketId, m, PlannedJobs(m))
      ensures Own(own, PlannedJobs(m), ticketId, actions)
    {
      own := [];
      if decision.Approved? {
        var plan := PlannedAction(m.intent, m.fields);
        if plan.Some? {
          own := PlanAndRun(ticketId, m, Job(plan.value, m.world.outcome(0)));
        }
      }
    }

    /** One message: its ticket, its decision, its actions and the ticket's new status. */
    method HandleMessage(m: Message) returns (t: nat, decision: Decision, own: seq<nat>)
      modifies this
      ensures State() == Handled(old(State()), m)
      ensures Sound(old(State())) ==> Sound(State()) && Evolves(old(State()), State())
      ensures t == ChosenTicket(old(tickets), m) && decision == Decide(m.intent, m.fields)
      ensures Own(own, JobsOf(m), t + 1, actions)
    {
      hide Worked, PlannedJobs, IntegrationJobs, Opened, Own, AllDone, Sound, Evolves, ChosenTicket, MissingFields;
      if Sound(State()) {
        HandledKeepsSound(State(), m);
      }
      t := EnsureTicket(m);
      decision := Decide(m.intent, m.fields);
      ghost var begun := State();
      var planned := PlanActions(t + 1, m, decision);
      ghost var acted := State();
      var integrated := ExecuteMatchingIntegrations(t + 1, m);
      ghost var more := IntegrationJobs(m, |m.world.integrations|);
      OwnBoth(planned, PlannedJobs(m), integrated, more, t + 1, m, acted);
      WorkedTwice(begun, t + 1, m, PlannedJobs(m), more);
      own := planned + integrated;
      var finished := CheckFinished(own, JobsOf(m), t + 1);
      var status := if decision.Approved? && finished then Resolved
                    else if decision.NeedsMoreInfo? then WaitingUser else Processing;
      tickets := tickets[t := tickets[t].(status := status)];
    }

    /** Whether every action of the message is finished, looking at the rows themselves. */
    method CheckFinished(own: seq<nat>, ghost jobs: seq<Job>, ghost ticketId: int) returns (r: bool)
      requires Own(own, jobs, ticketId, actions)
      ensures r <==> AllDone(actions, ticketId, jobs)
    {
      for n := 0 to |own|
        invariant forall k :: 0 <= k < n ==> ItemDone(actions, ticketId, jobs[k].item)
      {
        assert own[n] == Place(actions, ticketId, jobs[n].item);
        if !Done(actions[own[n]]) {
          return false;
        }
      }
      return true;
    }
  }

  /** The places of a message's own actions. */
  ghost predicate Own(own: seq<nat>, jobs: seq<Job>, ticketId: int, actions: seq<Action>) {
    && |own| == |jobs|
    && forall k :: 0 <= k < |own| ==> own[k] == Place(actions, ticketId, jobs[k].item) < |actions|
  }

  /** Rows keep the key they were made for. */
  ghost predicate KeysKept(actions: seq<Action>, actions': seq<Action>) {
    && |actions| <= |actions'|
    && forall i :: 0 <= i < |actions| ==> actions'[i].(status := actions[i].status) == actions[i]
  }

  lemma SamePlace(actions: seq<Action>, actions': seq<Action>, ticketId: int, item: Item)
    requires KeysKept(actions, actions') && Place(actions, ticketId, item) < |actions|
    ensures Place(actions', ticketId, item) == Place(actions, ticketId, item)
  {
    var i := Place(actions, ticketId, item);
    assert IsFor(actions'[i], ticketId, item.kind, item.target);
    forall j | 0 <= j < i ensures !IsFor(actions'[j], ticketId, item.kind, item.target) {
      assert !IsFor(actions[j], ticketId, item.kind, item.target);
    }
  }

  lemma ExecutedKeepsKeys(d: Desk, i: nat, userId: int, w: World, outcome: Outcome)
    requires i < |d.actions|
    ensures KeysKept(d.actions, Executed(d, i, userId, w, outcome).actions)
  {
  }

  lemma {:induction false} WorkedKeepsKeys(d: Desk, ticketId: int, m: Message, jobs: seq<Job>)
    ensures KeysKept(d.actions, Worked(d, ticketId, m, jobs).actions)
  {
    if |jobs| > 0 {
      var before, job := Worked(d, ticketId, m, jobs[..|jobs| - 1]), jobs[|jobs| - 1];
      WorkedKeepsKeys(d, ticketId, m, jobs[..|jobs| - 1]);
      var built := Built(before, ticketId, m, job.item);
      ExecutedKeepsKeys(built, Place(built.actions, ticketId, job.item), m.userId, m.world, job.outcome);
    }
  }

  lemma WorkedOne(d: Desk, ticketId: int, m: Message, job: Job)
    ensures Worked(d, ticketId, m, [job]) == Acted(d, ticketId, m, job)
  {
    assert [job][..0] == [];
  }

  lemma OwnStays(own: seq<nat>, jobs: seq<Job>, ticketId: int, actions: seq<Action>, actions': seq<Action>)
    requires Own(own, jobs, ticketId, actions) && KeysKept(actions, actions')
    ensures Own(own, jobs, ticketId, actions')
  {
    forall k | 0 <= k < |own| ensures own[k] == Place(actions', ticketId, jobs[k].item) < |actions'| {
      assert own[k] == Place(actions, ticketId, jobs[k].item);
      SamePlace(actions, actions', ticketId, jobs[k].item);
    }
  }

  lemma OwnJoin(own: seq<nat>, jobs: seq<Job>, own': seq<nat>, more: seq<Job>, ticketId: int, actions: seq<Action>)
    requires Own(own, jobs, ticketId, actions) && Own(own', more, ticketId, actions)
    ensures Own(own + own', jobs + more, ticketId, actions)
  {
  }

  /** Further jobs leave the places of the earlier actions alone. */
  lemma OwnBoth(own: seq<nat>, jobs: seq<Job>, own': seq<nat>, more: seq<Job>, ticketId: int, m: Message, d: Desk)
    requires Own(own, jobs, ticketId, d.actions)
    requires Own(own', more, ticketId, Worked(d, ticketId, m, more).actions)
    ensures Own(own + own', jobs + more, ticketId, Worked(d, ticketId, m, more).actions)
  {
    hide Own, KeysKept, Acted;
    WorkedKeepsKeys(d, ticketId, m, more);
    OwnStays(own, jobs, ticketId, d.actions, Worked(d, ticketId, m, more).actions);
    OwnJoin(own, jobs, own', more, ticketId, Worked(d, ticketId, m, more).actions);
  }

  /** Working through two lists of jobs one after the other. */
  lemma {:induction false} WorkedTwice(d: Desk, ticketId: int, m: Message, jobs: seq<Job>, more: seq<Job>)
    ensures Worked(Worked(d, ticketId, m, jobs), ticketId, m, more) == Worked(d, ticketId, m, jobs + more)
  {
    if |more| == 0 {
      assert jobs + more == jobs;
    } else {
      var front := more[..|more| - 1];
      WorkedTwice(d, ticketId, m, jobs, front);
      assert (jobs + more)[..|jobs + more| - 1] == jobs + front;
    }
  }

  // ----- what one message keeps -----

  lemma NewActionKeepsSound(d: Desk, a: Action)
    requires Sound(d) && a.status.Waiting?
    requires forall j :: 0 <= j < |d.actions| ==> !IsFor(d.actions[j], a.ticketId, a.kind, a.target)
    ensures Sound(d.(actions := d.actions + [a])) && Evolves(d, d.(actions := d.actions + [a]))
  {
    var more := d.actions + [a];
    assert more[..|d.actions|] == d.actions;
    forall orderNo ensures RefundDone(more, orderNo) <==> RefundDone(d.actions, orderNo) {
      if RefundDone(d.actions, orderNo) {
        var k :| 0 <= k < |d.actions| && CompletesRefund(d.actions[k], orderNo);
        assert CompletesRefund(more[k], orderNo);
      }
    }
  }

  lemma ActedKeepsSound(d: Desk, ticketId: int, m: Message, job: Job)
    requires Sound(d)
    ensures Sound(Acted(d, ticketId, m, job)) && Evolves(d, Acted(d, ticketId, m, job))
  {
    var i, built := Place(d.actions, ticketId, job.item), Built(d, ticketId, m, job.item);
    assert Sound(built) && Evolves(d, built) by {
      if i == |d.actions| {
        NewActionKeepsSound(d, NewAction(ticketId, m, job.item));
      }
    }
    ExecutedKeepsSound(built, i, m.userId, m.world, job.outcome);
    EvolvesTransitive(d, built, Acted(d, ticketId, m, job));
  }

  lemma {:induction false} WorkedKeepsSound(d: Desk, ticketId: int, m: Message, jobs: seq<Job>)
    requires Sound(d)
    ensures Sound(Worked(d, ticketId, m, jobs)) && Evolves(d, Worked(d, ticketId, m, jobs))
  {
    if |jobs| > 0 {
      var before := Worked(d, ticketId, m, jobs[..|jobs| - 1]);
      WorkedKeepsSound(d, ticketId, m, jobs[..|jobs| - 1]);
      ActedKeepsSound(before, ticketId, m, jobs[|jobs| - 1]);
      EvolvesTransitive(d, before, Worked(d, ticketId, m, jobs));
    }
  }

  lemma OpenedKeepsSound(d: Desk, m: Message)
    requires Sound(d)
    ensures Sound(Opened(d, m)) && Evolves(d, Opened(d, m))
    ensures Active(Opened(d, m).tickets[ChosenTicket(d.tickets, m)])
  {
  }

  /** An active ticket may take any status. */
  lemma StampedKeepsSound(d: Desk, t: nat, status: TicketStatus)
    requires Sound(d) && t < |d.tickets| && Active(d.tickets[t])
    ensures Sound(Stamped(d, t, status)) && Evolves(d, Stamped(d, t, status))
  {
  }

  /** One message keeps the desk sound, and leaves finished actions and resolved tickets alone. */
  lemma HandledKeepsSound(d: Desk, m: Message)
    requires Sound(d)
    ensures Sound(Handled(d, m)) && Evolves(d, Handled(d, m))
  {
    hide Sound, Evolves, Opened, Worked, Stamped, JobsOf, StatusAfter;
    var t, begun := ChosenTicket(d.tickets, m), Opened(d, m);
    OpenedKeepsSound(d, m);
    WorkedKeepsSound(begun, t + 1, m, JobsOf(m));
    var worked := Worked(begun, t + 1, m, JobsOf(m));
    StampedKeepsSound(worked, t, StatusAfter(m, t + 1, worked.actions));
    EvolvesTransitive(d, begun, worked);
    EvolvesTransitive(d, worked, Handled(d, m));
  }

  /** A message's ticket is the newest active one of its session if that one has its intent, and a new one otherwise;
      no other ticket changes, and the new status follows the decision and the message's own actions. */
  lemma HandledTickets(d: Desk, m: Message, t: nat)
    requires t < |Handled(d, m).tickets|
    ensures |Handled(d, m).tickets| == Max(|d.tickets|, ChosenTicket(d.tickets, m) + 1)
    ensures t != ChosenTicket(d.tickets, m) ==> t < |d.tickets| && Handled(d, m).tickets[t] == d.tickets[t]
    ensures t == ChosenTicket(d.tickets, m) ==>
              var row := Handled(d, m).tickets[t];
              && row.sessionId == m.sessionId && row.intent == m.intent
              && row.status == StatusAfter(m, t + 1, Handled(d, m).actions)
    ensures t == ChosenTicket(d.tickets, m) < |d.tickets| ==>
              ActiveIn(d.tickets[t], m.sessionId) &&
              forall j :: t < j < |d.tickets| ==> !ActiveIn(d.tickets[j], m.sessionId)
    ensures ChosenTicket(d.tickets, m) == |d.tickets| ==>
              forall j :: 0 <= j < |d.tickets| && ActiveIn(d.tickets[j], m.sessionId) &&
                          (forall k :: j < k < |d.tickets| ==> !ActiveIn(d.tickets[k], m.sessionId)) ==>
                            d.tickets[j].intent != m.intent
  {
    hide Acted, JobsOf, AllDone;
  }

  // ----- whole runs -----

  const EMPTY := Desk([], [], [], [])

  /** The desk after a sequence of messages. */
  function Run(messages: seq<Message>): Desk {
    if |messages| == 0 then EMPTY else Handled(Run(messages[..|messages| - 1]), messages[|messages| - 1])
  }

  /** After any messages: one action per key, one refund request per order, requests exactly for the orders of completed
      refund actions, and as many complaints as completed complaint actions. */
  lemma {:induction false} RunIsSound(messages: seq<Message>)
    ensures Sound(Run(messages))
  {
    if |messages| == 0 {
      assert Sound(EMPTY);
    } else {
      RunIsSound(messages[..|messages| - 1]);
      HandledKeepsSound(Run(messages[..|messages| - 1]), messages[|messages| - 1]);
    }
  }

  /** Later messages leave finished actions and resolved tickets exactly as they are. */
  lemma {:induction false} FinishedStaysFinished(messages: seq<Message>, n: nat)
    requires n <= |messages|
    ensures Evolves(Run(messages[..n]), Run(messages))
  {
    hide Sound, Handled;
    if n == |messages| {
      assert messages[..n] == messages;
    } else {
      var front := messages[..|messages| - 1];
      FinishedStaysFinished(front, n);
      assert front[..n] == messages[..n];
      RunIsSound(front);
      HandledKeepsSound(Run(front), messages[|messages| - 1]);
      EvolvesTransitive(Run(messages[..n]), Run(front), Run(messages));
    }
  }

  /** Message k works on ticket t, is approved, and finds all its own actions finished. */
  ghost predicate Resolves(messages: seq<Message>, k: nat, t: nat) {
    && k < |messages|
    && var m := messages[k];
       && ChosenTicket(Run(messages[..k]).tickets, m) == t
       && Decide(m.intent, m.fields).Approved?
       && AllDone(Run(messages[..k + 1]).actions, t + 1, JobsOf(m))
  }

  /** An approved message that finds its own actions finished resolves its ticket. */
  lemma MessageResolves(d: Desk, m: Message)
    requires Decide(m.intent, m.fields).Approved?
    requires AllDone(Handled(d, m).actions, ChosenTicket(d.tickets, m) + 1, JobsOf(m))
    ensures ChosenTicket(d.tickets, m) < |Handled(d, m).tickets|
    ensures Handled(d, m).tickets[ChosenTicket(d.tickets, m)].status.Resolved?
  {
    hide Worked, JobsOf, AllDone, LastActive;
  }

  lemma ItemDoneStays(d: Desk, d': Desk, ticketId: int, item: Item)
    requires Evolves(d, d') && ItemDone(d.actions, ticketId, item)
    ensures ItemDone(d'.actions, ticketId, item)
  {
    SamePlace(d.actions, d'.actions, ticketId, item);
  }

  lemma ResolvedStays(d: Desk, d': Desk, t: nat, jobs: seq<Job>)
    requires Evolves(d, d') && t < |d.tickets| && d.tickets[t].status.Resolved? && AllDone(d.actions, t + 1, jobs)
    ensures t < |d'.tickets| && d'.tickets[t] == d.tickets[t] && AllDone(d'.actions, t + 1, jobs)
  {
    forall j | 0 <= j < |jobs| ensures ItemDone(d'.actions, t + 1, jobs[j].item) {
      ItemDoneStays(d, d', t + 1, jobs[j].item);
    }
  }

  lemma RunSnoc(messages: seq<Message>, n: nat)
    requires n < |messages|
    ensures Run(messages[..n + 1]) == Handled(Run(messages[..n]), messages[n])
  {
    hide Handled;
    assert messages[..n + 1][..n] == messages[..n];
  }

  /** What message k resolved is resolved for good, and the actions it rests on stay finished. */
  lemma ResolvedForGood(messages: seq<Message>, k: nat, t: nat)
    requires Resolves(messages, k, t)
    ensures t < |Run(messages[..k + 1]).tickets| && t < |Run(messages).tickets|
    ensures Run(messages).tickets[t] == Run(messages[..k + 1]).tickets[t]
    ensures Run(messages).tickets[t].status.Resolved?
    ensures AllDone(Run(messages).actions, t + 1, JobsOf(messages[k]))
  {
    hide Handled, JobsOf, AllDone, Evolves, ChosenTicket, Decide;
    RunSnoc(messages, k);
    MessageResolves(Run(messages[..k]), messages[k]);
    FinishedStaysFinished(messages, k + 1);
    ResolvedStays(Run(messages[..k + 1]), Run(messages), t, JobsOf(messages[k]));
  }

  /** A ticket is resolved exactly if some approved message resolved it, all of whose own actions had finished. */
  lemma {:induction false} ResolvedIff(messages: seq<Message>, t: nat)
    requires t < |Run(messages).tickets|
    ensures Run(messages).tickets[t].status.Resolved? <==> exists k: nat :: Resolves(messages, k, t)
  {
    hide Handled, JobsOf, AllDone, LastActive, Decide;
    if k: nat :| Resolves(messages, k, t) {
      ResolvedForGood(messages, k, t);
    } else if Run(messages).tickets[t].status.Resolved? && |messages| > 0 {
      var n := |messages| - 1;
      var front, m := messages[..n], messages[n];
      HandledTickets(Run(front), m, t);
      if t == ChosenTicket(Run(front).tickets, m) {
        assert messages[..n + 1] == messages;
        assert Resolves(messages, n, t);
      } else {
        ResolvedIff(front, t);
        var k: nat :| Resolves(front, k, t);
        assert front[..k] == messages[..k] && front[..k + 1] == messages[..k + 1];
        assert Resolves(messages, k, t);
      }
    }
  }

  /** The order was the user's and paid when message m was handled. */
  predicate Owed(m: Message, r: RefundRequest) {
    && r.orderNo in m.world.orders && r.userId == m.userId
    && m.world.orders[r.orderNo] == Order(r.userId, true, r.amount)
  }

  lemma {:induction false} WorkedRefunds(d: Desk, ticketId: int, m: Message, jobs: seq<Job>, r: RefundRequest)
    requires r in Worked(d, ticketId, m, jobs).refunds
    ensures r in d.refunds || Owed(m, r)
  {
    hide Place, OrderOf, Complained, Reviewable;
    if |jobs| > 0 {
      var before := Worked(d, ticketId, m, jobs[..|jobs| - 1]);
      if r in before.refunds {
        WorkedRefunds(d, ticketId, m, jobs[..|jobs| - 1], r);
      }
    }
  }

  /** Every refund request of a run was owed to its user when some message of the run was handled. */
  lemma {:induction false} RefundsWereOwed(messages: seq<Message>, r: RefundRequest)
    requires r in Run(messages).refunds
    ensures exists k :: 0 <= k < |messages| && Owed(messages[k], r)
  {
    hide Worked, JobsOf, StatusAfter, LastActive;
    if |messages| > 0 {
      var front, m := messages[..|messages| - 1], messages[|messages| - 1];
      var d := Run(front);
      WorkedRefunds(Opened(d, m), ChosenTicket(d.tickets, m) + 1, m, JobsOf(m), r);
      if r in d.refunds {
        RefundsWereOwed(front, r);
        var k :| 0 <= k < |front| && Owed(front[k], r);
        assert Owed(messages[k], r);
      }
    }
  }
}
