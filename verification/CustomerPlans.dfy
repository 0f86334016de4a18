/** What a message to the customer-service desk asks for, and that the desk does exactly that. */
module CustomerPlans {
  import opened Basics
  import opened Text
  import Decimal
  import opened CustomerService

  // ----- what a message asks for -----

  /** Nothing that the intent needs is missing. */
  ghost predicate Complete(intent: Intent, f: Fields) {
    && (intent.Refund? ==> f.orderNo != "" && f.reason != "")
    && (intent.CatalogComplaint? ==> f.catalogId != "" && f.complaintType != "" && f.reason != "")
    && (intent.CatalogReview? ==> f.catalogId != "")
    && (intent.LlmExtension? ==> f.provider != "" && f.model != "" && f.reason != "")
  }

  /** The field is one the intent needs and the message leaves out. */
  ghost predicate IsMissing(name: string, intent: Intent, f: Fields) {
    || (name == "order_no" && intent.Refund? && f.orderNo == "")
    || (name == "catalog_id" && (intent.CatalogComplaint? || intent.CatalogReview?) && f.catalogId == "")
    || (name == "complaint_type" && intent.CatalogComplaint? && f.complaintType == "")
    || (name == "provider" && intent.LlmExtension? && f.provider == "")
    || (name == "model" && intent.LlmExtension? && f.model == "")
    || (name == "reason" && (intent.Refund? || intent.CatalogComplaint? || intent.LlmExtension?) && f.reason == "")
  }

  /** A message is approved exactly if it is complete; otherwise the fields it leaves out are named. */
  lemma DecisionMeans(intent: Intent, f: Fields)
    ensures Decide(intent, f).Approved? <==> Complete(intent, f)
    ensures forall name :: name in MissingFields(intent, f) <==> IsMissing(name, intent, f)
  {
  }

  /** The action a complete message asks for by its intent. */
  ghost predicate Asks(m: Message, item: Item) {
    && Complete(m.intent, m.fields)
    && match item.kind
       case RefundApply => m.intent.Refund? && item.target == m.fields.orderNo
       case ComplaintCreate => m.intent.CatalogComplaint? && item.target == m.fields.catalogId
       case ComplianceReview => m.intent.CatalogReview? && item.target == m.fields.catalogId
       case ModelPropose =>
         && m.intent.LlmExtension? && item.target <= m.fields.provider + ":" + m.fields.model
         && |item.target| == Min(240, |m.fields.provider| + 1 + |m.fields.model|)
       case _ => false
  }

  /** An integration for every scenario, or for the message's. */
  ghost predicate Concerns(scenario: string, intent: Intent) {
    || scenario == "general"
    || (intent.Refund? && scenario == "refund")
    || (intent.CatalogComplaint? && scenario == "catalog_complaint")
    || (intent.CatalogReview? && scenario == "catalog_review")
    || (intent.LlmExtension? && scenario == "llm_extension")
    || (intent.AccountSupport? && scenario == "account_support")
  }

  /** The action an enabled integration asks for, complete messages or not. */
  ghost predicate RowAsks(m: Message, row: Integration, item: Item) {
    && row.enabled && row.autoInvoke && Concerns(row.scenario, m.intent)
    && match row.target
       case Workflow(id) => item.kind.WorkflowExecute? && id != 0 && item.target == Decimal.PrintInt(id)
       case Openapi(connectorId, operation) =>
         && item.kind.OpenapiOperation? && connectorId != 0 && Strip(operation) != ""
         && item.target == Decimal.PrintInt(connectorId) + ":" + Strip(operation)
       case Unsupported => false
  }

  /** Call 0 is the intent's, call n + 1 that of the integration in row n. */
  ghost predicate CallAsks(m: Message, n: nat, item: Item) {
    if n == 0 then Asks(m, item)
    else n - 1 < |m.world.integrations| && RowAsks(m, m.world.integrations[n - 1], item)
  }

  ghost predicate Wanted(m: Message, item: Item) {
    exists n: nat :: CallAsks(m, n, item)
  }

  lemma PlannedMeans(m: Message, j: Job)
    ensures j in PlannedJobs(m) <==> Asks(m, j.item) && j.outcome == m.world.outcome(0)
  {
    DecisionMeans(m.intent, m.fields);
    hide MissingFields;
    var whole := m.fields.provider + ":" + m.fields.model;
    if m.intent.LlmExtension? && Asks(m, j.item) {
      assert j.item.target == whole[..|j.item.target|];
      assert whole[..|whole|] == whole;
    }
  }

  lemma RowMeans(m: Message, n: nat, j: Job)
    requires n < |m.world.integrations|
    ensures j in JobsAt(m, n) <==> CallAsks(m, n + 1, j.item) && j.outcome == m.world.outcome(n + 1)
  {
    hide Strip, Decimal.PrintInt;
    var row := m.world.integrations[n];
    assert Concerns(row.scenario, m.intent) <==> row.scenario == Scenario(m.intent) || row.scenario == "general";
    match row.target {
      case Openapi(connectorId, operation) =>
        assert Decimal.PrintInt(connectorId) + (":" + Strip(operation)) ==
               Decimal.PrintInt(connectorId) + ":" + Strip(operation);
      case _ =>
    }
  }

  lemma {:induction false} RowsMean(m: Message, k: nat, j: Job)
    requires k <= |m.world.integrations|
    ensures j in IntegrationJobs(m, k) <==>
            exists n: nat :: 0 < n <= k && CallAsks(m, n, j.item) && j.outcome == m.world.outcome(n)
  {
    hide CallAsks, JobsAt;
    if k > 0 {
      RowsMean(m, k - 1, j);
      RowMeans(m, k - 1, j);
    }
  }

  /** The jobs of a message are the calls it asks for. */
  lemma JobsMean(m: Message, j: Job)
    ensures j in JobsOf(m) <==> exists n: nat :: CallAsks(m, n, j.item) && j.outcome == m.world.outcome(n)
  {
    hide Asks, RowAsks, PlannedJobs, IntegrationJobs;
    PlannedMeans(m, j);
    RowsMean(m, |m.world.integrations|, j);
    if j in PlannedJobs(m) {
      assert CallAsks(m, 0, j.item);
    }
  }

  // ----- how one run of an action comes out -----

  /** Rows of the desk: a refund is asked for the order its row is about, a complaint or review for its item. */
  ghost predicate Straight(a: Action) {
    && (a.kind.RefundApply? ==> a.request.orderNo == a.target != "")
    && (a.kind.ComplaintCreate? || a.kind.ComplianceReview? ==> a.request.catalogId == a.target != "")
    && (a.kind.ComplaintCreate? ==> a.request.complaintType != "")
    && !a.status.Skipped?
  }

  ghost predicate AllStraight(d: Desk) {
    forall i :: 0 <= i < |d.actions| ==> Straight(d.actions[i])
  }

  /** The order is the user's and paid. */
  ghost predicate Refundable(m: Message, orderNo: string) {
    orderNo != "" && orderNo in m.world.orders &&
    m.world.orders[orderNo].userId == m.userId && m.world.orders[orderNo].paid
  }

  /** The text is the number of an item in the catalogue. */
  ghost predicate InCatalog(m: Message, text: string) {
    var id := m.world.readInt(text);
    id.Some? && id.value > 0 && id.value in m.world.catalog
  }

  /** A run of the action under this message succeeds. */
  ghost predicate Succeeds(m: Message, item: Item, outcome: Outcome) {
    match item.kind
    case RefundApply => Refundable(m, Strip(item.target))
    case ComplaintCreate => InCatalog(m, item.target)
    case ComplianceReview => InCatalog(m, item.target)
    case _ => outcome.Good?
  }

  lemma ExecutedRow(d: Desk, i: nat, m: Message, outcome: Outcome)
    requires i < |d.actions| && Straight(d.actions[i])
    ensures var a, d' := d.actions[i], Executed(d, i, m.userId, m.world, outcome);
            d'.actions == if a.status.Completed? then d.actions
                          else d.actions[i := a.(status := if Succeeds(m, Item(a.kind, a.target), outcome)
                                                           then Completed else Failed)]
  {
    hide Strip, Requested;
  }

  /** The rows behind one job: its own one has been run, all others are as they were. */
  lemma ActedRows(d: Desk, t: int, m: Message, job: Job)
    requires AllStraight(d)
    requires job.item.kind.RefundApply? ==> m.fields.orderNo == job.item.target != ""
    requires job.item.kind.ComplaintCreate? || job.item.kind.ComplianceReview? ==>
               m.fields.catalogId == job.item.target != ""
    requires job.item.kind.ComplaintCreate? ==> m.fields.complaintType != ""
    ensures var i, d' := Place(d.actions, t, job.item), Acted(d, t, m, job);
            var a := if i < |d.actions| then d.actions[i] else NewAction(t, m, job.item);
            && |d'.actions| == Max(|d.actions|, i + 1)
            && (forall k :: 0 <= k < |d'.actions| && k != i ==> d'.actions[k] == d.actions[k])
            && d'.actions[i] == (if a.status.Completed? then a
                                 else a.(status := if Succeeds(m, job.item, job.outcome) then Completed else Failed))
            && AllStraight(d')
  {
    hide Executed, Succeeds;
    var i := Place(d.actions, t, job.item);
    var built := Built(d, t, m, job.item);
    ExecutedRow(built, i, m, job.outcome);
  }

  // ----- all jobs of a message -----

  ghost predicate Fits(m: Message, item: Item) {
    && (item.kind.RefundApply? ==> m.fields.orderNo == item.target != "")
    && (item.kind.ComplaintCreate? || item.kind.ComplianceReview? ==> m.fields.catalogId == item.target != "")
    && (item.kind.ComplaintCreate? ==> m.fields.complaintType != "")
  }

  ghost predicate IsJob(jobs: seq<Job>, item: Item) {
    exists j :: j in jobs && j.item == item
  }

  ghost predicate IsGoodJob(m: Message, jobs: seq<Job>, item: Item) {
    exists j :: j in jobs && j.item == item && Succeeds(m, item, j.outcome)
  }

  function ItemOfRow(a: Action): Item {
    Item(a.kind, a.target)
  }

  /** Row i before the jobs: the one that was there, or the one the message makes. */
  function RowBefore(d: Desk, t: int, m: Message, i: nat, item: Item): Action {
    if i < |d.actions| then d.actions[i] else Action(t, m.userId, item.kind, item.target, m.fields, Waiting)
  }

  /** What the jobs do to a row: one of the ticket's own that they run is completed if it was or if a run succeeds, and
      failed otherwise; every other row is as it was. */
  ghost predicate RowRun(d: Desk, t: int, m: Message, jobs: seq<Job>, i: nat, a: Action) {
    var item := ItemOfRow(a);
    var was := RowBefore(d, t, m, i, item);
    && a.(status := was.status) == was
    && if a.ticketId == t && IsJob(jobs, item) then
         if was.status.Completed? || IsGoodJob(m, jobs, item) then a.status.Completed? else a.status.Failed?
       else i < |d.actions| && a == was
  }

  ghost predicate RowsRun(d: Desk, t: int, m: Message, jobs: seq<Job>, d': Desk) {
    && |d.actions| <= |d'.actions| && AllStraight(d')
    && (forall i: nat :: i < |d'.actions| ==> RowRun(d, t, m, jobs, i, d'.actions[i]))
    && (forall item :: IsJob(jobs, item) ==>
          exists i :: 0 <= i < |d'.actions| && IsFor(d'.actions[i], t, item.kind, item.target))
  }

  lemma IsJobSnoc(m: Message, jobs: seq<Job>, j: Job, item: Item)
    ensures IsJob(jobs + [j], item) <==> IsJob(jobs, item) || item == j.item
    ensures IsGoodJob(m, jobs + [j], item) <==>
            IsGoodJob(m, jobs, item) || (item == j.item && Succeeds(m, item, j.outcome))
  {
    hide Succeeds;
    var all := jobs + [j];
    assert j in all;
    assert forall x :: x in jobs ==> x in all;
  }

  lemma {:induction false} WorkedRows(d: Desk, t: int, m: Message, jobs: seq<Job>)
    requires Sound(d) && AllStraight(d) && forall j :: j in jobs ==> Fits(m, j.item)
    ensures RowsRun(d, t, m, jobs, Worked(d, t, m, jobs))
  {
    hide Sound, Succeeds, Acted, Fits, Straight;
    if |jobs| > 0 {
      var front, j := jobs[..|jobs| - 1], jobs[|jobs| - 1];
      assert jobs == front + [j];
      WorkedRows(d, t, m, front);
      WorkedKeepsSound(d, t, m, front);
      StepRows(d, t, m, front, j, Worked(d, t, m, front));
    }
  }

  lemma StepRows(d: Desk, t: int, m: Message, jobs: seq<Job>, j: Job, before: Desk)
    requires RowsRun(d, t, m, jobs, before) && Sound(before) && Fits(m, j.item)
    ensures RowsRun(d, t, m, jobs + [j], Acted(before, t, m, j))
  {
    hide Sound, Succeeds, Acted, RowRun, Straight, IsJob, IsGoodJob;
    ActedRows(before, t, m, j);
    var after := Acted(before, t, m, j);
    var i0 := Place(before.actions, t, j.item);
    assert OneActionPerKey(before.actions) by { KeysOfSound(before); }
    forall i: nat | i < |after.actions| ensures RowRun(d, t, m, jobs + [j], i, after.actions[i]) {
      if i == i0 {
        OwnRow(d, t, m, jobs, j, before, i, after.actions[i]);
      } else {
        assert !IsFor(before.actions[i], t, j.item.kind, j.item.target);
        OtherRow(d, t, m, jobs, j, i, after.actions[i]);
      }
    }
    forall item | IsJob(jobs + [j], item)
      ensures exists i :: 0 <= i < |after.actions| && IsFor(after.actions[i], t, item.kind, item.target)
    {
      IsJobSnoc(m, jobs, j, item);
      if item == j.item {
        assert IsFor(after.actions[i0], t, item.kind, item.target);
      } else {
        var i :| 0 <= i < |before.actions| && IsFor(before.actions[i], t, item.kind, item.target);
        assert IsFor(after.actions[i], t, item.kind, item.target);
      }
    }
  }

  lemma KeysOfSound(d: Desk)
    requires Sound(d)
    ensures OneActionPerKey(d.actions)
  {
  }

  lemma OtherRow(d: Desk, t: int, m: Message, jobs: seq<Job>, j: Job, i: nat, a: Action)
    requires RowRun(d, t, m, jobs, i, a) && !IsFor(a, t, j.item.kind, j.item.target)
    ensures RowRun(d, t, m, jobs + [j], i, a)
  {
    IsJobSnoc(m, jobs, j, ItemOfRow(a));
  }

  lemma OwnRow(d: Desk, t: int, m: Message, jobs: seq<Job>, j: Job, before: Desk, i: nat, a: Action)
    requires |d.actions| <= |before.actions|
    requires i < |before.actions| ==> RowRun(d, t, m, jobs, i, before.actions[i])
    requires i == |before.actions| ==>
               forall item :: IsJob(jobs, item) && item == j.item ==>
                 exists k :: 0 <= k < |before.actions| && IsFor(before.actions[k], t, item.kind, item.target)
    requires i == Place(before.actions, t, j.item)
    requires var b := if i < |before.actions| then before.actions[i] else NewAction(t, m, j.item);
             a == if b.status.Completed? then b
                  else b.(status := if Succeeds(m, j.item, j.outcome) then Completed else Failed)
    ensures RowRun(d, t, m, jobs + [j], i, a)
  {
    hide Succeeds, IsJob, IsGoodJob;
    IsJobSnoc(m, jobs, j, j.item);
    if i == |before.actions| {
      assert !IsJob(jobs, j.item);
      assert !IsGoodJob(m, jobs, j.item) by { GoodIsJob(m, jobs, j.item); }
    } else {
      GoodIsJob(m, jobs, j.item);
    }
  }

  lemma GoodIsJob(m: Message, jobs: seq<Job>, item: Item)
    ensures IsGoodJob(m, jobs, item) ==> IsJob(jobs, item)
  {
  }

  // ----- one message -----

  /** Some call of the message for the action succeeds. */
  ghost predicate SomeCallSucceeds(m: Message, item: Item) {
    exists n: nat :: CallAsks(m, n, item) && Succeeds(m, item, m.world.outcome(n))
  }

  /** Row i behind a message on ticket t. The ticket's rows that the message wants have been run: they are completed
      if they were or if a call succeeds, and failed otherwise. New rows are wanted ones, and other rows are as they
      were. */
  ghost predicate RowHandled(d: Desk, t: int, m: Message, i: nat, a: Action) {
    var item := ItemOfRow(a);
    var was := RowBefore(d, t, m, i, item);
    && a.(status := was.status) == was
    && if a.ticketId == t && Wanted(m, item) then
         if was.status.Completed? || SomeCallSucceeds(m, item) then a.status.Completed? else a.status.Failed?
       else i < |d.actions| && a == was
  }

  /** The actions behind a message: exactly the wanted ones have been built and run. */
  ghost predicate ActionsHandled(d: Desk, t: int, m: Message, d': Desk) {
    && |d.actions| <= |d'.actions|
    && (forall i: nat :: i < |d'.actions| ==> RowHandled(d, t, m, i, d'.actions[i]))
    && (forall item :: Wanted(m, item) ==>
          exists i :: 0 <= i < |d'.actions| && IsFor(d'.actions[i], t, item.kind, item.target))
  }

  lemma JobsWanted(m: Message, item: Item)
    ensures IsJob(JobsOf(m), item) <==> Wanted(m, item)
    ensures IsGoodJob(m, JobsOf(m), item) <==> SomeCallSucceeds(m, item)
    ensures Wanted(m, item) ==> Fits(m, item)
  {
    hide CallAsks, JobsOf, Succeeds, Fits;
    if n: nat :| CallAsks(m, n, item) {
      JobsMean(m, Job(item, m.world.outcome(n)));
      CallFits(m, n, item);
    }
    if n: nat :| CallAsks(m, n, item) && Succeeds(m, item, m.world.outcome(n)) {
      JobsMean(m, Job(item, m.world.outcome(n)));
      assert Job(item, m.world.outcome(n)) in JobsOf(m);
    }
    forall j | j in JobsOf(m) && j.item == item
      ensures exists n: nat :: CallAsks(m, n, item) && j.outcome == m.world.outcome(n)
    {
      JobsMean(m, j);
    }
  }

  lemma CallFits(m: Message, n: nat, item: Item)
    requires CallAsks(m, n, item)
    ensures Fits(m, item)
  {
    if n > 0 {
      var row := m.world.integrations[n - 1];
      assert RowAsks(m, row, item);
    }
  }

  lemma RowsHandled(d: Desk, t: int, m: Message)
    requires Sound(d) && AllStraight(d)
    ensures ActionsHandled(d, t, m, Worked(d, t, m, JobsOf(m))) && AllStraight(Worked(d, t, m, JobsOf(m)))
  {
    hide Sound, JobsOf, Worked, IsJob, IsGoodJob, Wanted, SomeCallSucceeds, Fits, Straight, Succeeds;
    var d' := Worked(d, t, m, JobsOf(m));
    forall j | j in JobsOf(m) ensures Fits(m, j.item) {
      assert IsJob(JobsOf(m), j.item) by { ItsJob(JobsOf(m), j); }
      JobsWanted(m, j.item);
    }
    WorkedRows(d, t, m, JobsOf(m));
    forall i: nat | i < |d'.actions| ensures RowHandled(d, t, m, i, d'.actions[i]) {
      JobsWanted(m, ItemOfRow(d'.actions[i]));
      assert RowRun(d, t, m, JobsOf(m), i, d'.actions[i]);
    }
    forall item | Wanted(m, item)
      ensures exists i :: 0 <= i < |d'.actions| && IsFor(d'.actions[i], t, item.kind, item.target)
    {
      JobsWanted(m, item);
    }
  }

  lemma ItsJob(jobs: seq<Job>, j: Job)
    requires j in jobs
    ensures IsJob(jobs, j.item)
  {
  }

  /** Every action of the ticket that the message wants is completed. */
  ghost predicate WantedCompleted(m: Message, t: int, actions: seq<Action>) {
    forall i :: 0 <= i < |actions| && actions[i].ticketId == t && Wanted(m, ItemOfRow(actions[i])) ==>
                  actions[i].status.Completed?
  }

  lemma AllDoneMeans(d: Desk, t: int, m: Message)
    requires OneActionPerKey(d.actions) && AllStraight(d)
    requires forall item :: Wanted(m, item) ==>
               exists i :: 0 <= i < |d.actions| && IsFor(d.actions[i], t, item.kind, item.target)
    ensures AllDone(d.actions, t, JobsOf(m)) <==> WantedCompleted(m, t, d.actions)
  {
    hide JobsOf, Wanted, IsJob;
    if AllDone(d.actions, t, JobsOf(m)) {
      forall i | 0 <= i < |d.actions| && d.actions[i].ticketId == t && Wanted(m, ItemOfRow(d.actions[i]))
        ensures d.actions[i].status.Completed?
      {
        var item := ItemOfRow(d.actions[i]);
        JobsWanted(m, item);
        var k := JobWith(JobsOf(m), item);
        assert ItemDone(d.actions, t, JobsOf(m)[k].item);
        assert Place(d.actions, t, item) == i;
        assert Straight(d.actions[i]);
      }
    }
    if WantedCompleted(m, t, d.actions) {
      forall k | 0 <= k < |JobsOf(m)| ensures ItemDone(d.actions, t, JobsOf(m)[k].item) {
        var item := JobsOf(m)[k].item;
        ItsJob(JobsOf(m), JobsOf(m)[k]);
        JobsWanted(m, item);
        var i :| 0 <= i < |d.actions| && IsFor(d.actions[i], t, item.kind, item.target);
        assert ItemOfRow(d.actions[Place(d.actions, t, item)]) == item;
      }
    }
  }

  lemma JobWith(jobs: seq<Job>, item: Item) returns (k: nat)
    requires IsJob(jobs, item)
    ensures k < |jobs| && jobs[k].item == item
  {
    var j :| j in jobs && j.item == item;
    k :| 0 <= k < |jobs| && jobs[k] == j;
  }

  /** The whole effect of a message on actions and ticket: what is wanted has been built and run, nothing else has been
      touched, and the ticket waits for its user if the message is incomplete, is resolved if everything wanted is
      completed, and is in processing otherwise. */
  lemma MessageMeans(d: Desk, m: Message)
    requires Sound(d) && AllStraight(d)
    ensures var t, d' := ChosenTicket(d.tickets, m), Handled(d, m);
            && ActionsHandled(d, t + 1, m, d') && AllStraight(d') && t < |d'.tickets|
            && d'.tickets[t].status ==
               if !Complete(m.intent, m.fields) then WaitingUser
               else if WantedCompleted(m, t + 1, d'.actions) then Resolved else Processing
  {
    hide Sound, JobsOf, Worked, Wanted, RowHandled, Straight, Complete, Decide, WantedCompleted, AllDone;
    var t, begun := ChosenTicket(d.tickets, m), Opened(d, m);
    OpenedKeepsSound(d, m);
    RowsHandled(begun, t + 1, m);
    HandledKeepsSound(d, m);
    KeysOfSound(Handled(d, m));
    DecisionMeans(m.intent, m.fields);
    var worked := Worked(begun, t + 1, m, JobsOf(m));
    assert Handled(d, m).actions == worked.actions;
    forall i: nat | i < |worked.actions| ensures RowHandled(d, t + 1, m, i, worked.actions[i]) {
      SameRows(begun, d, t + 1, m, i, worked.actions[i]);
    }
    AllDoneMeans(worked, t + 1, m);
  }

  lemma SameRows(d: Desk, d': Desk, t: int, m: Message, i: nat, a: Action)
    requires d.actions == d'.actions && RowHandled(d, t, m, i, a)
    ensures RowHandled(d', t, m, i, a)
  {
    hide Wanted, SomeCallSucceeds;
  }

  // ----- refund requests and complaints -----

  /** Jobs without refunds and complaints, such as the integrations', leave both lists alone. */
  lemma {:induction false} OtherJobs(d: Desk, t: int, m: Message, jobs: seq<Job>)
    requires forall j :: j in jobs ==> !j.item.kind.RefundApply? && !j.item.kind.ComplaintCreate?
    ensures Worked(d, t, m, jobs).refunds == d.refunds && Worked(d, t, m, jobs).complaints == d.complaints
  {
    hide Refunded, Complained, Reviewable, Place;
    if |jobs| > 0 {
      OtherJobs(d, t, m, jobs[..|jobs| - 1]);
      assert jobs[|jobs| - 1] in jobs;
    }
  }

  lemma IntegrationsAreOther(d: Desk, t: int, m: Message)
    ensures var k := |m.world.integrations|;
            var worked, planned := Worked(d, t, m, JobsOf(m)), Worked(d, t, m, PlannedJobs(m));
            worked.refunds == planned.refunds && worked.complaints == planned.complaints
  {
    hide PlannedJobs, IntegrationJobs, Worked;
    var k := |m.world.integrations|;
    WorkedTwice(d, t, m, PlannedJobs(m), IntegrationJobs(m, k));
    forall j | j in IntegrationJobs(m, k) ensures !j.item.kind.RefundApply? && !j.item.kind.ComplaintCreate? {
      RowsMean(m, k, j);
    }
    OtherJobs(Worked(d, t, m, PlannedJobs(m)), t, m, IntegrationJobs(m, k));
  }

  lemma RefundKnown(d: Desk, i: nat)
    requires Sound(d) && AllStraight(d) && i < |d.actions|
    requires d.actions[i].kind.RefundApply? && d.actions[i].status.Completed?
    ensures Requested(d.refunds, Strip(d.actions[i].target))
  {
    assert Straight(d.actions[i]);
    assert CompletesRefund(d.actions[i], Strip(d.actions[i].target));
    assert RefundDone(d.actions, Strip(d.actions[i].target));
  }

  /** The only refund request a message adds: for the order it names, if that is the user's and paid and not requested
      yet, under the message's user and the order's amount. */
  function RefundsAfter(d: Desk, m: Message): seq<RefundRequest> {
    var orderNo := Strip(m.fields.orderNo);
    if m.intent.Refund? && m.fields.orderNo != "" && m.fields.reason != "" && orderNo != "" &&
       orderNo in m.world.orders && m.world.orders[orderNo].userId == m.userId && m.world.orders[orderNo].paid &&
       (forall r :: r in d.refunds ==> r.orderNo != orderNo)
    then d.refunds + [RefundRequest(m.userId, orderNo, m.world.orders[orderNo].amount)]
    else d.refunds
  }

  lemma RefundActed(d: Desk, t: int, m: Message, outcome: Outcome)
    requires Sound(d) && AllStraight(d) && m.intent.Refund? && Complete(m.intent, m.fields)
    ensures Acted(d, t, m, Job(Item(RefundApply, m.fields.orderNo), outcome)).refunds == RefundsAfter(d, m)
    ensures Acted(d, t, m, Job(Item(RefundApply, m.fields.orderNo), outcome)).complaints == d.complaints
  {
    hide Sound, Strip, Complained, Reviewable;
    var item := Item(RefundApply, m.fields.orderNo);
    var i := Place(d.actions, t, item);
    if i < |d.actions| && d.actions[i].status.Completed? {
      RefundKnown(d, i);
    }
    if i < |d.actions| {
      assert Straight(d.actions[i]);
    }
    assert Requested(d.refunds, Strip(m.fields.orderNo)) <==>
           exists r :: r in d.refunds && r.orderNo == Strip(m.fields.orderNo);
  }

  lemma PlannedItem(m: Message)
    ensures Complete(m.intent, m.fields) && m.intent.Refund? ==>
              PlannedJobs(m) == [Job(Item(RefundApply, m.fields.orderNo), m.world.outcome(0))]
    ensures Complete(m.intent, m.fields) && m.intent.CatalogComplaint? ==>
              PlannedJobs(m) == [Job(Item(ComplaintCreate, m.fields.catalogId), m.world.outcome(0))]
    ensures !(Complete(m.intent, m.fields) && m.intent.Refund?) ==>
              forall j :: j in PlannedJobs(m) ==> !j.item.kind.RefundApply?
    ensures !(Complete(m.intent, m.fields) && m.intent.CatalogComplaint?) ==>
              forall j :: j in PlannedJobs(m) ==> !j.item.kind.ComplaintCreate?
  {
    DecisionMeans(m.intent, m.fields);
    hide MissingFields, Cut;
  }

  /** A complete refund request for a paid order of the user's is behind the message, whatever happened before, and no
      message adds any other. */
  lemma RefundsMean(d: Desk, m: Message)
    requires Sound(d) && AllStraight(d)
    ensures Handled(d, m).refunds == RefundsAfter(d, m)
    ensures m.intent.Refund? && Complete(m.intent, m.fields) && Refundable(m, Strip(m.fields.orderNo)) ==>
              Requested(Handled(d, m).refunds, Strip(m.fields.orderNo))
  {
    hide Sound, JobsOf, Worked, Acted, PlannedJobs, Straight, Strip, Complete;
    var t, begun := ChosenTicket(d.tickets, m) + 1, Opened(d, m);
    OpenedKeepsSound(d, m);
    IntegrationsAreOther(begun, t, m);
    PlannedItem(m);
    if m.intent.Refund? && Complete(m.intent, m.fields) {
      WorkedOne(begun, t, m, Job(Item(RefundApply, m.fields.orderNo), m.world.outcome(0)));
      RefundActed(begun, t, m, m.world.outcome(0));
    } else {
      NoRefundJobs(begun, t, m, PlannedJobs(m));
      assert Complete(m.intent, m.fields) || !m.intent.Refund? || m.fields.orderNo == "" || m.fields.reason == "" by {
        IncompleteRefund(m);
      }
    }
    RequestedLast(d, m);
  }

  lemma IncompleteRefund(m: Message)
    ensures m.intent.Refund? && !Complete(m.intent, m.fields) ==> m.fields.orderNo == "" || m.fields.reason == ""
  {
  }

  lemma RequestedLast(d: Desk, m: Message)
    ensures m.intent.Refund? && Complete(m.intent, m.fields) && Refundable(m, Strip(m.fields.orderNo)) ==>
              Requested(RefundsAfter(d, m), Strip(m.fields.orderNo))
  {
    hide Strip;
    var o, after := Strip(m.fields.orderNo), RefundsAfter(d, m);
    if r :| r in d.refunds && r.orderNo == o {
      var k :| 0 <= k < |d.refunds| && d.refunds[k] == r;
      assert after == d.refunds;
      assert after[k].orderNo == o;
    } else if after != d.refunds {
      assert after[|d.refunds|].orderNo == o;
    }
  }

  lemma {:induction false} NoRefundJobs(d: Desk, t: int, m: Message, jobs: seq<Job>)
    requires forall j :: j in jobs ==> !j.item.kind.RefundApply?
    ensures Worked(d, t, m, jobs).refunds == d.refunds
  {
    hide Refunded, Complained, Reviewable, Place;
    if |jobs| > 0 {
      NoRefundJobs(d, t, m, jobs[..|jobs| - 1]);
      assert jobs[|jobs| - 1] in jobs;
    }
  }

  lemma {:induction false} NoComplaintJobs(d: Desk, t: int, m: Message, jobs: seq<Job>)
    requires forall j :: j in jobs ==> !j.item.kind.ComplaintCreate?
    ensures Worked(d, t, m, jobs).complaints == d.complaints
  {
    hide Refunded, Complained, Reviewable, Place;
    if |jobs| > 0 {
      NoComplaintJobs(d, t, m, jobs[..|jobs| - 1]);
      assert jobs[|jobs| - 1] in jobs;
    }
  }

  /** The complaint of a row: about the named item, by the user, with at most 32 characters of the type. */
  ghost predicate IsComplaint(c: Complaint, m: Message, catalogId: string, complaintType: string) {
    && m.world.readInt(catalogId) == Some(c.catalogId) && c.userId == m.userId
    && c.complaintType <= complaintType && |c.complaintType| == Min(32, |complaintType|)
  }

  /** The ticket's complaint about the item the message names was filed before. */
  ghost predicate Filed(d: Desk, t: int, m: Message) {
    exists i :: 0 <= i < |d.actions| && IsFor(d.actions[i], t, ComplaintCreate, m.fields.catalogId) &&
                d.actions[i].status.Completed?
  }

  /** A complaint with the words of the ticket's first message about the item. */
  ghost predicate Files(d: Desk, t: int, m: Message, c: Complaint) {
    if exists i :: 0 <= i < |d.actions| && IsFor(d.actions[i], t, ComplaintCreate, m.fields.catalogId)
    then exists i :: 0 <= i < |d.actions| && IsFor(d.actions[i], t, ComplaintCreate, m.fields.catalogId) &&
                     IsComplaint(c, m, m.fields.catalogId, d.actions[i].request.complaintType)
    else IsComplaint(c, m, m.fields.catalogId, m.fields.complaintType)
  }

  ghost predicate ComplaintsHandled(d: Desk, t: int, m: Message, complaints: seq<Complaint>) {
    if m.intent.CatalogComplaint? && Complete(m.intent, m.fields) && InCatalog(m, m.fields.catalogId) && !Filed(d, t, m)
    then |complaints| == |d.complaints| + 1 && d.complaints <= complaints && Files(d, t, m, complaints[|d.complaints|])
    else complaints == d.complaints
  }

  lemma ComplaintActed(d: Desk, t: int, m: Message, outcome: Outcome)
    requires Sound(d) && AllStraight(d) && m.intent.CatalogComplaint? && Complete(m.intent, m.fields)
    ensures var job := Job(Item(ComplaintCreate, m.fields.catalogId), outcome);
            ComplaintsHandled(d, t, m, Acted(d, t, m, job).complaints)
  {
    hide Refunded, Complained, Reviewable, IsComplaint, InCatalog;
    KeysOfSound(d);
    hide Sound;
    var item := Item(ComplaintCreate, m.fields.catalogId);
    var i := Place(d.actions, t, item);
    if i < |d.actions| {
      assert Straight(d.actions[i]);
      assert IsFor(d.actions[i], t, ComplaintCreate, m.fields.catalogId);
      ComplainedMeans(d, d.actions[i], m);
    } else {
      ComplainedMeans(Built(d, t, m, item), NewAction(t, m, item), m);
    }
  }

  lemma ComplainedMeans(d: Desk, a: Action, m: Message)
    requires Straight(a) && a.kind.ComplaintCreate?
    ensures var (complaints, ok) := Complained(d, a, m.userId, m.world);
            if InCatalog(m, a.target) then
              && ok && |complaints| == |d.complaints| + 1 && d.complaints <= complaints
              && IsComplaint(complaints[|d.complaints|], m, a.target, a.request.complaintType)
            else !ok && complaints == d.complaints
  {
  }

  /** A complete complaint about an item of the catalogue is filed once for the ticket and item, and no message files
      any other. */
  lemma ComplaintsMean(d: Desk, m: Message)
    requires Sound(d) && AllStraight(d)
    ensures ComplaintsHandled(d, ChosenTicket(d.tickets, m) + 1, m, Handled(d, m).complaints)
  {
    hide Sound, JobsOf, Worked, Acted, PlannedJobs, Straight, Complete, Filed, Files;
    var t, begun := ChosenTicket(d.tickets, m) + 1, Opened(d, m);
    OpenedKeepsSound(d, m);
    IntegrationsAreOther(begun, t, m);
    PlannedItem(m);
    if m.intent.CatalogComplaint? && Complete(m.intent, m.fields) {
      WorkedOne(begun, t, m, Job(Item(ComplaintCreate, m.fields.catalogId), m.world.outcome(0)));
      ComplaintActed(begun, t, m, m.world.outcome(0));
      SameComplaints(begun, d, t, m, Handled(d, m).complaints);
    } else {
      NoComplaintJobs(begun, t, m, PlannedJobs(m));
    }
  }

  lemma SameComplaints(d: Desk, d': Desk, t: int, m: Message, complaints: seq<Complaint>)
    requires d.actions == d'.actions && d.complaints == d'.complaints && ComplaintsHandled(d, t, m, complaints)
    ensures ComplaintsHandled(d', t, m, complaints)
  {
    hide IsComplaint, InCatalog, Complete;
  }

  // ----- whole runs -----

  /** In every run the rows stay straight: refunds are for the order of their row, complaints for its item. */
  lemma {:induction false} RunIsStraight(messages: seq<Message>)
    ensures AllStraight(Run(messages))
  {
    hide Sound, Handled, Straight;
    if |messages| > 0 {
      var front := messages[..|messages| - 1];
      RunIsStraight(front);
      RunIsSound(front);
      MessageMeans(Run(front), messages[|messages| - 1]);
    }
  }

  /** Message k was handled on ticket t, is complete, and the action it asks for is completed. */
  ghost predicate ResolvedBy(messages: seq<Message>, k: nat, t: nat, d: Desk) {
    && k < |messages| && t < |d.tickets|
    && var m := messages[k];
       && m.intent == d.tickets[t].intent && m.sessionId == d.tickets[t].sessionId && Complete(m.intent, m.fields)
       && forall item :: Asks(m, item) ==> HasCompleted(d.actions, t + 1, item)
  }

  ghost predicate HasCompleted(actions: seq<Action>, t: int, item: Item) {
    exists i :: 0 <= i < |actions| && IsFor(actions[i], t, item.kind, item.target) && actions[i].status.Completed?
  }

  lemma DoneIsCompleted(d: Desk, t: int, m: Message, item: Item)
    requires AllStraight(d) && AllDone(d.actions, t, JobsOf(m)) && Asks(m, item)
    ensures HasCompleted(d.actions, t, item)
  {
    hide JobsOf, Asks;
    assert CallAsks(m, 0, item);
    JobsWanted(m, item);
    var k := JobWith(JobsOf(m), item);
    assert ItemDone(d.actions, t, JobsOf(m)[k].item);
    assert Straight(d.actions[Place(d.actions, t, item)]);
  }

  /** Behind every resolved ticket of a run is a complete message on it, of its session and intent, whose own action is
      completed. */
  lemma ResolvedMeans(messages: seq<Message>, t: nat) returns (k: nat)
    requires t < |Run(messages).tickets| && Run(messages).tickets[t].status.Resolved?
    ensures ResolvedBy(messages, k, t, Run(messages))
  {
    hide Handled, JobsOf, AllDone, LastActive, Decide, Complete, HasCompleted, AllStraight, Asks;
    ResolvedIff(messages, t);
    k :| Resolves(messages, k, t);
    var m := messages[k];
    ResolvedForGood(messages, k, t);
    RunSnoc(messages, k);
    HandledTickets(Run(messages[..k]), m, t);
    DecisionMeans(m.intent, m.fields);
    RunIsStraight(messages);
    forall item | Asks(m, item) ensures HasCompleted(Run(messages).actions, t + 1, item) {
      DoneIsCompleted(Run(messages), t + 1, m, item);
    }
  }

  /** A refund ticket is resolved only with a refund request for the order its resolving message named. */
  lemma ResolvedRefund(messages: seq<Message>, t: nat) returns (k: nat)
    requires t < |Run(messages).tickets| && Run(messages).tickets[t].status.Resolved?
    requires Run(messages).tickets[t].intent.Refund?
    ensures k < |messages| && messages[k].intent.Refund?
    ensures messages[k].sessionId == Run(messages).tickets[t].sessionId
    ensures messages[k].fields.orderNo != "" && messages[k].fields.reason != ""
    ensures Requested(Run(messages).refunds, Strip(messages[k].fields.orderNo))
  {
    hide Run, Strip, Requested, Sound, AllStraight, HasCompleted;
    k := ResolvedMeans(messages, t);
    var d, item := Run(messages), Item(RefundApply, messages[k].fields.orderNo);
    assert Asks(messages[k], item);
    RunIsSound(messages);
    RunIsStraight(messages);
    CompletedRefund(d, t + 1, messages[k].fields.orderNo);
  }

  lemma CompletedRefund(d: Desk, t: int, orderNo: string)
    requires Sound(d) && AllStraight(d) && HasCompleted(d.actions, t, Item(RefundApply, orderNo))
    ensures Requested(d.refunds, Strip(orderNo))
  {
    hide Sound, AllStraight, Requested, Strip;
    var i :| 0 <= i < |d.actions| && IsFor(d.actions[i], t, RefundApply, orderNo) && d.actions[i].status.Completed?;
    RefundKnown(d, i);
  }

  lemma RequestedStays(refunds: seq<RefundRequest>, refunds': seq<RefundRequest>, o: string)
    requires refunds <= refunds' && Requested(refunds, o)
    ensures Requested(refunds', o)
  {
    var i :| 0 <= i < |refunds| && refunds[i].orderNo == o;
    assert refunds'[i].orderNo == o;
  }

  /** Whoever asks with a reason for the refund of an order that is his and paid gets his request, and it stays. */
  lemma RefundIsGranted(messages: seq<Message>, k: nat)
    requires k < |messages| && messages[k].intent.Refund?
    requires messages[k].fields.orderNo != "" && messages[k].fields.reason != ""
    requires Refundable(messages[k], Strip(messages[k].fields.orderNo))
    ensures Requested(Run(messages).refunds, Strip(messages[k].fields.orderNo))
  {
    hide Handled, Run, Strip, Refundable, Requested, Sound, AllStraight, Evolves;
    var o := Strip(messages[k].fields.orderNo);
    RunIsSound(messages[..k]);
    RunIsStraight(messages[..k]);
    RunSnoc(messages, k);
    RefundsMean(Run(messages[..k]), messages[k]);
    FinishedStaysFinished(messages, k + 1);
    RefundsGrow(Run(messages[..k + 1]), Run(messages));
    RequestedStays(Run(messages[..k + 1]).refunds, Run(messages).refunds, o);
  }

  lemma RefundsGrow(d: Desk, d': Desk)
    requires Evolves(d, d')
    ensures d.refunds <= d'.refunds
  {
  }
}
