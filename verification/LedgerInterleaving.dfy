/** Concurrent calls on the experience ledger: every interleaving of workers is a serial run of the calls that
    finished. A worker looks rows up, flushes its new row (the unique key decides), adjusts the locked user row, and
    commits both. */
module LedgerInterleaving {
  import opened Basics
  import opened ExperienceLedger

  datatype Phase =
    | Start
    | SawPayment(paid: Entry)                   // a refund that has read the payment, not yet the refunds
    | LookedUp(entry: Entry)                    // every guard passed on what was read
    | Flushed(entry: Entry)                     // the row is inserted, not yet visible to others
    | Adjusted(entry: Entry, value: Option<int>)  // the user row is locked and its new value computed
    | Done(result: int)
    | Aborted

  datatype Worker = Worker(op: Op, phase: Phase)

  /** `log` records which worker took effect when, with the result it reports. */
  datatype Sys = Sys(db: Db, workers: seq<Worker>, log: seq<(nat, int)>)

  predicate Holding(w: Worker) {
    w.phase.Flushed? || w.phase.Adjusted?
  }

  predicate SameKey(e: Entry, f: Entry) {
    HasKey(e, f.source, f.orderNo)
  }

  ghost predicate Init(s: Sys) {
    s.log == [] && forall i :: 0 <= i < |s.workers| ==> s.workers[i].phase == Start
  }

  function Moved(s: Sys, i: nat, phase: Phase): Sys
    requires i < |s.workers|
  {
    s.(workers := s.workers[i := s.workers[i].(phase := phase)])
  }

  /** A worker that is through with result r, without having written anything. */
  function Finished(s: Sys, i: nat, r: int): Sys
    requires i < |s.workers|
  {
    Moved(s, i, Done(r)).(log := s.log + [(i, r)])
  }

  /** The guards that need no look at the database. */
  predicate Refused(op: Op) {
    op.userId == 0 || op.orderNo == "" || (op.Apply? && (!op.countable || XpFromAmount(op.amount) <= 0))
  }

  function AfterLookup(s: Sys, i: nat): Sys
    requires i < |s.workers| && s.workers[i].phase.Start?
  {
    var op := s.workers[i].op;
    var paid := Find(s.db.ledger, OrderPaid, op.orderNo);
    if Refused(op) then Finished(s, i, 0)
    else if op.Apply? then if paid.Some? then Finished(s, i, 0) else Moved(s, i, LookedUp(PaidEntry(op)))
    else if paid.None? then Finished(s, i, 0)
    else Moved(s, i, SawPayment(paid.value))
  }

  function AfterSecondLookup(s: Sys, i: nat): Sys
    requires i < |s.workers| && s.workers[i].phase.SawPayment? && s.workers[i].op.Revoke?
  {
    var w := s.workers[i];
    if Find(s.db.ledger, OrderRefunded, w.op.orderNo).Some? || w.phase.paid.xpDelta <= 0 then Finished(s, i, 0)
    else Moved(s, i, LookedUp(RefundEntry(w.op, w.phase.paid)))
  }

  /** The insert waits for a worker that holds the same key, and fails on a committed one. */
  ghost predicate CanFlush(s: Sys, i: nat)
    requires i < |s.workers| && s.workers[i].phase.LookedUp?
  {
    forall j :: 0 <= j < |s.workers| && j != i && Holding(s.workers[j]) ==>
                  !SameKey(s.workers[j].phase.entry, s.workers[i].phase.entry)
  }

  function AfterFlush(s: Sys, i: nat): Sys
    requires i < |s.workers| && s.workers[i].phase.LookedUp?
  {
    var e := s.workers[i].phase.entry;
    if Find(s.db.ledger, e.source, e.orderNo).Some? then Finished(s, i, 0)
    else Moved(s, i, Flushed(e))
  }

  /** The user row is read under its lock. */
  ghost predicate CanAdjust(s: Sys, i: nat)
    requires i < |s.workers| && s.workers[i].phase.Flushed?
  {
    forall j :: 0 <= j < |s.workers| && j != i && s.workers[j].phase.Adjusted? ==>
                  s.workers[j].phase.entry.userId != s.workers[i].phase.entry.userId
  }

  /** `seen` is the counter the worker's session loaded earlier, if it did: the locked read does not replace it. */
  function AfterAdjustSeeing(s: Sys, i: nat, seen: Option<int>): Sys
    requires i < |s.workers| && s.workers[i].phase.Flushed?
  {
    var e := s.workers[i].phase.entry;
    var exp := s.db.experience;
    if e.userId !in exp then Moved(s, i, Adjusted(e, None))
    else
      var current := if seen.Some? then seen.value else exp[e.userId];
      Moved(s, i, Adjusted(e, Some(Max(0, current + e.xpDelta))))
  }

  function AfterAdjust(s: Sys, i: nat): Sys
    requires i < |s.workers| && s.workers[i].phase.Flushed?
  {
    AfterAdjustSeeing(s, i, None)
  }

  /** Row and user value become visible together. */
  function AfterCommit(s: Sys, i: nat): Sys
    requires i < |s.workers| && s.workers[i].phase.Adjusted?
  {
    var e, v := s.workers[i].phase.entry, s.workers[i].phase.value;
    var exp := if v.Some? then s.db.experience[e.userId := v.value] else s.db.experience;
    Finished(s, i, if e.xpDelta < 0 then -e.xpDelta else e.xpDelta).(db := Db(s.db.ledger + [e], exp))
  }

  ghost predicate Step(s: Sys, s': Sys, i: nat) {
    && i < |s.workers|
    && match s.workers[i].phase
       case Start => s' == AfterLookup(s, i) || s' == Moved(s, i, Aborted)
       case SawPayment(_) => s.workers[i].op.Revoke? && (s' == AfterSecondLookup(s, i) || s' == Moved(s, i, Aborted))
       case LookedUp(_) => (CanFlush(s, i) && s' == AfterFlush(s, i)) || s' == Moved(s, i, Aborted)
       case Flushed(_) => (CanAdjust(s, i) && s' == AfterAdjust(s, i)) || s' == Moved(s, i, Aborted)
       case Adjusted(_, _) => s' == AfterCommit(s, i) || s' == Moved(s, i, Aborted)
       case Done(_) => false
       case Aborted => false
  }

  // ----- what every reachable state keeps -----

  /** What a worker knows about the committed ledger in its phase. */
  ghost predicate WorkerInv(db: Db, w: Worker) {
    match w.phase
    case Start => true
    case SawPayment(paid) =>
      w.op.Revoke? && !Refused(w.op) && Find(db.ledger, OrderPaid, w.op.orderNo) == Some(paid)
    case LookedUp(e) => Justified(db, w.op, e)
    case Flushed(e) => Justified(db, w.op, e) && Find(db.ledger, e.source, e.orderNo).None?
    case Adjusted(e, v) =>
      && Justified(db, w.op, e) && Find(db.ledger, e.source, e.orderNo).None?
      && v == if e.userId in db.experience then Some(Max(0, db.experience[e.userId] + e.xpDelta)) else None
    case Done(_) => true
    case Aborted => true
  }

  /** The row a worker carries is the one its call inserts, as long as nobody else has inserted it first. */
  ghost predicate Justified(db: Db, op: Op, e: Entry) {
    && !Refused(op)
    && e.userId == op.userId && e.orderNo == op.orderNo
    && if op.Apply? then e == PaidEntry(op)
       else var paid := Find(db.ledger, OrderPaid, op.orderNo);
            paid.Some? && paid.value.xpDelta > 0 && e == RefundEntry(op, paid.value)
  }

  ghost predicate Apart(w: Worker, w': Worker) {
    && (Holding(w) && Holding(w') ==> !SameKey(w.phase.entry, w'.phase.entry))
    && (w.phase.Adjusted? && w'.phase.Adjusted? ==> w.phase.entry.userId != w'.phase.entry.userId)
  }

  ghost predicate Inv(s: Sys) {
    && (forall i :: 0 <= i < |s.workers| ==> WorkerInv(s.db, s.workers[i]))
    && (forall i, j :: 0 <= i < |s.workers| && 0 <= j < |s.workers| && i != j ==> Apart(s.workers[i], s.workers[j]))
  }

  /** The calls of the log, in its order. */
  function Ops(workers: seq<Worker>, log: seq<(nat, int)>): seq<Op>
    requires forall k :: 0 <= k < |log| ==> log[k].0 < |workers|
  {
    seq(|log|, k requires 0 <= k < |log| => workers[log[k].0].op)
  }

  /** The database is what the logged calls produce one after the other, and each reported what it would have reported
      alone. */
  ghost predicate Serialised(db0: Db, s: Sys) {
    && (forall k :: 0 <= k < |s.log| ==> s.log[k].0 < |s.workers|)
    && s.db == SerialRun(db0, Ops(s.workers, s.log))
    && (forall k :: 0 <= k < |s.log| ==> LoggedTrue(db0, s, k))
    && (forall i :: 0 <= i < |s.workers| && s.workers[i].phase.Done? ==> (i, s.workers[i].phase.result) in s.log)
    && (forall k :: 0 <= k < |s.log| ==> s.workers[s.log[k].0].phase == Done(s.log[k].1))
  }

  ghost predicate LoggedTrue(db0: Db, s: Sys, k: nat)
    requires k < |s.log| && forall k :: 0 <= k < |s.log| ==> s.log[k].0 < |s.workers|
  {
    SerialStep(SerialRun(db0, Ops(s.workers, s.log)[..k]), s.workers[s.log[k].0].op).1 == s.log[k].1
  }

  /** What the step adds to the serial run: nothing, or exactly the one call that takes effect with it. */
  ghost predicate Refines(s: Sys, s': Sys, i: nat)
    requires i < |s.workers|
  {
    if s'.log == s.log then s'.db == s.db
    else exists r :: s'.log == s.log + [(i, r)] && (s'.db, r) == SerialStep(s.db, s.workers[i].op)
  }

  lemma JustifiedPlans(db: Db, op: Op, e: Entry)
    requires Justified(db, op, e)
    ensures Find(db.ledger, e.source, e.orderNo).None? ==> Planned(db.ledger, op) == Some(e)
    ensures Find(db.ledger, e.source, e.orderNo).Some? ==> Planned(db.ledger, op) == None
  {
  }

  lemma StepRefines(s: Sys, s': Sys, i: nat)
    requires Inv(s) && Step(s, s', i)
    ensures Refines(s, s', i)
  {
    var w := s.workers[i];
    assert WorkerInv(s.db, w);
    if w.phase.LookedUp? || w.phase.Adjusted? {
      JustifiedPlans(s.db, w.op, w.phase.entry);
    }
    if s'.log != s.log {
      var r := s'.log[|s.log|].1;
      assert s'.log == s.log + [(i, r)];
      assert (s'.db, r) == SerialStep(s.db, w.op);
    }
  }

  /** A worker whose session loaded the user earlier has the effect of its call made alone exactly if the counter has
      not moved since, or both values clamp to zero. One that did not load it always has. */
  lemma StaleReadIff(s: Sys, i: nat, seen: Option<int>)
    requires Inv(s) && i < |s.workers| && s.workers[i].phase.Flushed?
    requires s.workers[i].phase.entry.userId in s.db.experience
    ensures var e := s.workers[i].phase.entry;
            var now := s.db.experience[e.userId];
            AfterCommit(AfterAdjustSeeing(s, i, seen), i).db == SerialStep(s.db, s.workers[i].op).0 <==>
            seen.None? || seen.value == now || (seen.value + e.xpDelta <= 0 && now + e.xpDelta <= 0)
  {
    var w := s.workers[i];
    assert WorkerInv(s.db, w);
    JustifiedPlans(s.db, w.op, w.phase.entry);
    var db, db' := SerialStep(s.db, w.op).0, AfterCommit(AfterAdjustSeeing(s, i, seen), i).db;
    var u := w.phase.entry.userId;
    assert db' == db <==> db'.experience[u] == db.experience[u];
  }

  /** A call reports r: zero for no row, or the points that its row, appended with this step, gives or takes. */
  ghost predicate Reports(db: Db, db': Db, op: Op, r: int) {
    if r == 0 then db' == db
    else
      && |db'.ledger| == |db.ledger| + 1 && db.ledger <= db'.ledger
      && var e := db'.ledger[|db.ledger|];
         && e.userId == op.userId && e.orderNo == op.orderNo
         && e.source == (if op.Apply? then OrderPaid else OrderRefunded)
         && r > 0 && e.xpDelta == if op.Apply? then r else -r
  }

  lemma SerialReports(db: Db, op: Op)
    ensures var (db', r) := SerialStep(db, op); Reports(db, db', op, r)
  {
    AnswerIsLedgerChange(db, op);
    if Planned(db.ledger, op).Some? {
      LedgerSumSnoc(db.ledger, Planned(db.ledger, op).value, op.userId);
    }
  }

  /** The step with which a call reports is the one that commits its row, if it has one. */
  lemma StepReports(s: Sys, s': Sys, i: nat)
    requires Inv(s) && Step(s, s', i) && s'.log != s.log
    ensures exists r :: s'.log == s.log + [(i, r)] && s'.workers[i].phase == Done(r) &&
                        Reports(s.db, s'.db, s.workers[i].op, r)
  {
    StepRefines(s, s', i);
    SerialReports(s.db, s.workers[i].op);
    var r :| s'.log == s.log + [(i, r)] && (s'.db, r) == SerialStep(s.db, s.workers[i].op);
    hide SerialStep, Reports;
    assert s'.workers[i].phase == Done(r);
  }

  /** What a worker knows survives another worker's commit. */
  lemma CommitKeepsOthers(s: Sys, i: nat, j: nat)
    requires Inv(s) && i < |s.workers| && j < |s.workers| && i != j && s.workers[i].phase.Adjusted?
    ensures WorkerInv(AfterCommit(s, i).db, s.workers[j])
  {
    var e, w, after := s.workers[i].phase.entry, s.workers[j], AfterCommit(s, i).db;
    assert WorkerInv(s.db, w) && Apart(s.workers[i], w) && WorkerInv(s.db, s.workers[i]);
    if w.phase.SawPayment? || w.phase.LookedUp? || Holding(w) {
      FindSnoc(s.db.ledger, e, OrderPaid, w.op.orderNo);
    }
    if Holding(w) {
      FindSnoc(s.db.ledger, e, w.phase.entry.source, w.phase.entry.orderNo);
    }
  }

  lemma StepKeepsOwn(s: Sys, s': Sys, i: nat)
    requires Inv(s) && Step(s, s', i)
    ensures WorkerInv(s'.db, s'.workers[i])
  {
    assert WorkerInv(s.db, s.workers[i]);
  }

  lemma StepKeepsOther(s: Sys, s': Sys, i: nat, j: nat)
    requires Inv(s) && Step(s, s', i) && j < |s.workers| && j != i
    ensures |s'.workers| == |s.workers| && WorkerInv(s'.db, s'.workers[j])
  {
    hide WorkerInv;
    assert WorkerInv(s.db, s.workers[j]);
    if s'.db != s.db {
      CommitKeepsOthers(s, i, j);
    }
  }

  lemma StepKeepsApart(s: Sys, s': Sys, i: nat, j: nat)
    requires Inv(s) && Step(s, s', i) && j < |s.workers| && j != i
    ensures |s'.workers| == |s.workers|
    ensures Apart(s'.workers[i], s'.workers[j]) && Apart(s'.workers[j], s'.workers[i])
  {
    hide WorkerInv;
    assert Apart(s.workers[i], s.workers[j]) && Apart(s.workers[j], s.workers[i]);
  }

  lemma StepKeepsInv(s: Sys, s': Sys, i: nat)
    requires Inv(s) && Step(s, s', i)
    ensures Inv(s')
  {
    hide WorkerInv, Apart;
    assert s'.workers == s.workers[i := s'.workers[i]];
    forall j | 0 <= j < |s'.workers| ensures WorkerInv(s'.db, s'.workers[j]) {
      if j == i {
        StepKeepsOwn(s, s', i);
      } else {
        StepKeepsOther(s, s', i, j);
      }
    }
    forall j, k | 0 <= j < |s'.workers| && 0 <= k < |s'.workers| && j != k ensures Apart(s'.workers[j], s'.workers[k]) {
      if j == i {
        StepKeepsApart(s, s', i, k);
      } else if k == i {
        StepKeepsApart(s, s', i, j);
      } else {
        assert Apart(s.workers[j], s.workers[k]);
      }
    }
  }

  /** A step that logs nothing: the same calls have taken effect, with the same results. */
  lemma QuietStepKeepsSerialised(db0: Db, s: Sys, s': Sys, i: nat)
    requires Serialised(db0, s) && i < |s.workers| && !s.workers[i].phase.Done?
    requires s'.db == s.db && s'.log == s.log
    requires exists p: Phase :: !p.Done? && s'.workers == s.workers[i := s.workers[i].(phase := p)]
    ensures Serialised(db0, s')
  {
    assert Ops(s'.workers, s'.log) == Ops(s.workers, s.log);
    forall k | 0 <= k < |s'.log| ensures LoggedTrue(db0, s', k) {
      assert LoggedTrue(db0, s, k);
    }
  }

  /** A step that logs a call: the database moves by exactly that call made alone. */
  lemma LoggingStepKeepsSerialised(db0: Db, s: Sys, s': Sys, i: nat, r: int)
    requires Serialised(db0, s) && i < |s.workers| && !s.workers[i].phase.Done?
    requires s'.log == s.log + [(i, r)] && (s'.db, r) == SerialStep(s.db, s.workers[i].op)
    requires s'.workers == s.workers[i := s.workers[i].(phase := Done(r))]
    ensures Serialised(db0, s')
  {
    var ops := Ops(s.workers, s.log);
    var ops' := Ops(s'.workers, s'.log);
    assert ops' == ops + [s.workers[i].op];
    assert ops'[..|ops|] == ops;
    forall k | 0 <= k < |s'.log| ensures LoggedTrue(db0, s', k) {
      if k < |s.log| {
        assert LoggedTrue(db0, s, k);
        assert ops'[..k] == ops[..k];
      }
    }
    forall j | 0 <= j < |s'.workers| && s'.workers[j].phase.Done? ensures (j, s'.workers[j].phase.result) in s'.log {
      if j == i {
        assert s'.log[|s.log|] == (i, r);
      } else {
        assert (j, s.workers[j].phase.result) in s.log;
      }
    }
  }

  lemma StepKeepsSerialised(db0: Db, s: Sys, s': Sys, i: nat)
    requires Serialised(db0, s) && Step(s, s', i) && Refines(s, s', i)
    ensures Serialised(db0, s')
  {
    if s'.log == s.log {
      assert s'.workers == s.workers[i := s.workers[i].(phase := s'.workers[i].phase)];
      QuietStepKeepsSerialised(db0, s, s', i);
    } else {
      LoggingStepKeepsSerialised(db0, s, s', i, s'.log[|s.log|].1);
    }
  }

  ghost predicate StepOfSome(s: Sys, s': Sys) {
    exists i :: Step(s, s', i)
  }

  /** A finite behaviour: it starts with idle workers and each state follows from the one before by one worker's step.
      */
  ghost predicate Behaviour(trace: seq<Sys>) {
    && |trace| > 0 && Init(trace[0])
    && forall k :: 0 < k < |trace| ==> StepOfSome(trace[k - 1], trace[k])
  }

  lemma InitIsSerial(s: Sys)
    requires Init(s)
    ensures Inv(s) && Serialised(s.db, s) && SameOps(s, s)
  {
    assert Ops(s.workers, []) == [];
  }

  /** Every interleaving is a serial run of the finished calls in some order, with the same results. */
  lemma {:induction false} EveryInterleavingIsSerial(trace: seq<Sys>)
    requires Behaviour(trace)
    ensures Inv(trace[|trace| - 1])
    ensures Serialised(trace[0].db, trace[|trace| - 1])
    ensures SameOps(trace[0], trace[|trace| - 1])
  {
    hide Inv, Serialised, SameOps, Init, Step;
    var n := |trace| - 1;
    if n == 0 {
      InitIsSerial(trace[0]);
    } else {
      var front := trace[..n];
      EveryInterleavingIsSerial(front);
      assert front[|front| - 1] == trace[n - 1] && front[0] == trace[0];
      OneMoreStep(trace[0], trace[n - 1], trace[n]);
    }
  }

  ghost predicate SameOps(s: Sys, s': Sys) {
    && |s.workers| == |s'.workers|
    && forall i :: 0 <= i < |s.workers| ==> s'.workers[i].op == s.workers[i].op
  }

  lemma OneMoreStep(s0: Sys, s: Sys, s': Sys)
    requires Inv(s) && Serialised(s0.db, s) && SameOps(s0, s) && StepOfSome(s, s')
    ensures Inv(s') && Serialised(s0.db, s') && SameOps(s0, s')
  {
    var i :| Step(s, s', i);
    assert Refines(s, s', i) by { StepRefines(s, s', i); }
    assert Inv(s') by { StepKeepsInv(s, s', i); }
    assert Serialised(s0.db, s') by { StepKeepsSerialised(s0.db, s, s', i); }
    StepKeepsOps(s, s', i);
    assert SameOps(s0, s') by { SameOpsTransitive(s0, s, s'); }
  }

  lemma StepKeepsOps(s: Sys, s': Sys, i: nat)
    requires Step(s, s', i)
    ensures SameOps(s, s')
  {
  }

  lemma SameOpsTransitive(s0: Sys, s: Sys, s': Sys)
    requires SameOps(s0, s) && SameOps(s, s')
    ensures SameOps(s0, s')
  {
  }

  /** No interleaving credits an order twice or reverses it twice, and nothing committed is ever rewritten. */
  lemma InterleavingsAreSound(trace: seq<Sys>)
    requires Behaviour(trace) && Sound(trace[0].db.ledger)
    ensures Sound(trace[|trace| - 1].db.ledger)
    ensures trace[0].db.ledger <= trace[|trace| - 1].db.ledger
  {
    EveryInterleavingIsSerial(trace);
    var s := trace[|trace| - 1];
    SerialRunSound(trace[0].db, Ops(s.workers, s.log));
  }

  /** State k of the run is the one in which worker i reports r. */
  ghost predicate ReportsAt(trace: seq<Sys>, k: nat, i: nat, op: Op, r: int) {
    && 0 < k < |trace|
    && trace[k].log == trace[k - 1].log + [(i, r)]
    && Reports(trace[k - 1].db, trace[k].db, op, r)
  }

  /** In every interleaving each finished call reports zero if it added no row, and otherwise the points of the row that
      its commit added. */
  lemma {:induction false} ResultsAreLedgerChanges(trace: seq<Sys>, i: nat)
    requires Behaviour(trace) && i < |trace[0].workers|
    requires SameOps(trace[0], trace[|trace| - 1]) && trace[|trace| - 1].workers[i].phase.Done?
    ensures var op, r := trace[0].workers[i].op, trace[|trace| - 1].workers[i].phase.result;
            exists k: nat :: ReportsAt(trace, k, i, op, r)
  {
    hide Inv, Serialised, Reports, Step;
    var n := |trace| - 1;
    if n > 0 {
      var front := trace[..n];
      var s, s' := trace[n - 1], trace[n];
      assert front[|front| - 1] == s && front[0] == trace[0];
      EveryInterleavingIsSerial(front);
      assert StepOfSome(s, s');
      var w :| Step(s, s', w);
      var op := trace[0].workers[i].op;
      if s.workers[i].phase.Done? {
        DoneStays(s, s', w, i);
        ResultsAreLedgerChanges(front, i);
        var k: nat :| ReportsAt(front, k, i, op, s.workers[i].phase.result);
        assert ReportsAt(trace, k, i, op, s.workers[i].phase.result);
      } else {
        FinishingLogs(s, s', w, i);
        StepReports(s, s', w);
        assert ReportsAt(trace, n, i, op, s'.workers[i].phase.result);
      }
    }
  }

  lemma DoneStays(s: Sys, s': Sys, w: nat, i: nat)
    requires Step(s, s', w) && i < |s.workers| && s.workers[i].phase.Done?
    ensures |s'.workers| == |s.workers| && s'.workers[i] == s.workers[i]
  {
  }

  lemma FinishingLogs(s: Sys, s': Sys, w: nat, i: nat)
    requires Step(s, s', w) && i < |s.workers| && |s'.workers| == |s.workers|
    requires !s.workers[i].phase.Done? && s'.workers[i].phase.Done?
    ensures w == i && s'.log == s.log + [(i, s'.workers[i].phase.result)] && s'.log != s.log
  {
  }

  /** Refund workers name the payer: the one already in the ledger, and any worker that may yet credit the order. */
  ghost predicate RefundersNamePayers(s: Sys) {
    forall j :: 0 <= j < |s.workers| && s.workers[j].op.Revoke? ==>
      && NamesPayer(s.db.ledger, s.workers[j].op)
      && forall i :: 0 <= i < |s.workers| && s.workers[i].op.Apply? &&
                     s.workers[i].op.orderNo == s.workers[j].op.orderNo ==>
                       s.workers[i].op.userId == s.workers[j].op.userId
  }

  /** A payment in the ledger was there at the start or was made by a call of the run. */
  lemma {:induction false} PaymentComesFrom(db: Db, ops: seq<Op>, orderNo: string)
    ensures var before := Find(db.ledger, OrderPaid, orderNo);
            var after := Find(SerialRun(db, ops).ledger, OrderPaid, orderNo);
            || after == before
            || (after.Some? && exists k :: 0 <= k < |ops| && ops[k].Apply? && ops[k].orderNo == orderNo &&
                                           ops[k].userId == after.value.userId)
  {
    if |ops| > 0 {
      var front, op := ops[..|ops| - 1], ops[|ops| - 1];
      PaymentComesFrom(db, front, orderNo);
      var mid := SerialRun(db, front);
      if Planned(mid.ledger, op).Some? {
        FindSnoc(mid.ledger, Planned(mid.ledger, op).value, OrderPaid, orderNo);
      }
    }
  }

  /** If refunds name the payer, the counters equal the ledger after every interleaving. */
  lemma InterleavingsConserve(trace: seq<Sys>, start: map<int, int>)
    requires Behaviour(trace) && InGoodOrder(trace[0].db, start) && RefundersNamePayers(trace[0])
    ensures InGoodOrder(trace[|trace| - 1].db, start)
  {
    EveryInterleavingIsSerial(trace);
    var db, s := trace[0].db, trace[|trace| - 1];
    var ops := Ops(s.workers, s.log);
    forall k | 0 <= k < |ops| ensures NamesPayer(SerialRun(db, ops[..k]).ledger, ops[k]) {
      assert ops[k] == trace[0].workers[s.log[k].0].op;
      PaymentComesFrom(db, ops[..k], ops[k].orderNo);
      forall m | 0 <= m < k && ops[m].Apply? && ops[m].orderNo == ops[k].orderNo && ops[k].Revoke?
        ensures ops[m].userId == ops[k].userId
      {
        assert ops[m] == trace[0].workers[s.log[m].0].op;
      }
    }
    SerialRunConserves(db, start, ops);
  }

  // ----- a lost update -----

  /** Two payments of one user, each for an order not yet in the ledger. */
  predicate TwoPayments(db: Db, a: Op, b: Op) {
    && a.Apply? && b.Apply? && !Refused(a) && !Refused(b)
    && a.userId == b.userId && a.userId in db.experience && 0 <= db.experience[a.userId]
    && a.orderNo != b.orderNo
    && Find(db.ledger, OrderPaid, a.orderNo).None? && Find(db.ledger, OrderPaid, b.orderNo).None?
  }

  /** The first payment goes through while the second one's session already holds the user's row; then the second one
      inserts its own. */
  lemma FirstThenSecond(db: Db, a: Op, b: Op) returns (trace: seq<Sys>)
    requires TwoPayments(db, a, b)
    ensures Behaviour(trace) && trace[0] == Sys(db, [Worker(a, Start), Worker(b, Start)], [])
    ensures var s := trace[|trace| - 1];
            && |s.workers| == 2 && s.workers[1] == Worker(b, Flushed(PaidEntry(b)))
            && s.db == Post(db, PaidEntry(a))
  {
    var s0 := Sys(db, [Worker(a, Start), Worker(b, Start)], []);
    var s1 := AfterLookup(s0, 0);
    var s2 := AfterFlush(s1, 0);
    var s3 := AfterAdjust(s2, 0);
    var s4 := AfterCommit(s3, 0);
    FindSnoc(db.ledger, PaidEntry(a), OrderPaid, b.orderNo);
    var s5 := AfterLookup(s4, 1);
    var s6 := AfterFlush(s5, 1);
    assert Step(s0, s1, 0) && Step(s1, s2, 0) && Step(s2, s3, 0) && Step(s3, s4, 0);
    assert Step(s4, s5, 1) && Step(s5, s6, 1);
    trace := [s0, s1, s2, s3, s4, s5, s6];
  }

  /** If the second one computes from the counter its session loaded before the first one's commit, both payments are in
      the ledger, but the first one's points are lost. */
  lemma StaleReadLosesPoints(db: Db, a: Op, b: Op) returns (trace: seq<Sys>)
    requires TwoPayments(db, a, b)
    ensures Behaviour(trace) && trace[0] == Sys(db, [Worker(a, Start), Worker(b, Start)], [])
    ensures var s := trace[|trace| - 1];
            && |s.workers| == 2 && s.workers[1].phase.Flushed?
            && var after := AfterCommit(AfterAdjustSeeing(s, 1, Some(db.experience[a.userId])), 1).db;
               && after.ledger == db.ledger + [PaidEntry(a)] + [PaidEntry(b)]
               && a.userId in after.experience
               && after.experience[a.userId] == db.experience[a.userId] + XpFromAmount(b.amount)
               && XpFromAmount(a.amount) > 0
  {
    trace := FirstThenSecond(db, a, b);
  }

  // ----- every interleaving comes to an end, and nobody waits forever -----

  /** How many steps a worker has at most before it. */
  function Rank(p: Phase): nat {
    match p
    case Start => 5
    case SawPayment(_) => 4
    case LookedUp(_) => 3
    case Flushed(_) => 2
    case Adjusted(_, _) => 1
    case Done(_) => 0
    case Aborted => 0
  }

  function TotalRank(workers: seq<Worker>): nat {
    if |workers| == 0 then 0 else TotalRank(workers[..|workers| - 1]) + Rank(workers[|workers| - 1].phase)
  }

  lemma {:induction false} TotalRankUpdate(workers: seq<Worker>, i: nat, w: Worker)
    requires i < |workers|
    ensures TotalRank(workers[i := w]) == TotalRank(workers) - Rank(workers[i].phase) + Rank(w.phase)
    decreases |workers|
  {
    var n := |workers| - 1;
    if i < n {
      TotalRankUpdate(workers[..n], i, w);
      assert workers[i := w][..n] == workers[..n][i := w];
    } else {
      assert workers[i := w][..n] == workers[..n];
    }
  }

  lemma StepLowersRank(s: Sys, s': Sys, i: nat)
    requires Step(s, s', i)
    ensures TotalRank(s'.workers) < TotalRank(s.workers)
  {
    assert s'.workers == s.workers[i := s'.workers[i]];
    TotalRankUpdate(s.workers, i, s'.workers[i]);
  }

  lemma {:induction false} TotalRankBound(workers: seq<Worker>)
    ensures TotalRank(workers) <= 5 * |workers|
  {
    if |workers| > 0 {
      TotalRankBound(workers[..|workers| - 1]);
    }
  }

  /** A behaviour of n workers has at most five steps per worker. */
  lemma {:induction false} BehavioursAreShort(trace: seq<Sys>)
    requires Behaviour(trace)
    ensures |trace| - 1 + TotalRank(trace[|trace| - 1].workers) <= TotalRank(trace[0].workers) <= 5 * |trace[0].workers|
  {
    var n := |trace| - 1;
    TotalRankBound(trace[0].workers);
    if n > 0 {
      var front := trace[..n];
      BehavioursAreShort(front);
      assert StepOfSome(trace[n - 1], trace[n]);
      var i :| Step(trace[n - 1], trace[n], i);
      StepLowersRank(trace[n - 1], trace[n], i);
    }
  }

  ghost predicate Through(w: Worker) {
    w.phase.Done? || w.phase.Aborted?
  }

  /** Worker i can go on by itself: it need neither wait nor give up. */
  ghost predicate CanGoOn(s: Sys, i: nat) {
    && i < |s.workers| && !Through(s.workers[i])
    && exists s' :: Step(s, s', i) && s'.workers[i].phase != Aborted
  }

  /** No deadlock: as long as some call is not through, some call can go on. */
  lemma NoDeadlock(s: Sys, k: nat) returns (i: nat)
    requires Inv(s) && k < |s.workers| && !Through(s.workers[k])
    ensures CanGoOn(s, i)
  {
    if j: nat :| j < |s.workers| && s.workers[j].phase.Adjusted? {
      i := j;
      assert Step(s, AfterCommit(s, i), i);
    } else if j: nat :| j < |s.workers| && s.workers[j].phase.Flushed? {
      i := j;
      assert CanAdjust(s, i);
      assert Step(s, AfterAdjust(s, i), i);
    } else if j: nat :| j < |s.workers| && s.workers[j].phase.LookedUp? {
      i := j;
      assert CanFlush(s, i);
      assert Step(s, AfterFlush(s, i), i);
    } else {
      i := k;
      assert WorkerInv(s.db, s.workers[k]);
      assert Step(s, if s.workers[k].phase.Start? then AfterLookup(s, i) else AfterSecondLookup(s, i), i);
    }
  }
}
