/** What one run of a skill answers and leaves behind, read off its logic, its gate and its policies. */
module ESkillRuns {
  import opened Basics
  import opened ESkillValues
  import opened ESkillInterpreter
  import opened ESkillPatch
  import opened ESkillGate
  import opened ESkillRuntime

  // ----- what a run works with -----

  /** The logic, trigger policy and quality gate in force. */
  datatype Setup = Setup(logic: Dict, trigger: Dict, gate: Dict)

  predicate Blank(v: Value) {
    v == Null || v == Str("")
  }

  /** Entry by entry, what is in `over` and not ignored stands over what is in `under`. */
  ghost predicate Overlays(under: Dict, over: Dict, ignoresBlanks: bool, result: Dict) {
    forall k: string ::
      if k in over && !(ignoresBlanks && Blank(over[k])) then k in result && result[k] == over[k]
      else if k in under then k in result && result[k] == under[k]
      else k !in result
  }

  /** The active version's dicts under the request's; blank overrides of the logic are ignored. */
  ghost predicate IsSetup(s: Skill, req: Request, x: Setup) {
    && s.active in s.versions
    && Overlays(s.versions[s.active].logic, req.overrides, true, x.logic)
    && Overlays(s.versions[s.active].trigger, req.trigger, false, x.trigger)
    && Overlays(s.versions[s.active].gate, req.gate, false, x.gate)
  }

  lemma OverlayIsUnique(under: Dict, over: Dict, ignoresBlanks: bool, a: Dict, b: Dict)
    requires Overlays(under, over, ignoresBlanks, a) && Overlays(under, over, ignoresBlanks, b)
    ensures a == b
  {
    forall k: string ensures (k in a <==> k in b) && (k in a ==> a[k] == b[k]) {
    }
    assert a.Keys == b.Keys;
  }

  lemma SetupOf(s: Skill, req: Request) returns (x: Setup)
    requires s.active in s.versions
    ensures IsSetup(s, req, x)
    ensures forall y :: IsSetup(s, req, y) ==> y == x
    ensures var base := s.versions[s.active];
            x == Setup(MergeOverrides(base.logic, req.overrides), base.trigger + req.trigger, base.gate + req.gate)
  {
    var base := s.versions[s.active];
    x := Setup(MergeOverrides(base.logic, req.overrides), base.trigger + req.trigger, base.gate + req.gate);
    forall y | IsSetup(s, req, y) ensures y == x {
      OverlayIsUnique(base.logic, req.overrides, true, x.logic, y.logic);
      OverlayIsUnique(base.trigger, req.trigger, false, x.trigger, y.trigger);
      OverlayIsUnique(base.gate, req.gate, false, x.gate, y.gate);
    }
  }

  /** A policy that is switched on: by its entry, or by default without one. */
  ghost predicate On(policy: Dict, key: string, default: bool) {
    (key in policy && Truthy(policy[key])) || (key !in policy && default)
  }

  // ----- the verdict on logic -----

  /** Everything the gate asks for, token by token and rule by rule, holds of the output. */
  ghost predicate Satisfies(h: Host, j: Judge, output: Dict, g: Gate) {
    var text := j.textOf(output);
    && (forall k :: k in g.requiredKeys ==> k in output)
    && (g.minLength > 0 ==> |text| >= g.minLength)
    && (forall t :: t in g.containsAll && t != "" ==> OccursIn(t, text))
    && (g.containsAny == [] || exists t :: t in g.containsAny && OccursIn(t, text))
    && (g.regex != "" ==> j.search(g.regex, text).Found?)
    && (forall r :: r in g.rules && r.Rule? && r.op == "not_empty" ==> r.key in output && Truthy(output[r.key]))
    && (forall r :: r in g.rules && r.Rule? && r.op == "equals" ==> h.same(Get(output, r.key), r.value))
    && g.minScore <= 1.0
  }

  ghost predicate OccursIn(token: string, text: string) {
    exists before: string, behind: string :: text == before + token + behind
  }

  lemma ContainsMeans(text: string, token: string)
    ensures Contains(text, token) <==> OccursIn(token, text)
  {
    if Contains(text, token) {
      var i :| 0 <= i <= |text| && StandsAt(text, token, i);
      assert text == text[..i] + token + text[i + |token|..];
    }
    if OccursIn(token, text) {
      var before, behind :| text == before + token + behind;
      assert StandsAt(text, token, |before|);
    }
  }

  lemma SatisfiesIff(h: Host, j: Judge, output: Dict, g: Gate)
    ensures var text := j.textOf(output);
            Passes(h, output, text, g, j.search(g.regex, text)) <==> Satisfies(h, j, output, g)
  {
    var text := j.textOf(output);
    forall t: string ensures Contains(text, t) <==> OccursIn(t, text) {
      ContainsMeans(text, t);
    }
    hide Contains, OccursIn;
    assert KeysPresent(output, g.requiredKeys) <==> forall k :: k in g.requiredKeys ==> k in output;
    assert AllContained(text, g.containsAll) <==> forall t :: t in g.containsAll && t != "" ==> OccursIn(t, text);
    RulesMean(h, output, g.rules);
  }

  lemma RulesMean(h: Host, output: Dict, rules: seq<Rule>)
    ensures RulesHold(h, output, rules) <==>
            && (forall r :: r in rules && r.Rule? && r.op == "not_empty" ==> r.key in output && Truthy(output[r.key]))
            && (forall r :: r in rules && r.Rule? && r.op == "equals" ==> h.same(Get(output, r.key), r.value))
  {
    assert "not_empty" != "equals";
    if RulesHold(h, output, rules) {
      forall r | r in rules && r.Rule? ensures RuleHolds(h, output, r) {
      }
    }
  }

  /** How logic fares on an input: it raises, the gate cannot be read, or its output does or does not satisfy it. */
  datatype Fare = Breaks(fault: Fault) | Unread(fault: Fault) | Falls(output: Dict) | Suffices(output: Dict)

  ghost predicate Fares(h: Host, j: Judge, k: nat, logic: Dict, gate: Dict, input: Dict, f: Fare) {
    match f
    case Breaks(e) => ExecuteLogic(h, k, logic, input) == Err(e)
    case Unread(e) => ExecuteLogic(h, k, logic, input).Ok? && j.readGate(gate) == Err(e)
    case Falls(output) =>
      && ExecuteLogic(h, k, logic, input) == Ok(output)
      && j.readGate(gate).Ok? && !Satisfies(h, j, output, j.readGate(gate).value)
    case Suffices(output) =>
      && ExecuteLogic(h, k, logic, input) == Ok(output)
      && j.readGate(gate).Ok? && Satisfies(h, j, output, j.readGate(gate).value)
  }

  /** Logic fares in exactly one way. */
  lemma FareOf(h: Host, j: Judge, k: nat, logic: Dict, gate: Dict, input: Dict) returns (f: Fare)
    ensures Fares(h, j, k, logic, gate, input, f)
    ensures forall g :: Fares(h, j, k, logic, gate, input, g) ==> g == f
  {
    hide ExecuteLogic, Satisfies;
    match ExecuteLogic(h, k, logic, input)
    case Err(e) => f := Breaks(e);
    case Ok(output) =>
      match j.readGate(gate)
      case Err(e) => f := Unread(e);
      case Ok(g) => f := if Satisfies(h, j, output, g) then Suffices(output) else Falls(output);
  }

  lemma VerdictMeans(h: Host, j: Judge, output: Dict, gate: Dict)
    ensures match Verdict(h, j, output, gate)
            case Err(e) => j.readGate(gate) == Err(e)
            case Ok(ok) => j.readGate(gate).Ok? && (ok <==> Satisfies(h, j, output, j.readGate(gate).value))
  {
    hide Satisfies, Passes;
    if j.readGate(gate).Ok? {
      SatisfiesIff(h, j, output, j.readGate(gate).value);
    }
  }

  lemma StageMeans(h: Host, j: Judge, logic: Dict, gate: Dict, input: Dict)
    ensures match StaticStage(h, j, logic, gate, input)
            case Fails(e) => || Fares(h, j, 0, logic, gate, input, Breaks(e))
                             || Fares(h, j, 0, logic, gate, input, Unread(e))
            case BelowGate(output) => Fares(h, j, 0, logic, gate, input, Falls(output))
            case Good(output) => Fares(h, j, 0, logic, gate, input, Suffices(output))
  {
    hide ExecuteLogic, Satisfies, Verdict;
    var r := ExecuteLogic(h, 0, logic, input);
    if r.Ok? {
      VerdictMeans(h, j, r.value, gate);
    }
  }

  // ----- the runs an attempt learns from -----

  function FirstN<T>(s: seq<T>, n: nat): seq<T> {
    if |s| <= n then s else s[..n]
  }

  /** The runs that ended well, newest first. */
  function NewestFirst(runs: seq<RunRow>): seq<RunRow> {
    if |runs| == 0 then []
    else
      var older, r := NewestFirst(runs[..|runs| - 1]), runs[|runs| - 1];
      if r.stage in {Solidified, Dynamic} && !r.failed then [r] + older else older
  }

  /** What related runs changed. */
  function RelatedChanges(j: Judge, input: Dict, rows: seq<RunRow>): seq<Dict> {
    if |rows| == 0 then []
    else if j.related(input, rows[0].input) then [rows[0].changes] + RelatedChanges(j, input, rows[1..])
    else RelatedChanges(j, input, rows[1..])
  }

  lemma FirstOfCons<T>(x: T, s: seq<T>, n: nat)
    ensures FirstN([x] + s, n) == if n == 0 then [] else [x] + FirstN(s, n - 1)
    ensures FirstN(s, 0) == []
  {
  }

  /** The search through the runs is the query it stands for: of the newest successful runs, the first related ones. */
  lemma {:induction false} HistoryMeans(j: Judge, runs: seq<RunRow>, input: Dict, n: nat, rows: nat, want: nat)
    requires n <= |runs|
    ensures History(j, runs, input, n, rows, want) ==
            FirstN(RelatedChanges(j, input, FirstN(NewestFirst(runs[..n]), rows)), want)
  {
    hide FirstN;
    if n == 0 || rows == 0 || want == 0 {
      NothingFound(j, runs[..n], input, rows, want);
    } else {
      assert runs[..n][..n - 1] == runs[..n - 1];
      var r, older := runs[n - 1], NewestFirst(runs[..n - 1]);
      if !Successful(r) {
        HistoryMeans(j, runs, input, n - 1, rows, want);
      } else {
        var rest := FirstN(older, rows - 1);
        FirstOfCons(r, older, rows);
        assert NewestFirst(runs[..n]) == [r] + older;
        assert ([r] + rest)[1..] == rest;
        if j.related(input, r.input) {
          HistoryMeans(j, runs, input, n - 1, rows - 1, want - 1);
          FirstOfCons(r.changes, RelatedChanges(j, input, rest), want);
        } else {
          HistoryMeans(j, runs, input, n - 1, rows - 1, want);
        }
      }
    }
  }

  lemma NothingFound(j: Judge, runs: seq<RunRow>, input: Dict, rows: nat, want: nat)
    requires |runs| == 0 || rows == 0 || want == 0
    ensures FirstN(RelatedChanges(j, input, FirstN(NewestFirst(runs), rows)), want) == []
  {
    if |runs| == 0 || rows == 0 {
      assert FirstN(NewestFirst(runs), rows) == [];
    }
  }

  // ----- one dynamic attempt -----

  ghost predicate LeavesAlone(s: Skill, s': Skill) {
    s'.versions == s.versions && s'.active == s.active && s'.runs == s.runs
  }

  /** One more run on the list, and everything else as it was. */
  ghost predicate OnlyLogs(s: Skill, s': Skill, row: RunRow) {
    s'.versions == s.versions && s'.active == s.active && s'.runs == s.runs + [row]
  }

  /** Back to the greatest earlier version, if there is one. */
  ghost predicate BacksOff(s: Skill, s': Skill, row: RunRow) {
    && s'.versions == s.versions && s'.runs == s.runs + [row]
    && if exists v :: v in s.versions && v < s.active then
         && s'.active in s.versions && s'.active < s.active
         && forall v :: v in s.versions && v < s.active ==> v <= s'.active
       else s'.active == s.active
  }

  /** The patched logic under the next number, with the policies of the version it was made from. */
  ghost predicate Solidifies(s: Skill, s': Skill, patched: Dict, row: RunRow) {
    && s.active in s.versions && s'.active == s.active + 1
    && s'.versions.Keys == s.versions.Keys + {s'.active}
    && (forall v :: v in s.versions ==> s'.versions[v] == s.versions[v])
    && s'.versions[s'.active] == Version(patched, s.versions[s.active].trigger, s.versions[s.active].gate)
    && s'.runs == s.runs + [row]
  }

  /** What an attempt on patched logic leads to, by how that fares. */
  ghost predicate Ends(s: Skill, req: Request, changes: Dict, patched: Dict, f: Fare, s': Skill, answer: Answer) {
    match f
    case Unread(e) => LeavesAlone(s, s') && answer == Raised(e)
    case Breaks(_) =>
      BacksOff(s, s', RunRow(req.input, RolledBack, changes, true)) && answer == Finished(RolledBack, map[])
    case Falls(output) =>
      BacksOff(s, s', RunRow(req.input, RolledBack, changes, true)) && answer == Finished(RolledBack, output)
    case Suffices(output) =>
      if !req.solidify then LeavesAlone(s, s') && answer == Finished(Dynamic, output)
      else if s.active + 1 in s.versions then LeavesAlone(s, s') && answer == Raised(VersionExists)
      else
        && Solidifies(s, s', patched, RunRow(req.input, Solidified, changes, false))
        && answer == Finished(Solidified, output + map["solidified_version" := Int(s.active + 1)])
  }

  /** A dynamic attempt: within the domain, logic patched from history or by rule, judged by how it fares. */
  ghost predicate Leads(h: Host, j: Judge, k: nat, s: Skill, x: Setup, req: Request, reason: string,
                        error: Option<string>, s': Skill, answer: Answer)
  {
    var history := FirstN(RelatedChanges(j, req.input, FirstN(NewestFirst(s.runs), 30)), 5);
    match j.inDomain(x.logic, req.input)
    case Err(e) => LeavesAlone(s, s') && answer == Raised(e)
    case Ok(false) =>
      OnlyLogs(s, s', RunRow(req.input, DomainRejected, map[], true)) && answer == Finished(DomainRejected, map[])
    case Ok(true) =>
      match ProposedChanges(h, reason, x.logic, req.input, history, error)
      case Err(e) => LeavesAlone(s, s') && answer == Raised(e)
      case Ok(changes) =>
        match Patched(h, x.logic, changes)
        case Err(e) => LeavesAlone(s, s') && answer == Raised(e)
        case Ok(patched) =>
          forall f :: Fares(h, j, k, patched, x.gate, req.input, f) ==> Ends(s, req, changes, patched, f, s', answer)
  }

  lemma RollBackMeans(s: Skill, input: Dict, changes: Dict)
    ensures BacksOff(s, Logged(RolledBackSkill(s), input, RolledBack, changes, true),
                     RunRow(input, RolledBack, changes, true))
  {
    if v :| v in s.versions && v < s.active {
      assert v in Earlier(s.versions, s.active);
    } else {
      assert Earlier(s.versions, s.active) == {};
    }
  }

  function AttemptOf(f: Fare, changes: Dict, patched: Dict): Attempt {
    match f
    case Breaks(_) => ExecutionFailed(changes)
    case Unread(e) => Broken(e)
    case Falls(output) => GateFailed(changes, output)
    case Suffices(output) => Passed(changes, patched, output)
  }

  lemma AttemptEnds(s: Skill, req: Request, changes: Dict, patched: Dict, f: Fare)
    requires s.active in s.versions
    ensures var (s', answer) :=
              AfterAttempt(s, s.versions[s.active], req.input, AttemptOf(f, changes, patched), req.solidify);
            Ends(s, req, changes, patched, f, s', answer)
  {
    hide BacksOff, RolledBackSkill, Solidifies;
    if f.Suffices? {
      PassedEnds(s, req, changes, patched, f.output);
      hide AfterAttempt, Ends;
    } else {
      RollBackMeans(s, req.input, changes);
    }
  }

  lemma PassedEnds(s: Skill, req: Request, changes: Dict, patched: Dict, output: Dict)
    requires s.active in s.versions
    ensures var (s', answer) :=
              AfterAttempt(s, s.versions[s.active], req.input, Passed(changes, patched, output), req.solidify);
            Ends(s, req, changes, patched, Suffices(output), s', answer)
  {
    hide RolledBackSkill, BacksOff;
  }

  lemma PatchFares(h: Host, j: Judge, k: nat, runs: seq<RunRow>, x: Setup, input: Dict, reason: string,
                   error: Option<string>, history: seq<Dict>, changes: Dict, patched: Dict, f: Fare)
    requires j.inDomain(x.logic, input) == Ok(true) && history == History(j, runs, input, |runs|, 30, 5)
    requires ProposedChanges(h, reason, x.logic, input, history, error) == Ok(changes)
    requires Patched(h, x.logic, changes) == Ok(patched) && Fares(h, j, k, patched, x.gate, input, f)
    ensures TryPatch(h, j, k, runs, x.logic, input, reason, error, x.gate) == AttemptOf(f, changes, patched)
  {
    hide ExecuteLogic, Satisfies, Verdict, History, ProposedChanges, Patched;
    if !f.Breaks? {
      VerdictMeans(h, j, ExecuteLogic(h, k, patched, input).value, x.gate);
    }
  }

  lemma HistoryIs(j: Judge, runs: seq<RunRow>, input: Dict)
    ensures History(j, runs, input, |runs|, 30, 5) ==
            FirstN(RelatedChanges(j, input, FirstN(NewestFirst(runs), 30)), 5)
  {
    HistoryMeans(j, runs, input, |runs|, 30, 5);
    assert runs[..|runs|] == runs;
  }

  lemma AttemptLeads(h: Host, j: Judge, k: nat, s: Skill, x: Setup, req: Request, reason: string,
                     error: Option<string>)
    requires s.active in s.versions
    ensures var a := TryPatch(h, j, k, s.runs, x.logic, req.input, reason, error, x.gate);
            var (s', answer) := AfterAttempt(s, s.versions[s.active], req.input, a, req.solidify);
            Leads(h, j, k, s, x, req, reason, error, s', answer)
  {
    hide Fares, ExecuteLogic, Satisfies, Verdict, History, ProposedChanges, Patched, Ends, FirstN, NewestFirst,
         RelatedChanges, RolledBackSkill;
    HistoryIs(j, s.runs, req.input);
    var history := History(j, s.runs, req.input, |s.runs|, 30, 5);
    var changes := ProposedChanges(h, reason, x.logic, req.input, history, error);
    if j.inDomain(x.logic, req.input) == Ok(true) && changes.Ok? && Patched(h, x.logic, changes.value).Ok? {
      var patched := Patched(h, x.logic, changes.value).value;
      hide TryPatch, AfterAttempt;
      forall f | Fares(h, j, k, patched, x.gate, req.input, f)
        ensures var a := TryPatch(h, j, k, s.runs, x.logic, req.input, reason, error, x.gate);
                var (s', answer) := AfterAttempt(s, s.versions[s.active], req.input, a, req.solidify);
                Ends(s, req, changes.value, patched, f, s', answer)
      {
        PatchFares(h, j, k, s.runs, x, req.input, reason, error, history, changes.value, patched, f);
        AttemptEnds(s, req, changes.value, patched, f);
      }
    }
  }

  // ----- whole runs -----

  /** The dynamic stage that a fault leads to, if the policy has one. */
  ghost predicate OnFault(h: Host, j: Judge, s: Skill, x: Setup, req: Request, e: Fault, s': Skill, answer: Answer) {
    if On(x.trigger, "on_error", true) then
      Leads(h, j, 2, s, x, req, "error", Some(FaultText(e)), s', answer)
    else
      OnlyLogs(s, s', RunRow(req.input, StaticError, map[], true)) && answer == Finished(StaticError, map[])
  }

  /** What comes behind an output that is not good enough, or good and unwanted. A fault in the first dynamic attempt
      leads to a second one, unless it is the unique key's. */
  ghost predicate BehindStatic(h: Host, j: Judge, s: Skill, x: Setup, req: Request, output: Dict, s': Skill,
                               answer: Answer)
  {
    if !On(x.trigger, "on_quality_below_threshold", true) then
      && OnlyLogs(s, s', RunRow(req.input, StaticQualityFailed, map[], false))
      && answer == Finished(StaticQualityFailed, output)
    else
      exists first: (Skill, Answer) ::
        && Leads(h, j, 1, s, x, req, if req.forceDynamic then "force_dynamic" else "quality_gate", None, first.0,
                 first.1)
        && if first.1.Raised? && !first.1.fault.VersionExists?
           then OnFault(h, j, s, x, req, first.1.fault, s', answer)
           else s' == first.0 && answer == first.1
  }

  ghost predicate Forced(x: Setup, req: Request) {
    req.forceDynamic || On(x.trigger, "force_dynamic", false)
  }

  /** A run, from what it works with and how its logic fares. */
  ghost predicate RunsAs(h: Host, j: Judge, s: Skill, x: Setup, req: Request, f: Fare, s': Skill, answer: Answer) {
    match f
    case Breaks(e) => OnFault(h, j, s, x, req, e, s', answer)
    case Unread(e) => OnFault(h, j, s, x, req, e, s', answer)
    case Falls(output) => BehindStatic(h, j, s, x, req, output, s', answer)
    case Suffices(output) =>
      if Forced(x, req) then BehindStatic(h, j, s, x, req, output, s', answer)
      else OnlyLogs(s, s', RunRow(req.input, Static, map[], false)) && answer == Finished(Static, output)
  }

  lemma FaultLeads(h: Host, j: Judge, s: Skill, x: Setup, req: Request, e: Fault)
    requires s.active in s.versions
    ensures var (s', answer) := AfterFault(h, j, s, s.versions[s.active], x.logic, x.trigger, x.gate, req, e);
            OnFault(h, j, s, x, req, e, s', answer)
  {
    hide Leads, TryPatch, AfterAttempt;
    AttemptLeads(h, j, 2, s, x, req, "error", Some(FaultText(e)));
  }

  /** Behind a static stage that is not the end of the run. */
  lemma BehindMeans(h: Host, j: Judge, s: Skill, x: Setup, req: Request, output: Dict)
    requires s.active in s.versions && On(x.trigger, "on_quality_below_threshold", true)
    ensures var reason := if req.forceDynamic then "force_dynamic" else "quality_gate";
            var a := TryPatch(h, j, 1, s.runs, x.logic, req.input, reason, None, x.gate);
            var base := s.versions[s.active];
            var first := AfterAttempt(s, base, req.input, a, req.solidify);
            var (s', answer) := if first.1.Finished? || first.1.fault.VersionExists? then first
                                else AfterFault(h, j, first.0, base, x.logic, x.trigger, x.gate, req, first.1.fault);
            BehindStatic(h, j, s, x, req, output, s', answer)
  {
    hide TryPatch, AfterAttempt, AfterFault, Leads, OnFault;
    var reason := if req.forceDynamic then "force_dynamic" else "quality_gate";
    AttemptLeads(h, j, 1, s, x, req, reason, None);
    var a := TryPatch(h, j, 1, s.runs, x.logic, req.input, reason, None, x.gate);
    var first := AfterAttempt(s, s.versions[s.active], req.input, a, req.solidify);
    if first.1.Raised? {
      FirstRaised(s, s.versions[s.active], req.input, a, req.solidify);
      FaultLeads(h, j, s, x, req, first.1.fault);
    }
  }

  /** The four ways out of the static stage. */
  lemma RunCases(h: Host, j: Judge, s: Skill, req: Request, x: Setup)
    requires IsSetup(s, req, x)
    ensures var stage, base := StaticStage(h, j, x.logic, x.gate, req.input), s.versions[s.active];
            var r := RunSkill(h, j, s, req);
            if stage.Fails? then r == AfterFault(h, j, s, base, x.logic, x.trigger, x.gate, req, stage.fault)
            else if stage.Good? && !Forced(x, req) then
              r == (Logged(s, req.input, Static, map[], false), Finished(Static, stage.output))
            else if !On(x.trigger, "on_quality_below_threshold", true) then
              r == (Logged(s, req.input, StaticQualityFailed, map[], false),
                    Finished(StaticQualityFailed, stage.output))
            else BehindStatic(h, j, s, x, req, stage.output, r.0, r.1)
  {
    hide ExecuteLogic, TryPatch, AfterAttempt, AfterFault, BehindStatic, MergeOverrides, StaticStage, Overlays;
    var y := SetupOf(s, req);
    assert x == y;
    hide IsSetup;
    var stage := StaticStage(h, j, x.logic, x.gate, req.input);
    if !stage.Fails? && On(x.trigger, "on_quality_below_threshold", true) {
      BehindMeans(h, j, s, x, req, stage.output);
    }
  }

  /** The static stage first: an output that satisfies the gate is the answer unless the dynamic stage is forced, and
      the skill is left as it was. Everything else goes where the policies send it. */
  lemma RunMeans(h: Host, j: Judge, s: Skill, req: Request, x: Setup, f: Fare)
    requires IsSetup(s, req, x) && Fares(h, j, 0, x.logic, x.gate, req.input, f)
    ensures var (s', answer) := RunSkill(h, j, s, req); RunsAs(h, j, s, x, req, f, s', answer)
  {
    hide AfterFault, RunSkill, OnFault, StaticStage, Fares, Forced, Overlays;
    var g := FareOf(h, j, 0, x.logic, x.gate, req.input);
    StageMeans(h, j, x.logic, x.gate, req.input);
    RunCases(h, j, s, req, x);
    if f.Breaks? || f.Unread? {
      FaultLeads(h, j, s, x, req, f.fault);
    }
  }

  lemma FirstRaised(s: Skill, base: Version, input: Dict, a: Attempt, solidify: bool)
    ensures var (s', answer) := AfterAttempt(s, base, input, a, solidify); answer.Raised? ==> s' == s
  {
  }

  predicate IsStaticStage(stage: Stage) {
    stage.Static? || stage.StaticQualityFailed? || stage.StaticError?
  }

  lemma LeadsElsewhere(h: Host, j: Judge, k: nat, s: Skill, x: Setup, req: Request, reason: string,
                       error: Option<string>, s': Skill, answer: Answer)
    requires Leads(h, j, k, s, x, req, reason, error, s', answer)
    ensures answer.Finished? ==> !IsStaticStage(answer.stage)
  {
    hide ExecuteLogic, Satisfies, Fares, FirstN, NewestFirst, RelatedChanges, ProposedChanges, Patched, BacksOff;
    var history := FirstN(RelatedChanges(j, req.input, FirstN(NewestFirst(s.runs), 30)), 5);
    var changes := ProposedChanges(h, reason, x.logic, req.input, history, error);
    if j.inDomain(x.logic, req.input) == Ok(true) && changes.Ok? && Patched(h, x.logic, changes.value).Ok? {
      var f := FareOf(h, j, k, Patched(h, x.logic, changes.value).value, x.gate, req.input);
    }
  }

  /** A run that ends in the static stage is logged as such, without a patch, and moves nothing. */
  ghost predicate StaticEnd(s: Skill, req: Request, s': Skill, answer: Answer) {
    answer.Finished? && IsStaticStage(answer.stage) ==>
      OnlyLogs(s, s', RunRow(req.input, answer.stage, map[], answer.stage.StaticError?))
  }

  lemma FaultElsewhere(h: Host, j: Judge, s: Skill, x: Setup, req: Request, e: Fault, s': Skill, answer: Answer)
    requires OnFault(h, j, s, x, req, e, s', answer)
    ensures answer.Finished? && IsStaticStage(answer.stage) ==>
              answer.stage.StaticError? && !On(x.trigger, "on_error", true)
    ensures StaticEnd(s, req, s', answer)
  {
    hide Leads;
    if On(x.trigger, "on_error", true) {
      LeadsElsewhere(h, j, 2, s, x, req, "error", Some(FaultText(e)), s', answer);
    }
  }

  lemma BehindElsewhere(h: Host, j: Judge, s: Skill, x: Setup, req: Request, output: Dict, s': Skill, answer: Answer)
    requires BehindStatic(h, j, s, x, req, output, s', answer)
    ensures answer.Finished? ==> !answer.stage.Static?
    ensures answer.Finished? && answer.stage.StaticQualityFailed? <==>
              !On(x.trigger, "on_quality_below_threshold", true)
    ensures answer.Finished? && answer.stage.StaticQualityFailed? ==> answer.output == output
    ensures StaticEnd(s, req, s', answer)
  {
    hide Leads, OnFault;
    if On(x.trigger, "on_quality_below_threshold", true) {
      var reason := if req.forceDynamic then "force_dynamic" else "quality_gate";
      var first: (Skill, Answer) :|
        && Leads(h, j, 1, s, x, req, reason, None, first.0, first.1)
        && if first.1.Raised? && !first.1.fault.VersionExists?
           then OnFault(h, j, s, x, req, first.1.fault, s', answer)
           else s' == first.0 && answer == first.1;
      LeadsElsewhere(h, j, 1, s, x, req, reason, None, first.0, first.1);
      if first.1.Raised? && !first.1.fault.VersionExists? {
        FaultElsewhere(h, j, s, x, req, first.1.fault, s', answer);
      }
    }
  }

  /** So a run is static exactly if its logic runs, its output satisfies the gate, and nothing forces the dynamic
      stage; a failed or unwanted output is an answer exactly if the policy switches the dynamic stage off. */
  lemma StageIff(h: Host, j: Judge, s: Skill, req: Request, x: Setup, output: Dict)
    requires IsSetup(s, req, x)
    ensures var (s', answer) := RunSkill(h, j, s, req);
            && (answer == Finished(Static, output) <==>
                Fares(h, j, 0, x.logic, x.gate, req.input, Suffices(output)) && !Forced(x, req))
            && (answer == Finished(StaticQualityFailed, output) <==>
                && !On(x.trigger, "on_quality_below_threshold", true)
                && (|| Fares(h, j, 0, x.logic, x.gate, req.input, Falls(output))
                    || (Forced(x, req) && Fares(h, j, 0, x.logic, x.gate, req.input, Suffices(output)))))
            && StaticEnd(s, req, s', answer)
  {
    hide RunSkill, IsSetup, Fares, On, Forced, OnFault, BehindStatic;
    var f := FareOf(h, j, 0, x.logic, x.gate, req.input);
    RunMeans(h, j, s, req, x, f);
    var (s', answer) := RunSkill(h, j, s, req);
    match f
    case Breaks(e) => FaultElsewhere(h, j, s, x, req, e, s', answer);
    case Unread(e) => FaultElsewhere(h, j, s, x, req, e, s', answer);
    case Falls(o) => BehindElsewhere(h, j, s, x, req, o, s', answer);
    case Suffices(o) =>
      if Forced(x, req) {
        BehindElsewhere(h, j, s, x, req, o, s', answer);
      }
  }
}
